/**
 * `/api/brand-categories`: GET, POST, PUT and DELETE of brand-category link
 * rows. Each mutating handler runs its checks in a fixed order with early
 * returns, then creates, updates or deletes exactly one row.
 */
module BrandCategoriesRoute {
  import opened Wrappers
  import opened Db
  import opened Fields

  /** A `None` id stands for a missing or empty id in the body or query. */
  datatype LinkRequest = LinkRequest(
    id: Option<nat>, name: Option<string>, description: Option<string>, slug: Option<string>,
    brandId: Option<nat>, categoryId: Option<nat>)

  /** A link with the brand and category it joins, as the handlers return it. */
  datatype LinkRecord = LinkRecord(link: BrandCategory, brand: Brand, category: Category)

  datatype Result =
    | Ok(id: nat, record: LinkRecord)
    | Deleted
    | BadRequest
    | NotFound
    | ServerError
  {
    function Status(): int {
      match this
      case Ok(_, _) => 200
      case Deleted => 200
      case BadRequest => 400
      case NotFound => 404
      case ServerError => 500
    }
  }

  predicate LinksReferenceRows(links: map<nat, BrandCategory>, brands: map<nat, Brand>, categories: map<nat, Category>) {
    forall l :: l in links ==> links[l].brandId in brands && links[l].categoryId in categories
  }

  // ---------------------------------------------------------------- GET

  /** `brandCategory.findMany({ include: { brand, category } })`. */
  function Get(links: map<nat, BrandCategory>, brands: map<nat, Brand>, categories: map<nat, Category>): (r: map<nat, LinkRecord>)
    requires LinksReferenceRows(links, brands, categories)
    ensures r.Keys == links.Keys
    ensures forall l :: l in r ==>
      r[l].link == links[l] && r[l].brand == brands[links[l].brandId] && r[l].category == categories[links[l].categoryId]
  {
    map l | l in links :: LinkRecord(links[l], brands[links[l].brandId], categories[links[l].categoryId])
  }

  // ---------------------------------------------------------------- POST

  /** `name && description && brandId && categoryId`; the slug is optional. */
  predicate CreateFieldsPresent(req: LinkRequest) {
    Given(req.name) && Given(req.description) && req.brandId.Some? && req.categoryId.Some?
  }

  function NewLink(req: LinkRequest): BrandCategory
    requires CreateFieldsPresent(req)
  {
    BrandCategory(req.name.value, req.description.value, req.slug, req.brandId.value, req.categoryId.value)
  }

  method Post(db: Database, req: LinkRequest) returns (r: Result)
    requires db.Valid()
    modifies db`brandCategories, db`nextId
    ensures db.Valid()
    ensures !CreateFieldsPresent(req) ==>
      r == BadRequest && db.brandCategories == old(db.brandCategories) && db.nextId == old(db.nextId)
    ensures CreateFieldsPresent(req) && (req.brandId.value !in db.brands || req.categoryId.value !in db.categories) ==>
      r == NotFound && db.brandCategories == old(db.brandCategories) && db.nextId == old(db.nextId)
    ensures CreateFieldsPresent(req) && req.brandId.value in db.brands && req.categoryId.value in db.categories ==>
      && db.brandCategories == old(db.brandCategories)[old(db.nextId) := NewLink(req)]
      && db.nextId == old(db.nextId) + 1
      && r == Ok(old(db.nextId), LinkRecord(NewLink(req), db.brands[req.brandId.value], db.categories[req.categoryId.value]))
  {
    if !CreateFieldsPresent(req) {
      return BadRequest;
    }
    var brand := if req.brandId.value in db.brands then Some(db.brands[req.brandId.value]) else None;
    var category := if req.categoryId.value in db.categories then Some(db.categories[req.categoryId.value]) else None;
    if brand.None? || category.None? {
      return NotFound;
    }
    var link := NewLink(req);
    var id := db.nextId;
    db.brandCategories := db.brandCategories[id := link];
    db.nextId := db.nextId + 1;
    r := Ok(id, LinkRecord(link, brand.value, category.value));
  }

  // ---------------------------------------------------------------- PUT

  /** `brandCategory.update`: a field absent from the body keeps its value. */
  function Patched(row: BrandCategory, req: LinkRequest): (p: BrandCategory)
    ensures req.name.Some? ==> p.name == req.name.value
    ensures req.name.None? ==> p.name == row.name
    ensures req.description.Some? ==> p.description == req.description.value
    ensures req.description.None? ==> p.description == row.description
    ensures req.slug.Some? ==> p.slug == req.slug
    ensures req.slug.None? ==> p.slug == row.slug
    ensures req.brandId.Some? ==> p.brandId == req.brandId.value
    ensures req.brandId.None? ==> p.brandId == row.brandId
    ensures req.categoryId.Some? ==> p.categoryId == req.categoryId.value
    ensures req.categoryId.None? ==> p.categoryId == row.categoryId
  {
    BrandCategory(
      if req.name.Some? then req.name.value else row.name,
      if req.description.Some? then req.description.value else row.description,
      if req.slug.Some? then req.slug else row.slug,
      if req.brandId.Some? then req.brandId.value else row.brandId,
      if req.categoryId.Some? then req.categoryId.value else row.categoryId)
  }

  /** A body with no fields leaves the row as it was. */
  lemma EmptyPatchKeepsRow(row: BrandCategory, id: Option<nat>)
    ensures Patched(row, LinkRequest(id, None, None, None, None, None)) == row
  {
  }

  /** Applying the same update twice is applying it once. */
  lemma PatchIdempotent(row: BrandCategory, req: LinkRequest)
    ensures Patched(Patched(row, req), req) == Patched(row, req)
  {
  }

  method Put(db: Database, req: LinkRequest) returns (r: Result)
    requires db.Valid()
    modifies db`brandCategories
    ensures db.Valid()
    ensures req.id.None? ==> r == BadRequest && db.brandCategories == old(db.brandCategories)
    ensures req.id.Some? && req.id.value !in old(db.brandCategories) ==>
      r == NotFound && db.brandCategories == old(db.brandCategories)
    ensures req.id.Some? && req.id.value in old(db.brandCategories) ==>
      var p := Patched(old(db.brandCategories)[req.id.value], req);
      if p.brandId in db.brands && p.categoryId in db.categories then
        && db.brandCategories == old(db.brandCategories)[req.id.value := p]
        && r == Ok(req.id.value, LinkRecord(p, db.brands[p.brandId], db.categories[p.categoryId]))
      else
        // the update violates a foreign key and the handler answers 500
        r == ServerError && db.brandCategories == old(db.brandCategories)
  {
    if req.id.None? {
      return BadRequest;
    }
    var id := req.id.value;
    if id !in db.brandCategories {
      return NotFound;
    }
    var p := Patched(db.brandCategories[id], req);
    if p.brandId !in db.brands || p.categoryId !in db.categories {
      return ServerError;
    }
    db.brandCategories := db.brandCategories[id := p];
    r := Ok(id, LinkRecord(p, db.brands[p.brandId], db.categories[p.categoryId]));
  }

  // ---------------------------------------------------------------- DELETE

  method Delete(db: Database, id: Option<nat>) returns (r: Result)
    requires db.Valid()
    modifies db`brandCategories
    ensures db.Valid()
    ensures id.None? ==> r == BadRequest && db.brandCategories == old(db.brandCategories)
    ensures id.Some? && id.value !in old(db.brandCategories) ==>
      r == NotFound && db.brandCategories == old(db.brandCategories)
    ensures id.Some? && id.value in old(db.brandCategories) ==>
      r == Deleted && db.brandCategories == old(db.brandCategories) - {id.value}
  {
    if id.None? {
      return BadRequest;
    }
    if id.value !in db.brandCategories {
      return NotFound;
    }
    db.brandCategories := db.brandCategories - {id.value};
    r := Deleted;
  }

  /** Deleting a link removes that row only; every other link is unchanged. */
  lemma DeleteRemovesOnlyThatRow(links: map<nat, BrandCategory>, id: nat)
    requires id in links
    ensures id !in links - {id}
    ensures forall l :: l in links && l != id ==> l in links - {id} && (links - {id})[l] == links[l]
    ensures |(links - {id}).Keys| == |links.Keys| - 1
  {
    assert (links - {id}).Keys == links.Keys - {id};
  }
}
