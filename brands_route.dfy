/**
 * `GET /api/brands` and `POST /api/brands`.
 *
 * GET lists every brand newest first, each with the names of the categories
 * it is linked to and a summary of its products. POST requires a name and a
 * slug, refuses a slug already used by a brand, and adds one brand.
 */
module BrandsRoute {
  import opened Wrappers
  import opened Db
  import opened Fields
  import opened Listing

  // ---------------------------------------------------------------- POST

  datatype BrandRequest = BrandRequest(
    name: Option<string>, description: Option<string>, image: Option<string>, slug: Option<string>)

  predicate SlugTaken(brands: map<nat, Brand>, slug: string) {
    exists id :: id in brands && brands[id].slug == slug
  }

  datatype PostResult = Created(id: nat, brand: Brand) | MissingFields | DuplicateSlug {
    function Status(): int {
      match this
      case Created(_, _) => 200
      case MissingFields => 400
      case DuplicateSlug => 400
    }
  }

  /** The row `brand.create` writes; description and image may be absent. */
  function NewBrand(req: BrandRequest): Brand
    requires Given(req.name) && Given(req.slug)
  {
    Brand(req.name.value, req.slug.value, req.description, req.image)
  }

  method Post(db: Database, req: BrandRequest) returns (r: PostResult)
    requires db.Valid()
    modifies db`brands, db`nextId
    ensures db.Valid()
    ensures !Given(req.name) || !Given(req.slug) ==>
      r == MissingFields && db.brands == old(db.brands) && db.nextId == old(db.nextId)
    ensures Given(req.name) && Given(req.slug) && SlugTaken(old(db.brands), req.slug.value) ==>
      r == DuplicateSlug && db.brands == old(db.brands) && db.nextId == old(db.nextId)
    ensures Given(req.name) && Given(req.slug) && !SlugTaken(old(db.brands), req.slug.value) ==>
      && r == Created(old(db.nextId), NewBrand(req))
      && db.brands == old(db.brands)[old(db.nextId) := NewBrand(req)]
      && db.nextId == old(db.nextId) + 1
  {
    if !Given(req.name) || !Given(req.slug) {
      return MissingFields;
    }
    if SlugTaken(db.brands, req.slug.value) {
      return DuplicateSlug;
    }
    var brand := NewBrand(req);
    var id := db.nextId;
    db.brands := db.brands[id := brand];
    db.nextId := db.nextId + 1;
    r := Created(id, brand);
  }

  /** Adding a brand whose slug is not taken keeps brand slugs unique. */
  lemma AddKeepsSlugsUnique(brands: map<nat, Brand>, id: nat, b: Brand)
    requires BrandSlugsUnique(brands)
    requires id !in brands && !SlugTaken(brands, b.slug)
    ensures BrandSlugsUnique(brands[id := b])
  {
    var after := brands[id := b];
    forall x, y | x in after && y in after && x != y
      ensures after[x].slug != after[y].slug
    {
      if x == id {
        assert y in brands;
      } else if y == id {
        assert x in brands;
      }
    }
  }

  // ---------------------------------------------------------------- GET

  datatype ProductSummary = ProductSummary(
    id: nat, name: string, price: int, image: string, description: string, slug: string)

  datatype BrandView = BrandView(
    id: nat, name: string, slug: string, image: Option<string>, description: Option<string>,
    categories: seq<string>, products: seq<ProductSummary>)

  /** Ids below `n` of the links of brand `brandId`, ascending. */
  function LinkIdsOf(links: map<nat, BrandCategory>, brandId: nat, n: nat): (ls: seq<nat>)
    ensures forall i :: 0 <= i < |ls| ==> ls[i] in links
  {
    if n == 0 then []
    else LinkIdsOf(links, brandId, n - 1) + (if n - 1 in links && links[n - 1].brandId == brandId then [n - 1] else [])
  }

  /** Ids below `n` of the products of brand `brandId`, ascending. */
  function ProductIdsOf(products: map<nat, Product>, brandId: nat, n: nat): (ps: seq<nat>)
    ensures forall i :: 0 <= i < |ps| ==> ps[i] in products
  {
    if n == 0 then []
    else ProductIdsOf(products, brandId, n - 1) + (if n - 1 in products && products[n - 1].brandId == Some(brandId) then [n - 1] else [])
  }

  /** Exactly the brand's links are listed, in ascending id order. */
  lemma {:induction false} LinkIdsComplete(links: map<nat, BrandCategory>, brandId: nat, n: nat)
    ensures forall l :: l in LinkIdsOf(links, brandId, n) <==> l in links && links[l].brandId == brandId && l < n
    decreases n
  {
    if n > 0 {
      LinkIdsComplete(links, brandId, n - 1);
      var init := LinkIdsOf(links, brandId, n - 1);
      var ls := LinkIdsOf(links, brandId, n);
      forall l | l in links && links[l].brandId == brandId && l < n
        ensures l in ls
      {
        if l < n - 1 {
          var i :| 0 <= i < |init| && init[i] == l;
          assert ls[i] == l;
        } else {
          assert ls[|ls| - 1] == l;
        }
      }
    }
  }

  lemma {:induction false} LinkIdsAscending(links: map<nat, BrandCategory>, brandId: nat, n: nat)
    ensures Ascending(LinkIdsOf(links, brandId, n))
    decreases n
  {
    if n > 0 {
      LinkIdsAscending(links, brandId, n - 1);
      LinkIdsComplete(links, brandId, n - 1);
      var init := LinkIdsOf(links, brandId, n - 1);
      if n - 1 in links && links[n - 1].brandId == brandId {
        forall i | 0 <= i < |init| ensures init[i] < n - 1 {
          assert init[i] in init;
        }
        AscendingSnoc(init, n - 1);
      } else {
        assert LinkIdsOf(links, brandId, n) == init;
      }
    }
  }

  /** Exactly the brand's products are listed. */
  lemma {:induction false} ProductIdsComplete(products: map<nat, Product>, brandId: nat, n: nat)
    ensures forall p :: p in ProductIdsOf(products, brandId, n) <==> p in products && products[p].brandId == Some(brandId) && p < n
    decreases n
  {
    if n > 0 {
      ProductIdsComplete(products, brandId, n - 1);
      var init := ProductIdsOf(products, brandId, n - 1);
      var ps := ProductIdsOf(products, brandId, n);
      forall p | p in products && products[p].brandId == Some(brandId) && p < n
        ensures p in ps
      {
        if p < n - 1 {
          var i :| 0 <= i < |init| && init[i] == p;
          assert ps[i] == p;
        } else {
          assert ps[|ps| - 1] == p;
        }
      }
    }
  }

  lemma {:induction false} ProductIdsAscending(products: map<nat, Product>, brandId: nat, n: nat)
    ensures Ascending(ProductIdsOf(products, brandId, n))
    decreases n
  {
    if n > 0 {
      ProductIdsAscending(products, brandId, n - 1);
      ProductIdsComplete(products, brandId, n - 1);
      var init := ProductIdsOf(products, brandId, n - 1);
      if n - 1 in products && products[n - 1].brandId == Some(brandId) {
        forall i | 0 <= i < |init| ensures init[i] < n - 1 {
          assert init[i] in init;
        }
        AscendingSnoc(init, n - 1);
      } else {
        assert ProductIdsOf(products, brandId, n) == init;
      }
    }
  }

  predicate LinksReferenceCategories(links: map<nat, BrandCategory>, categories: map<nat, Category>) {
    forall l :: l in links ==> links[l].categoryId in categories
  }

  /** `brand.categories.map(cate => cate.category.name)` over the given link ids. */
  function CategoryNames(ls: seq<nat>, links: map<nat, BrandCategory>, categories: map<nat, Category>): (names: seq<string>)
    requires forall i :: 0 <= i < |ls| ==> ls[i] in links
    requires LinksReferenceCategories(links, categories)
    ensures |names| == |ls|
    ensures forall i :: 0 <= i < |ls| ==> names[i] == categories[links[ls[i]].categoryId].name
  {
    if ls == [] then [] else [categories[links[ls[0]].categoryId].name] + CategoryNames(ls[1..], links, categories)
  }

  /** The summary carries the product's id, name, price, image, description and slug. */
  predicate Summarizes(s: ProductSummary, id: nat, p: Product) {
    s.id == id && s.name == p.name && s.price == p.price
    && s.image == p.image && s.description == p.description && s.slug == p.slug
  }

  function Summaries(ps: seq<nat>, products: map<nat, Product>): (r: seq<ProductSummary>)
    requires forall i :: 0 <= i < |ps| ==> ps[i] in products
    ensures |r| == |ps|
    ensures forall i :: 0 <= i < |ps| ==> Summarizes(r[i], ps[i], products[ps[i]])
  {
    if ps == [] then []
    else
      var p := products[ps[0]];
      [ProductSummary(ps[0], p.name, p.price, p.image, p.description, p.slug)] + Summaries(ps[1..], products)
  }

  /** One entry of the answer; relations are listed in creation order. */
  function FormatBrand(id: nat, brands: map<nat, Brand>, categories: map<nat, Category>,
                       links: map<nat, BrandCategory>, products: map<nat, Product>, n: nat): (v: BrandView)
    requires id in brands
    requires LinksReferenceCategories(links, categories)
    ensures v.id == id && v.name == brands[id].name && v.slug == brands[id].slug
    ensures v.image == brands[id].image && v.description == brands[id].description
  {
    var b := brands[id];
    BrandView(id, b.name, b.slug, b.image, b.description,
      CategoryNames(LinkIdsOf(links, id, n), links, categories),
      Summaries(ProductIdsOf(products, id, n), products))
  }

  function FormatAll(ids: seq<nat>, brands: map<nat, Brand>, categories: map<nat, Category>,
                     links: map<nat, BrandCategory>, products: map<nat, Product>, n: nat): (vs: seq<BrandView>)
    requires forall i :: 0 <= i < |ids| ==> ids[i] in brands
    requires LinksReferenceCategories(links, categories)
    ensures |vs| == |ids| && forall i :: 0 <= i < |ids| ==> vs[i].id == ids[i]
  {
    seq(|ids|, i requires 0 <= i < |ids| => FormatBrand(ids[i], brands, categories, links, products, n))
  }

  /** The answer of `GET /api/brands` over tables whose ids are all below `n`. */
  function Get(brands: map<nat, Brand>, categories: map<nat, Category>,
               links: map<nat, BrandCategory>, products: map<nat, Product>, n: nat): seq<BrandView>
    requires LinksReferenceCategories(links, categories)
  {
    FormatAll(KeysDown(brands, n), brands, categories, links, products, n)
  }

  /** Every brand is listed once, newest first. */
  lemma ListsEveryBrandNewestFirst(brands: map<nat, Brand>, categories: map<nat, Category>,
                                   links: map<nat, BrandCategory>, products: map<nat, Product>, n: nat)
    requires LinksReferenceCategories(links, categories)
    requires forall id :: id in brands ==> id < n
    ensures var vs := Get(brands, categories, links, products, n);
      && (forall id :: id in brands <==> exists i :: 0 <= i < |vs| && vs[i].id == id)
      && (forall i, j :: 0 <= i < j < |vs| ==> vs[i].id > vs[j].id)
  {
    var ids := KeysDown(brands, n);
    var vs := Get(brands, categories, links, products, n);
    KeysDownComplete(brands, n);
    forall id | id in brands
      ensures exists i :: 0 <= i < |vs| && vs[i].id == id
    {
      var i :| 0 <= i < |ids| && ids[i] == id;
      assert vs[i].id == id;
    }
    forall i, j | 0 <= i < j < |vs|
      ensures vs[i].id > vs[j].id
    {
      assert vs[i].id == ids[i] && vs[j].id == ids[j];
    }
  }

  /**
   * A listed brand's `categories` holds one name per link of that brand, in
   * link creation order, each the name of the linked category.
   */
  lemma CategoryNamesFollowLinks(brands: map<nat, Brand>, categories: map<nat, Category>,
                                 links: map<nat, BrandCategory>, products: map<nat, Product>, n: nat, i: nat)
    requires LinksReferenceCategories(links, categories)
    requires i < |Get(brands, categories, links, products, n)|
    ensures var v := Get(brands, categories, links, products, n)[i];
      exists ls: seq<nat> ::
        && Ascending(ls)
        && (forall l :: l in ls <==> l in links && links[l].brandId == v.id && l < n)
        && |v.categories| == |ls|
        && (forall j :: 0 <= j < |ls| ==> v.categories[j] == categories[links[ls[j]].categoryId].name)
  {
    var ids := KeysDown(brands, n);
    assert Get(brands, categories, links, products, n)[i] == FormatBrand(ids[i], brands, categories, links, products, n);
    FormatBrandNames(ids[i], brands, categories, links, products, n);
  }

  /**
   * A listed brand's `products` summarises exactly the products of that
   * brand, one each, in creation order.
   */
  lemma ProductsFollowBrand(brands: map<nat, Brand>, categories: map<nat, Category>,
                            links: map<nat, BrandCategory>, products: map<nat, Product>, n: nat, i: nat)
    requires LinksReferenceCategories(links, categories)
    requires i < |Get(brands, categories, links, products, n)|
    ensures var v := Get(brands, categories, links, products, n)[i];
      exists ps: seq<nat> ::
        && Ascending(ps)
        && (forall p :: p in ps <==> p in products && products[p].brandId == Some(v.id) && p < n)
        && |v.products| == |ps|
        && (forall j :: 0 <= j < |ps| ==> Summarizes(v.products[j], ps[j], products[ps[j]]))
  {
    var ids := KeysDown(brands, n);
    assert Get(brands, categories, links, products, n)[i] == FormatBrand(ids[i], brands, categories, links, products, n);
    FormatBrandProducts(ids[i], brands, categories, links, products, n);
  }

  lemma FormatBrandNames(id: nat, brands: map<nat, Brand>, categories: map<nat, Category>,
                        links: map<nat, BrandCategory>, products: map<nat, Product>, n: nat)
    requires id in brands
    requires LinksReferenceCategories(links, categories)
    ensures var v := FormatBrand(id, brands, categories, links, products, n);
      exists ls: seq<nat> ::
        && Ascending(ls)
        && (forall l :: l in ls <==> l in links && links[l].brandId == id && l < n)
        && |v.categories| == |ls|
        && (forall j :: 0 <= j < |ls| ==> v.categories[j] == categories[links[ls[j]].categoryId].name)
  {
    var ls := LinkIdsOf(links, id, n);
    LinkIdsComplete(links, id, n);
    LinkIdsAscending(links, id, n);
    assert FormatBrand(id, brands, categories, links, products, n).categories == CategoryNames(ls, links, categories);
  }

  lemma FormatBrandProducts(id: nat, brands: map<nat, Brand>, categories: map<nat, Category>,
                           links: map<nat, BrandCategory>, products: map<nat, Product>, n: nat)
    requires id in brands
    requires LinksReferenceCategories(links, categories)
    ensures var v := FormatBrand(id, brands, categories, links, products, n);
      exists ps: seq<nat> ::
        && Ascending(ps)
        && (forall p :: p in ps <==> p in products && products[p].brandId == Some(id) && p < n)
        && |v.products| == |ps|
        && (forall j :: 0 <= j < |ps| ==> Summarizes(v.products[j], ps[j], products[ps[j]]))
  {
    var ps := ProductIdsOf(products, id, n);
    ProductIdsComplete(products, id, n);
    ProductIdsAscending(products, id, n);
    assert FormatBrand(id, brands, categories, links, products, n).products == Summaries(ps, products);
  }
}
