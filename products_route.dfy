/**
 * `GET /api/products` and `POST /api/products`.
 *
 * POST runs three checks in a fixed order (required fields, slug taken,
 * then the insert itself, which fails on a dangling brand or category id)
 * and only then adds one product row.
 */
module ProductsRoute {
  import opened Wrappers
  import opened Db
  import opened Fields

  /**
   * The JSON body. `None` is a missing field; numbers arrive as integers
   * (prices in VND), ids as row ids.
   */
  datatype ProductRequest = ProductRequest(
    name: Option<string>, slug: Option<string>, image: Option<string>, description: Option<string>,
    technicalSpecifications: Option<string>, stock: Option<int>, status: Option<string>,
    price: Option<int>, categoryId: Option<nat>, brandId: Option<nat>)

  /** `name && slug && image && description && stock && status && price`. */
  predicate RequiredPresent(req: ProductRequest) {
    Given(req.name) && Given(req.slug) && Given(req.image) && Given(req.description)
    && GivenNumber(req.stock) && Given(req.status) && GivenNumber(req.price)
  }

  predicate SlugTaken(products: map<nat, Product>, slug: string) {
    exists id :: id in products && products[id].slug == slug
  }

  /** The optional brand and category ids name existing rows. */
  predicate ReferencesExist(req: ProductRequest, brands: map<nat, Brand>, categories: map<nat, Category>) {
    (req.brandId.None? || req.brandId.value in brands)
    && (req.categoryId.None? || req.categoryId.value in categories)
  }

  datatype Rejection = MissingFields | DuplicateSlug | InsertFailed {
    function Status(): int {
      match this
      case MissingFields => 400
      case DuplicateSlug => 400
      case InsertFailed => 500
    }
  }

  /** The first check that fails, in the handler's order, or `None` when the product is created. */
  function Guard(req: ProductRequest, products: map<nat, Product>, brands: map<nat, Brand>,
                 categories: map<nat, Category>): (r: Option<Rejection>)
    ensures r.None? ==>
      RequiredPresent(req) && !SlugTaken(products, req.slug.value) && ReferencesExist(req, brands, categories)
    ensures r == Some(DuplicateSlug) ==> RequiredPresent(req) && SlugTaken(products, req.slug.value)
  {
    if !RequiredPresent(req) then Some(MissingFields)
    else if SlugTaken(products, req.slug.value) then Some(DuplicateSlug)
    else if !ReferencesExist(req, brands, categories) then Some(InsertFailed)
    else None
  }

  /** The row `product.create` writes. */
  function NewProduct(req: ProductRequest): Product
    requires RequiredPresent(req)
  {
    Product(req.name.value, req.slug.value, req.image.value, req.description.value,
      req.technicalSpecifications, req.stock.value, req.status.value, req.price.value,
      req.categoryId, req.brandId)
  }

  datatype PostResult = Created(id: nat) | Rejected(reason: Rejection) {
    function Status(): int {
      match this
      case Created(_) => 200
      case Rejected(reason) => reason.Status()
    }
  }

  method Post(db: Database, req: ProductRequest) returns (r: PostResult)
    requires db.Valid()
    modifies db`products, db`nextId
    ensures db.Valid()
    ensures var g := Guard(req, old(db.products), db.brands, db.categories);
      && (g.Some? ==> r == Rejected(g.value) && db.products == old(db.products) && db.nextId == old(db.nextId))
      && (g.None? ==>
            && r == Created(old(db.nextId))
            && db.products == old(db.products)[old(db.nextId) := NewProduct(req)]
            && db.nextId == old(db.nextId) + 1)
  {
    if !RequiredPresent(req) {
      return Rejected(MissingFields);
    }
    if SlugTaken(db.products, req.slug.value) {
      return Rejected(DuplicateSlug);
    }
    if !ReferencesExist(req, db.brands, db.categories) {
      // the insert violates a foreign key and the handler answers 500
      return Rejected(InsertFailed);
    }
    var id := db.nextId;
    db.products := db.products[id := NewProduct(req)];
    db.nextId := db.nextId + 1;
    r := Created(id);
  }

  /** A missing or zero field is reported before a duplicate slug. */
  lemma MissingFieldsFirst(req: ProductRequest, products: map<nat, Product>, brands: map<nat, Brand>,
                           categories: map<nat, Category>)
    ensures Guard(req, products, brands, categories) == Some(MissingFields) <==> !RequiredPresent(req)
  {
  }

  /** A numeric stock or price of 0 is treated as missing. */
  lemma ZeroStockOrPriceRejected(req: ProductRequest, products: map<nat, Product>, brands: map<nat, Brand>,
                                 categories: map<nat, Category>)
    requires req.stock == Some(0) || req.price == Some(0)
    ensures Guard(req, products, brands, categories) == Some(MissingFields)
  {
  }

  /** A request passes exactly when its fields are present, its slug is new and its references exist. */
  lemma CreatedExactly(req: ProductRequest, products: map<nat, Product>, brands: map<nat, Brand>,
                       categories: map<nat, Category>)
    ensures Guard(req, products, brands, categories).None? <==>
      RequiredPresent(req) && !SlugTaken(products, req.slug.value) && ReferencesExist(req, brands, categories)
  {
  }

  /** Adding a product whose slug is not taken keeps product slugs unique. */
  lemma AddKeepsSlugsUnique(products: map<nat, Product>, id: nat, p: Product)
    requires ProductSlugsUnique(products)
    requires id !in products && !SlugTaken(products, p.slug)
    ensures ProductSlugsUnique(products[id := p])
  {
    var after := products[id := p];
    forall a, b | a in after && b in after && a != b
      ensures after[a].slug != after[b].slug
    {
      if a == id {
        assert b in products;
      } else if b == id {
        assert a in products;
      }
    }
  }

  // ---------------------------------------------------------------- GET

  /** A product as `findMany` returns it, with its category and brand when it has them. */
  datatype ProductRecord = ProductRecord(product: Product, category: Option<Category>, brand: Option<Brand>)

  datatype GetResult = NoProducts | Products(records: map<nat, ProductRecord>) {
    function Status(): int {
      match this
      case NoProducts => 404
      case Products(_) => 200
    }
  }

  function Lookup<T>(m: map<nat, T>, id: Option<nat>): Option<T> {
    if id.Some? && id.value in m then Some(m[id.value]) else None
  }

  /** The answer of `GET /api/products`: 404 for an empty table, otherwise every product with its relations. */
  function Get(products: map<nat, Product>, brands: map<nat, Brand>, categories: map<nat, Category>): (r: GetResult)
    ensures r.NoProducts? <==> products == map[]
    ensures r.Products? ==>
      && r.records.Keys == products.Keys
      && forall id :: id in products ==>
           && r.records[id].product == products[id]
           && (products[id].brandId.Some? && products[id].brandId.value in brands ==>
                 r.records[id].brand == Some(brands[products[id].brandId.value]))
           && (products[id].categoryId.Some? && products[id].categoryId.value in categories ==>
                 r.records[id].category == Some(categories[products[id].categoryId.value]))
  {
    if products == map[] then NoProducts
    else
      Products(map id | id in products ::
        ProductRecord(products[id], Lookup(categories, products[id].categoryId), Lookup(brands, products[id].brandId)))
  }
}
