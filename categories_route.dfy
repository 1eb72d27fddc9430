/**
 * `GET /api/categories` and `POST /api/categories`.
 *
 * GET lists every category with the names of the brands it is linked to and
 * a summary of its products. POST requires a name and a slug, refuses a slug
 * already used by a category, and adds one category.
 */
module CategoriesRoute {
  import opened Wrappers
  import opened Db
  import opened Fields
  import opened Listing

  // ---------------------------------------------------------------- POST

  datatype CategoryRequest = CategoryRequest(
    name: Option<string>, description: Option<string>, image: Option<string>, slug: Option<string>)

  predicate SlugTaken(categories: map<nat, Category>, slug: string) {
    exists id :: id in categories && categories[id].slug == slug
  }

  datatype PostResult = Created(id: nat, category: Category) | MissingFields | DuplicateSlug {
    function Status(): int {
      match this
      case Created(_, _) => 200
      case MissingFields => 400
      case DuplicateSlug => 400
    }
  }

  /** The row `category.create` writes; description and image may be absent. */
  function NewCategory(req: CategoryRequest): Category
    requires Given(req.name) && Given(req.slug)
  {
    Category(req.name.value, req.slug.value, req.description, req.image)
  }

  method Post(db: Database, req: CategoryRequest) returns (r: PostResult)
    requires db.Valid()
    modifies db`categories, db`nextId
    ensures db.Valid()
    ensures !Given(req.name) || !Given(req.slug) ==>
      r == MissingFields && db.categories == old(db.categories) && db.nextId == old(db.nextId)
    ensures Given(req.name) && Given(req.slug) && SlugTaken(old(db.categories), req.slug.value) ==>
      r == DuplicateSlug && db.categories == old(db.categories) && db.nextId == old(db.nextId)
    ensures Given(req.name) && Given(req.slug) && !SlugTaken(old(db.categories), req.slug.value) ==>
      && r == Created(old(db.nextId), NewCategory(req))
      && db.categories == old(db.categories)[old(db.nextId) := NewCategory(req)]
      && db.nextId == old(db.nextId) + 1
  {
    if !Given(req.name) || !Given(req.slug) {
      return MissingFields;
    }
    if SlugTaken(db.categories, req.slug.value) {
      return DuplicateSlug;
    }
    var category := NewCategory(req);
    var id := db.nextId;
    db.categories := db.categories[id := category];
    db.nextId := db.nextId + 1;
    r := Created(id, category);
  }

  /** Adding a category whose slug is not taken keeps category slugs unique. */
  lemma AddKeepsSlugsUnique(categories: map<nat, Category>, id: nat, c: Category)
    requires CategorySlugsUnique(categories)
    requires id !in categories && !SlugTaken(categories, c.slug)
    ensures CategorySlugsUnique(categories[id := c])
  {
    var after := categories[id := c];
    forall x, y | x in after && y in after && x != y
      ensures after[x].slug != after[y].slug
    {
      if x == id {
        assert y in categories;
      } else if y == id {
        assert x in categories;
      }
    }
  }

  // ---------------------------------------------------------------- GET

  datatype ProductSummary = ProductSummary(
    id: nat, name: string, price: int, image: string, description: string, slug: string)

  datatype CategoryView = CategoryView(
    id: nat, name: string, slug: string, image: Option<string>, description: Option<string>,
    brands: seq<string>, products: seq<ProductSummary>)

  /** Ids below `n` of the links of category `categoryId`, ascending. */
  function LinkIdsOf(links: map<nat, BrandCategory>, categoryId: nat, n: nat): (ls: seq<nat>)
    ensures forall i :: 0 <= i < |ls| ==> ls[i] in links
  {
    if n == 0 then []
    else LinkIdsOf(links, categoryId, n - 1) + (if n - 1 in links && links[n - 1].categoryId == categoryId then [n - 1] else [])
  }

  /** Ids below `n` of the products of category `categoryId`, ascending. */
  function ProductIdsOf(products: map<nat, Product>, categoryId: nat, n: nat): (ps: seq<nat>)
    ensures forall i :: 0 <= i < |ps| ==> ps[i] in products
  {
    if n == 0 then []
    else ProductIdsOf(products, categoryId, n - 1) + (if n - 1 in products && products[n - 1].categoryId == Some(categoryId) then [n - 1] else [])
  }

  /** Exactly the category's links are listed, in ascending id order. */
  lemma {:induction false} LinkIdsComplete(links: map<nat, BrandCategory>, categoryId: nat, n: nat)
    ensures forall l :: l in LinkIdsOf(links, categoryId, n) <==> l in links && links[l].categoryId == categoryId && l < n
    decreases n
  {
    if n > 0 {
      LinkIdsComplete(links, categoryId, n - 1);
      var init := LinkIdsOf(links, categoryId, n - 1);
      var ls := LinkIdsOf(links, categoryId, n);
      forall l | l in links && links[l].categoryId == categoryId && l < n
        ensures l in ls
      {
        if l < n - 1 {
          var i :| 0 <= i < |init| && init[i] == l;
          assert ls[i] == l;
        } else {
          assert ls[|ls| - 1] == l;
        }
      }
    }
  }

  lemma {:induction false} LinkIdsAscending(links: map<nat, BrandCategory>, categoryId: nat, n: nat)
    ensures Ascending(LinkIdsOf(links, categoryId, n))
    decreases n
  {
    if n > 0 {
      LinkIdsAscending(links, categoryId, n - 1);
      LinkIdsComplete(links, categoryId, n - 1);
      var init := LinkIdsOf(links, categoryId, n - 1);
      if n - 1 in links && links[n - 1].categoryId == categoryId {
        forall i | 0 <= i < |init| ensures init[i] < n - 1 {
          assert init[i] in init;
        }
        AscendingSnoc(init, n - 1);
      } else {
        assert LinkIdsOf(links, categoryId, n) == init;
      }
    }
  }

  /** Exactly the category's products are listed. */
  lemma {:induction false} ProductIdsComplete(products: map<nat, Product>, categoryId: nat, n: nat)
    ensures forall p :: p in ProductIdsOf(products, categoryId, n) <==> p in products && products[p].categoryId == Some(categoryId) && p < n
    decreases n
  {
    if n > 0 {
      ProductIdsComplete(products, categoryId, n - 1);
      var init := ProductIdsOf(products, categoryId, n - 1);
      var ps := ProductIdsOf(products, categoryId, n);
      forall p | p in products && products[p].categoryId == Some(categoryId) && p < n
        ensures p in ps
      {
        if p < n - 1 {
          var i :| 0 <= i < |init| && init[i] == p;
          assert ps[i] == p;
        } else {
          assert ps[|ps| - 1] == p;
        }
      }
    }
  }

  lemma {:induction false} ProductIdsAscending(products: map<nat, Product>, categoryId: nat, n: nat)
    ensures Ascending(ProductIdsOf(products, categoryId, n))
    decreases n
  {
    if n > 0 {
      ProductIdsAscending(products, categoryId, n - 1);
      ProductIdsComplete(products, categoryId, n - 1);
      var init := ProductIdsOf(products, categoryId, n - 1);
      if n - 1 in products && products[n - 1].categoryId == Some(categoryId) {
        forall i | 0 <= i < |init| ensures init[i] < n - 1 {
          assert init[i] in init;
        }
        AscendingSnoc(init, n - 1);
      } else {
        assert ProductIdsOf(products, categoryId, n) == init;
      }
    }
  }

  predicate LinksReferenceBrands(links: map<nat, BrandCategory>, brands: map<nat, Brand>) {
    forall l :: l in links ==> links[l].brandId in brands
  }

  /** `category.brands.map(b => b.brand.name)` over the given link ids. */
  function BrandNames(ls: seq<nat>, links: map<nat, BrandCategory>, brands: map<nat, Brand>): (names: seq<string>)
    requires forall i :: 0 <= i < |ls| ==> ls[i] in links
    requires LinksReferenceBrands(links, brands)
    ensures |names| == |ls|
    ensures forall i :: 0 <= i < |ls| ==> names[i] == brands[links[ls[i]].brandId].name
  {
    if ls == [] then [] else [brands[links[ls[0]].brandId].name] + BrandNames(ls[1..], links, brands)
  }

  /** The summary carries the product's id, name, price, image, description and slug. */
  predicate Summarizes(s: ProductSummary, id: nat, p: Product) {
    s.id == id && s.name == p.name && s.price == p.price
    && s.image == p.image && s.description == p.description && s.slug == p.slug
  }

  function Summaries(ps: seq<nat>, products: map<nat, Product>): (r: seq<ProductSummary>)
    requires forall i :: 0 <= i < |ps| ==> ps[i] in products
    ensures |r| == |ps|
    ensures forall i :: 0 <= i < |ps| ==> Summarizes(r[i], ps[i], products[ps[i]])
  {
    if ps == [] then []
    else
      var p := products[ps[0]];
      [ProductSummary(ps[0], p.name, p.price, p.image, p.description, p.slug)] + Summaries(ps[1..], products)
  }

  /** One entry of the answer; relations are listed in creation order. */
  function FormatCategory(id: nat, categories: map<nat, Category>, brands: map<nat, Brand>,
                          links: map<nat, BrandCategory>, products: map<nat, Product>, n: nat): (v: CategoryView)
    requires id in categories
    requires LinksReferenceBrands(links, brands)
    ensures v.id == id && v.name == categories[id].name && v.slug == categories[id].slug
    ensures v.image == categories[id].image && v.description == categories[id].description
  {
    var c := categories[id];
    CategoryView(id, c.name, c.slug, c.image, c.description,
      BrandNames(LinkIdsOf(links, id, n), links, brands),
      Summaries(ProductIdsOf(products, id, n), products))
  }

  function FormatAll(ids: seq<nat>, categories: map<nat, Category>, brands: map<nat, Brand>,
                     links: map<nat, BrandCategory>, products: map<nat, Product>, n: nat): (vs: seq<CategoryView>)
    requires forall i :: 0 <= i < |ids| ==> ids[i] in categories
    requires LinksReferenceBrands(links, brands)
    ensures |vs| == |ids| && forall i :: 0 <= i < |ids| ==> vs[i].id == ids[i]
  {
    seq(|ids|, i requires 0 <= i < |ids| => FormatCategory(ids[i], categories, brands, links, products, n))
  }

  /**
   * The answer of `GET /api/categories` over tables whose ids are all below
   * `n`. The query has no `orderBy`; the model lists categories in creation order.
   */
  function Get(categories: map<nat, Category>, brands: map<nat, Brand>,
               links: map<nat, BrandCategory>, products: map<nat, Product>, n: nat): seq<CategoryView>
    requires LinksReferenceBrands(links, brands)
  {
    FormatAll(KeysUp(categories, n), categories, brands, links, products, n)
  }

  /** Every category is listed exactly once. */
  lemma ListsEveryCategory(categories: map<nat, Category>, brands: map<nat, Brand>,
                           links: map<nat, BrandCategory>, products: map<nat, Product>, n: nat)
    requires LinksReferenceBrands(links, brands)
    requires forall id :: id in categories ==> id < n
    ensures var vs := Get(categories, brands, links, products, n);
      && (forall id :: id in categories <==> exists i :: 0 <= i < |vs| && vs[i].id == id)
      && (forall i, j :: 0 <= i < j < |vs| ==> vs[i].id != vs[j].id)
  {
    var ids := KeysUp(categories, n);
    var vs := Get(categories, brands, links, products, n);
    KeysUpComplete(categories, n);
    forall id | id in categories
      ensures exists i :: 0 <= i < |vs| && vs[i].id == id
    {
      var i :| 0 <= i < |ids| && ids[i] == id;
      assert vs[i].id == id;
    }
    forall i, j | 0 <= i < j < |vs|
      ensures vs[i].id != vs[j].id
    {
      assert vs[i].id == ids[i] && vs[j].id == ids[j];
    }
  }

  /**
   * A listed category's `brands` holds one name per link of that category,
   * in link creation order, each the name of the linked brand.
   */
  lemma BrandNamesFollowLinks(categories: map<nat, Category>, brands: map<nat, Brand>,
                              links: map<nat, BrandCategory>, products: map<nat, Product>, n: nat, i: nat)
    requires LinksReferenceBrands(links, brands)
    requires i < |Get(categories, brands, links, products, n)|
    ensures var v := Get(categories, brands, links, products, n)[i];
      exists ls: seq<nat> ::
        && Ascending(ls)
        && (forall l :: l in ls <==> l in links && links[l].categoryId == v.id && l < n)
        && |v.brands| == |ls|
        && (forall j :: 0 <= j < |ls| ==> v.brands[j] == brands[links[ls[j]].brandId].name)
  {
    var ids := KeysUp(categories, n);
    assert Get(categories, brands, links, products, n)[i] == FormatCategory(ids[i], categories, brands, links, products, n);
    FormatCategoryNames(ids[i], categories, brands, links, products, n);
  }

  /**
   * A listed category's `products` summarises exactly the products of that
   * category, one each, in creation order.
   */
  lemma ProductsFollowCategory(categories: map<nat, Category>, brands: map<nat, Brand>,
                               links: map<nat, BrandCategory>, products: map<nat, Product>, n: nat, i: nat)
    requires LinksReferenceBrands(links, brands)
    requires i < |Get(categories, brands, links, products, n)|
    ensures var v := Get(categories, brands, links, products, n)[i];
      exists ps: seq<nat> ::
        && Ascending(ps)
        && (forall p :: p in ps <==> p in products && products[p].categoryId == Some(v.id) && p < n)
        && |v.products| == |ps|
        && (forall j :: 0 <= j < |ps| ==> Summarizes(v.products[j], ps[j], products[ps[j]]))
  {
    var ids := KeysUp(categories, n);
    assert Get(categories, brands, links, products, n)[i] == FormatCategory(ids[i], categories, brands, links, products, n);
    FormatCategoryProducts(ids[i], categories, brands, links, products, n);
  }

  lemma FormatCategoryNames(id: nat, categories: map<nat, Category>, brands: map<nat, Brand>,
                           links: map<nat, BrandCategory>, products: map<nat, Product>, n: nat)
    requires id in categories
    requires LinksReferenceBrands(links, brands)
    ensures var v := FormatCategory(id, categories, brands, links, products, n);
      exists ls: seq<nat> ::
        && Ascending(ls)
        && (forall l :: l in ls <==> l in links && links[l].categoryId == id && l < n)
        && |v.brands| == |ls|
        && (forall j :: 0 <= j < |ls| ==> v.brands[j] == brands[links[ls[j]].brandId].name)
  {
    var ls := LinkIdsOf(links, id, n);
    LinkIdsComplete(links, id, n);
    LinkIdsAscending(links, id, n);
    assert FormatCategory(id, categories, brands, links, products, n).brands == BrandNames(ls, links, brands);
  }

  lemma FormatCategoryProducts(id: nat, categories: map<nat, Category>, brands: map<nat, Brand>,
                              links: map<nat, BrandCategory>, products: map<nat, Product>, n: nat)
    requires id in categories
    requires LinksReferenceBrands(links, brands)
    ensures var v := FormatCategory(id, categories, brands, links, products, n);
      exists ps: seq<nat> ::
        && Ascending(ps)
        && (forall p :: p in ps <==> p in products && products[p].categoryId == Some(id) && p < n)
        && |v.products| == |ps|
        && (forall j :: 0 <= j < |ps| ==> Summarizes(v.products[j], ps[j], products[ps[j]]))
  {
    var ps := ProductIdsOf(products, id, n);
    ProductIdsComplete(products, id, n);
    ProductIdsAscending(products, id, n);
    assert FormatCategory(id, categories, brands, links, products, n).products == Summaries(ps, products);
  }
}
