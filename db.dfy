/**
 * The relational store behind the API routes, reduced to the tables and
 * columns the modelled handlers read or write. Catalog tables are maps from
 * row id to row; the cart-item, order and order-item tables are sequences in
 * insertion order. Row ids come from one counter, so an order's id also
 * orders orders by creation time.
 */
module Db {
  import opened Wrappers

  type UserId = string

  /** `session?.user?.id` is truthy: a session with a non-empty user id. */
  predicate SignedIn(session: Option<UserId>) {
    session.Some? && session.value != ""
  }

  datatype OrderStatus = Pending | Processing | Shipping | Delivered | Cancelled | Success

  datatype ShippingInfo = ShippingInfo(
    fullName: string, phone: string, email: string,
    address: string, city: string, district: string, ward: string)

  datatype Order = Order(
    id: nat, userId: UserId, status: OrderStatus, total: int,
    shippingMethod: string, paymentMethod: string, shipping: ShippingInfo,
    createdAt: nat)

  /** A line of an order, with the price captured when the order was placed. */
  datatype OrderItem = OrderItem(id: nat, orderId: nat, productId: nat, quantity: int, price: int)

  /** The server mirror of a user's cart; `userId` is unique in the table. */
  datatype Cart = Cart(id: nat, userId: UserId)

  datatype CartItemRow = CartItemRow(cartId: nat, productId: nat, quantity: int)

  datatype Product = Product(
    name: string, slug: string, image: string, description: string,
    technicalSpecifications: Option<string>, stock: int, status: string, price: int,
    categoryId: Option<nat>, brandId: Option<nat>)

  datatype Brand = Brand(name: string, slug: string, description: Option<string>, image: Option<string>)

  datatype Category = Category(name: string, slug: string, description: Option<string>, image: Option<string>)

  /** A brand-category link row; `slug` is optional. */
  datatype BrandCategory = BrandCategory(
    name: string, description: string, slug: Option<string>, brandId: nat, categoryId: nat)

  predicate ProductSlugsUnique(products: map<nat, Product>) {
    forall a, b :: a in products && b in products && a != b ==> products[a].slug != products[b].slug
  }

  predicate BrandSlugsUnique(brands: map<nat, Brand>) {
    forall a, b :: a in brands && b in brands && a != b ==> brands[a].slug != brands[b].slug
  }

  predicate CategorySlugsUnique(categories: map<nat, Category>) {
    forall a, b :: a in categories && b in categories && a != b ==> categories[a].slug != categories[b].slug
  }

  /** Orders are stored oldest first: ids and creation times strictly increase. */
  predicate OrdersAscending(orders: seq<Order>) {
    forall i, j :: 0 <= i < j < |orders| ==> orders[i].id < orders[j].id && orders[i].createdAt < orders[j].createdAt
  }

  /** The order table: ascending, with ids and creation times already handed out. */
  predicate OrdersValid(orders: seq<Order>, nextId: nat) {
    && OrdersAscending(orders)
    && (forall i :: 0 <= i < |orders| ==> orders[i].id < nextId && orders[i].createdAt < nextId)
  }

  /** The order-item table: existing products, ids and order ids already handed out. */
  predicate OrderItemsValid(rows: seq<OrderItem>, products: map<nat, Product>, nextId: nat) {
    forall i :: 0 <= i < |rows| ==>
      rows[i].productId in products && rows[i].id < nextId && rows[i].orderId < nextId
  }

  class Database {
    var products: map<nat, Product>
    var brands: map<nat, Brand>
    var categories: map<nat, Category>
    var brandCategories: map<nat, BrandCategory>
    var carts: map<UserId, Cart>
    var cartItems: seq<CartItemRow>
    var orders: seq<Order>
    var orderItems: seq<OrderItem>
    /** The next row id to hand out. */
    var nextId: nat

    /** The integrity the schema and the handlers keep. */
    ghost predicate Valid()
      reads this
    {
      && (forall id :: id in products ==> id < nextId)
      && (forall id :: id in brands ==> id < nextId)
      && (forall id :: id in categories ==> id < nextId)
      && (forall id :: id in brandCategories ==> id < nextId)
      && ProductSlugsUnique(products)
      && BrandSlugsUnique(brands)
      && CategorySlugsUnique(categories)
      && (forall id :: id in brandCategories ==>
            brandCategories[id].brandId in brands && brandCategories[id].categoryId in categories)
      && (forall u :: u in carts ==> carts[u].userId == u && carts[u].id < nextId)
      && (forall u, v :: u in carts && v in carts && u != v ==> carts[u].id != carts[v].id)
      && (forall i :: 0 <= i < |cartItems| ==> cartItems[i].productId in products)
      && OrdersValid(orders, nextId)
      && OrderItemsValid(orderItems, products, nextId)
    }

    constructor ()
      ensures Valid()
      ensures products == map[] && brands == map[] && categories == map[] && brandCategories == map[]
      ensures carts == map[] && cartItems == [] && orders == [] && orderItems == [] && nextId == 0
    {
      products, brands, categories, brandCategories := map[], map[], map[], map[];
      carts, cartItems, orders, orderItems := map[], [], [], [];
      nextId := 0;
    }
  }
}
