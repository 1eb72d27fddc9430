/**
 * `POST /api/orders` and `GET /api/orders`.
 *
 * POST stores one PENDING order with the client's total and one order item
 * per request item, then deletes the caller's cart with its item rows. GET fetches the caller's
 * orders newest first, deletes every fetched CANCELLED or SUCCESS order
 * (items first, one order at a time, an error skipping to the next), and
 * answers with the fetched orders that are neither CANCELLED nor DELIVERED.
 */
module OrdersRoute {
  import opened Wrappers
  import opened Db
  import CartRoute

  // ---------------------------------------------------------------- POST

  /** A request line; `id` is the product id, `price` the client's price. */
  datatype LineItem = LineItem(id: nat, quantity: int, price: int)

  datatype OrderRequest = OrderRequest(
    shippingInfo: ShippingInfo, items: seq<LineItem>,
    shippingMethod: string, paymentMethod: string, total: int)

  datatype PostResult = Placed(orderId: nat) | Unauthorized | ServerError {
    function Status(): int {
      match this
      case Placed(_) => 200
      case Unauthorized => 401
      case ServerError => 500
    }
  }

  /** The order row `order.create` writes, with id and creation time `id`. */
  function NewOrder(id: nat, user: UserId, req: OrderRequest): Order {
    Order(id, user, Pending, req.total, req.shippingMethod, req.paymentMethod, req.shippingInfo, id)
  }

  /** The nested `items.create` rows: one per request line, in order, with ids after the order's. */
  function NewItems(orderId: nat, items: seq<LineItem>): (rows: seq<OrderItem>)
    ensures |rows| == |items|
  {
    seq(|items|, i requires 0 <= i < |items| =>
      OrderItem(orderId + 1 + i, orderId, items[i].id, items[i].quantity, items[i].price))
  }

  /** Every line names an existing product, so the nested insert satisfies its foreign key. */
  predicate LinesReferenceProducts(items: seq<LineItem>, products: map<nat, Product>) {
    forall i :: 0 <= i < |items| ==> items[i].id in products
  }

  /** The amount the lines add up to; the handler never compares it with `total`. */
  function Subtotal(items: seq<LineItem>): int {
    if items == [] then 0 else Subtotal(items[..|items| - 1]) + items[|items| - 1].price * items[|items| - 1].quantity
  }

  /** The stored order carries PENDING and the client's `total`, whatever the lines add up to. */
  lemma NewOrderKeepsClientTotal(id: nat, user: UserId, req: OrderRequest)
    ensures NewOrder(id, user, req).status == Pending
    ensures NewOrder(id, user, req).total == req.total
    ensures NewOrder(id, user, req).userId == user
    ensures forall items :: NewOrder(id, user, req.(items := items)) == NewOrder(id, user, req)
  {
  }

  /** Two lines worth 250000 with a claimed total of 1 are stored at 1. */
  lemma TamperedTotalIsStored(info: ShippingInfo)
    ensures var req := OrderRequest(info, [LineItem(1, 2, 100000), LineItem(2, 1, 50000)], "standard", "cod", 1);
      Subtotal(req.items) == 250000 && NewOrder(7, "u", req).total == 1
  {
    var items := [LineItem(1, 2, 100000), LineItem(2, 1, 50000)];
    assert items[..1] == [LineItem(1, 2, 100000)];
    assert [LineItem(1, 2, 100000)][..0] == [];
  }

  /** One row per line, in order, copying product id, quantity and price; ids are fresh and distinct. */
  lemma NewItemsCopyLines(orderId: nat, items: seq<LineItem>)
    ensures var rows := NewItems(orderId, items);
      forall i :: 0 <= i < |items| ==>
        && rows[i].orderId == orderId
        && rows[i].productId == items[i].id
        && rows[i].quantity == items[i].quantity
        && rows[i].price == items[i].price
        && orderId < rows[i].id <= orderId + |items|
        && (forall j :: 0 <= j < |items| && j != i ==> rows[i].id != rows[j].id)
  {
  }

  /** Appending the new order and its items keeps both tables valid under the advanced counter. */
  lemma PlacedTablesValid(orders: seq<Order>, rows: seq<OrderItem>, products: map<nat, Product>,
                          nextId: nat, user: UserId, req: OrderRequest)
    requires OrdersValid(orders, nextId) && OrderItemsValid(rows, products, nextId)
    requires LinesReferenceProducts(req.items, products)
    ensures OrdersValid(orders + [NewOrder(nextId, user, req)], nextId + 1 + |req.items|)
    ensures OrderItemsValid(rows + NewItems(nextId, req.items), products, nextId + 1 + |req.items|)
  {
    var all := rows + NewItems(nextId, req.items);
    forall i | 0 <= i < |all|
      ensures all[i].productId in products && all[i].id < nextId + 1 + |req.items| && all[i].orderId < nextId + 1 + |req.items|
    {
      if i >= |rows| {
        assert all[i] == NewItems(nextId, req.items)[i - |rows|];
      }
    }
  }

  method Post(db: Database, session: Option<UserId>, req: OrderRequest) returns (r: PostResult)
    requires db.Valid()
    modifies db`orders, db`orderItems, db`carts, db`cartItems, db`nextId
    ensures db.Valid()
    ensures !SignedIn(session) || !LinesReferenceProducts(req.items, db.products) ==>
      && r == (if SignedIn(session) then ServerError else Unauthorized)
      && db.orders == old(db.orders) && db.orderItems == old(db.orderItems)
      && db.carts == old(db.carts) && db.cartItems == old(db.cartItems) && db.nextId == old(db.nextId)
    ensures SignedIn(session) && LinesReferenceProducts(req.items, db.products) ==>
      var id := old(db.nextId);
      var user := session.value;
      && db.orders == old(db.orders) + [NewOrder(id, user, req)]
      && db.orderItems == old(db.orderItems) + NewItems(id, req.items)
      && db.nextId == id + 1 + |req.items|
      && db.carts == old(db.carts) - {user}
      && db.cartItems == (if user in old(db.carts) then CartRoute.RowsExcept(old(db.cartItems), old(db.carts)[user].id)
                          else old(db.cartItems))
      && r == (if user in old(db.carts) then Placed(id) else ServerError)
  {
    if !SignedIn(session) {
      return Unauthorized;
    }
    var user := session.value;
    if !LinesReferenceProducts(req.items, db.products) {
      // the nested create violates a foreign key and writes nothing
      return ServerError;
    }
    var order := NewOrder(db.nextId, user, req);
    PlacedTablesValid(db.orders, db.orderItems, db.products, db.nextId, user, req);
    db.orders := db.orders + [order];
    db.orderItems := db.orderItems + NewItems(order.id, req.items);
    db.nextId := db.nextId + 1 + |req.items|;
    if user in db.carts {
      // the cart's item rows go with it (a cascading relation)
      db.cartItems := CartRoute.RowsExcept(db.cartItems, db.carts[user].id);
      db.carts := db.carts - {user};
      r := Placed(order.id);
    } else {
      // `cart.delete` on a missing row throws: the order stays, the answer is 500
      r := ServerError;
    }
  }

  // ---------------------------------------------------------------- GET: fetching

  datatype FetchedItem = FetchedItem(row: OrderItem, product: Product)

  /** An order as `findMany` returns it, with its items and each item's current product. */
  datatype FetchedOrder = FetchedOrder(order: Order, items: seq<FetchedItem>)

  /** The orders of `user`, in table (oldest first) order. */
  function OrdersOf(orders: seq<Order>, user: UserId): (r: seq<Order>)
    ensures |r| <= |orders|
  {
    if orders == [] then []
    else (if orders[0].userId == user then [orders[0]] else []) + OrdersOf(orders[1..], user)
  }

  function Reverse(orders: seq<Order>): (r: seq<Order>)
    ensures |r| == |orders|
    ensures forall i :: 0 <= i < |orders| ==> r[i] == orders[|orders| - 1 - i]
  {
    if orders == [] then [] else [orders[|orders| - 1]] + Reverse(orders[..|orders| - 1])
  }

  /** The item rows of order `orderId`, in table order. */
  function ItemsOf(rows: seq<OrderItem>, orderId: nat): (r: seq<OrderItem>)
    ensures |r| <= |rows|
  {
    if rows == [] then []
    else (if rows[0].orderId == orderId then [rows[0]] else []) + ItemsOf(rows[1..], orderId)
  }

  lemma {:induction false} ItemsOfMembers(rows: seq<OrderItem>, orderId: nat)
    ensures forall x :: x in ItemsOf(rows, orderId) <==> x in rows && x.orderId == orderId
    decreases |rows|
  {
    if rows != [] {
      ItemsOfMembers(rows[1..], orderId);
      assert rows == [rows[0]] + rows[1..];
    }
  }

  predicate ItemsReferenceProducts(rows: seq<OrderItem>, products: map<nat, Product>) {
    forall i :: 0 <= i < |rows| ==> rows[i].productId in products
  }

  function Join(rows: seq<OrderItem>, products: map<nat, Product>): (r: seq<FetchedItem>)
    requires forall x :: x in rows ==> x.productId in products
    ensures |r| == |rows|
    ensures forall i :: 0 <= i < |rows| ==> r[i] == FetchedItem(rows[i], products[rows[i].productId])
  {
    if rows == [] then [] else [FetchedItem(rows[0], products[rows[0].productId])] + Join(rows[1..], products)
  }

  /** One fetched order: the order with its item rows, each joined with its product. */
  function FetchOne(o: Order, rows: seq<OrderItem>, products: map<nat, Product>): (f: FetchedOrder)
    requires ItemsReferenceProducts(rows, products)
    ensures f.order == o
  {
    ItemsOfMembers(rows, o.id);
    FetchedOrder(o, Join(ItemsOf(rows, o.id), products))
  }

  /** `findMany({ where: { userId }, include: items and products, orderBy: { createdAt: 'desc' } })`. */
  function Fetch(orders: seq<Order>, rows: seq<OrderItem>, products: map<nat, Product>, user: UserId): (r: seq<FetchedOrder>)
    requires ItemsReferenceProducts(rows, products)
  {
    FetchEach(Reverse(OrdersOf(orders, user)), rows, products)
  }

  function FetchEach(os: seq<Order>, rows: seq<OrderItem>, products: map<nat, Product>): (r: seq<FetchedOrder>)
    requires ItemsReferenceProducts(rows, products)
    ensures |r| == |os|
    ensures forall i :: 0 <= i < |os| ==> r[i].order == os[i]
  {
    if os == [] then [] else [FetchOne(os[0], rows, products)] + FetchEach(os[1..], rows, products)
  }

  // ---------------------------------------------------------------- GET: filters and formatting

  /** The statuses the handler deletes. */
  predicate IsPruned(s: OrderStatus) { s == Cancelled || s == Success }

  /** The statuses the handler answers with. */
  predicate IsShown(s: OrderStatus) { s != Cancelled && s != Delivered }

  /** `ordersToDelete`. */
  function ToDelete(fetched: seq<FetchedOrder>): (r: seq<FetchedOrder>)
    ensures |r| <= |fetched|
  {
    if fetched == [] then []
    else (if IsPruned(fetched[0].order.status) then [fetched[0]] else []) + ToDelete(fetched[1..])
  }

  /** `activeOrders`, in the fetched order. */
  function Active(fetched: seq<FetchedOrder>): (r: seq<FetchedOrder>)
    ensures |r| <= |fetched|
  {
    if fetched == [] then []
    else (if IsShown(fetched[0].order.status) then [fetched[0]] else []) + Active(fetched[1..])
  }

  lemma {:induction false} OrdersOfMembers(orders: seq<Order>, user: UserId)
    ensures forall o :: o in OrdersOf(orders, user) <==> o in orders && o.userId == user
    decreases |orders|
  {
    if orders != [] {
      OrdersOfMembers(orders[1..], user);
      assert orders == [orders[0]] + orders[1..];
    }
  }

  lemma {:induction false} ToDeleteMembers(fetched: seq<FetchedOrder>)
    ensures forall f :: f in ToDelete(fetched) <==> f in fetched && IsPruned(f.order.status)
    decreases |fetched|
  {
    if fetched != [] {
      ToDeleteMembers(fetched[1..]);
      assert fetched == [fetched[0]] + fetched[1..];
    }
  }

  lemma {:induction false} ActiveMembers(fetched: seq<FetchedOrder>)
    ensures forall f :: f in Active(fetched) <==> f in fetched && IsShown(f.order.status)
    decreases |fetched|
  {
    if fetched != [] {
      ActiveMembers(fetched[1..]);
      assert fetched == [fetched[0]] + fetched[1..];
    }
  }

  /** A response item: name and price come from the product, not from the order item. */
  datatype ItemView = ItemView(id: nat, name: string, price: int, quantity: int, image: string)

  datatype OrderView = OrderView(
    id: nat, createdAt: nat, status: OrderStatus, total: int, items: seq<ItemView>,
    shipping: ShippingInfo, shippingMethod: string, paymentMethod: string)

  function FormatItem(f: FetchedItem): ItemView {
    ItemView(f.row.id, f.product.name, f.product.price, f.row.quantity, f.product.image)
  }

  /** `v` shows order `o`: its id, creation time, status, stored total and shipping details. */
  predicate Describes(v: OrderView, o: Order) {
    && v.id == o.id && v.createdAt == o.createdAt && v.status == o.status && v.total == o.total
    && v.shipping == o.shipping && v.shippingMethod == o.shippingMethod && v.paymentMethod == o.paymentMethod
  }

  function FormatItems(items: seq<FetchedItem>): seq<ItemView>
  {
    seq(|items|, i requires 0 <= i < |items| => FormatItem(items[i]))
  }

  function FormatOrder(f: FetchedOrder): (v: OrderView)
    ensures Describes(v, f.order)
    ensures |v.items| == |f.items|
  {
    var o := f.order;
    OrderView(o.id, o.createdAt, o.status, o.total, FormatItems(f.items),
      o.shipping, o.shippingMethod, o.paymentMethod)
  }

  function FormatAll(fs: seq<FetchedOrder>): (vs: seq<OrderView>)
    ensures |vs| == |fs|
    ensures forall i :: 0 <= i < |fs| ==> vs[i] == FormatOrder(fs[i])
  {
    if fs == [] then [] else [FormatOrder(fs[0])] + FormatAll(fs[1..])
  }

  datatype GetResult = Listed(orders: seq<OrderView>) | GetUnauthorized {
    function Status(): int {
      match this
      case Listed(_) => 200
      case GetUnauthorized => 401
    }
  }

  // ---------------------------------------------------------------- GET: deletion

  /** How the two deletes of one order went: both succeed, `deleteMany` throws, or `order.delete` throws. */
  datatype DeleteFault = NoFault | ItemsDeleteFails | OrderDeleteFails

  function FaultOf(faults: map<nat, DeleteFault>, id: nat): DeleteFault {
    if id in faults then faults[id] else NoFault
  }

  /** Ids of the orders in `ds` whose order row the loop deletes. */
  function DroppedIds(ds: seq<FetchedOrder>, faults: map<nat, DeleteFault>): set<nat>
  {
    if ds == [] then {}
    else
      var last := ds[|ds| - 1].order.id;
      DroppedIds(ds[..|ds| - 1], faults) + (if FaultOf(faults, last) == NoFault then {last} else {})
  }

  /** Ids of the orders in `ds` whose item rows the loop deletes. */
  function ClearedIds(ds: seq<FetchedOrder>, faults: map<nat, DeleteFault>): set<nat>
  {
    if ds == [] then {}
    else
      var last := ds[|ds| - 1].order.id;
      ClearedIds(ds[..|ds| - 1], faults) + (if FaultOf(faults, last) != ItemsDeleteFails then {last} else {})
  }

  lemma DroppedStep(ds: seq<FetchedOrder>, i: nat, faults: map<nat, DeleteFault>)
    requires i < |ds|
    ensures DroppedIds(ds[..i + 1], faults) ==
      DroppedIds(ds[..i], faults) + (if FaultOf(faults, ds[i].order.id) == NoFault then {ds[i].order.id} else {})
    ensures ClearedIds(ds[..i + 1], faults) ==
      ClearedIds(ds[..i], faults) + (if FaultOf(faults, ds[i].order.id) != ItemsDeleteFails then {ds[i].order.id} else {})
  {
    assert ds[..i + 1][..i] == ds[..i];
  }

  /** The order table without the orders whose id is in `ids`. */
  function WithoutOrders(orders: seq<Order>, ids: set<nat>): (r: seq<Order>)
    ensures |r| <= |orders|
  {
    if orders == [] then []
    else (if orders[0].id in ids then [] else [orders[0]]) + WithoutOrders(orders[1..], ids)
  }

  /** The order-item table without the rows of the orders in `ids`. */
  function WithoutItemsOf(rows: seq<OrderItem>, ids: set<nat>): (r: seq<OrderItem>)
    ensures |r| <= |rows|
  {
    if rows == [] then []
    else (if rows[0].orderId in ids then [] else [rows[0]]) + WithoutItemsOf(rows[1..], ids)
  }

  lemma {:induction false} WithoutOrdersMembers(orders: seq<Order>, ids: set<nat>)
    ensures forall o :: o in WithoutOrders(orders, ids) <==> o in orders && o.id !in ids
    decreases |orders|
  {
    if orders != [] {
      WithoutOrdersMembers(orders[1..], ids);
      assert orders == [orders[0]] + orders[1..];
    }
  }

  lemma {:induction false} WithoutItemsMembers(rows: seq<OrderItem>, ids: set<nat>)
    ensures forall x :: x in WithoutItemsOf(rows, ids) <==> x in rows && x.orderId !in ids
    decreases |rows|
  {
    if rows != [] {
      WithoutItemsMembers(rows[1..], ids);
      assert rows == [rows[0]] + rows[1..];
    }
  }

  lemma {:induction false} WithoutOrdersTwice(orders: seq<Order>, a: set<nat>, b: set<nat>)
    ensures WithoutOrders(WithoutOrders(orders, a), b) == WithoutOrders(orders, a + b)
    decreases |orders|
  {
    if orders != [] {
      WithoutOrdersTwice(orders[1..], a, b);
      var rest := WithoutOrders(orders[1..], a);
      var o := orders[0];
      var tail := WithoutOrders(orders[1..], a + b);
      if o.id in a {
        assert WithoutOrders(orders, a) == [] + rest == rest;
        assert WithoutOrders(orders, a + b) == [] + tail == tail;
      } else {
        var once := [o] + rest;
        assert WithoutOrders(orders, a) == once;
        assert once != [] && once[0] == o && once[1..] == rest;
        assert WithoutOrders(once, b) == (if o.id in b then [] else [o]) + WithoutOrders(rest, b);
        assert WithoutOrders(orders, a + b) == (if o.id in b then [] else [o]) + tail;
      }
    }
  }

  lemma {:induction false} WithoutNoOrders(orders: seq<Order>)
    ensures WithoutOrders(orders, {}) == orders
    decreases |orders|
  {
    if orders != [] {
      WithoutNoOrders(orders[1..]);
      assert orders == [orders[0]] + orders[1..];
    }
  }

  lemma {:induction false} WithoutItemsTwice(rows: seq<OrderItem>, a: set<nat>, b: set<nat>)
    ensures WithoutItemsOf(WithoutItemsOf(rows, a), b) == WithoutItemsOf(rows, a + b)
    decreases |rows|
  {
    if rows != [] {
      WithoutItemsTwice(rows[1..], a, b);
      var rest := WithoutItemsOf(rows[1..], a);
      var x := rows[0];
      var tail := WithoutItemsOf(rows[1..], a + b);
      if x.orderId in a {
        assert WithoutItemsOf(rows, a) == [] + rest == rest;
        assert WithoutItemsOf(rows, a + b) == [] + tail == tail;
      } else {
        var once := [x] + rest;
        assert WithoutItemsOf(rows, a) == once;
        assert once != [] && once[0] == x && once[1..] == rest;
        assert WithoutItemsOf(once, b) == (if x.orderId in b then [] else [x]) + WithoutItemsOf(rest, b);
        assert WithoutItemsOf(rows, a + b) == (if x.orderId in b then [] else [x]) + tail;
      }
    }
  }

  lemma {:induction false} WithoutNoItems(rows: seq<OrderItem>)
    ensures WithoutItemsOf(rows, {}) == rows
    decreases |rows|
  {
    if rows != [] {
      WithoutNoItems(rows[1..]);
      assert rows == [rows[0]] + rows[1..];
    }
  }

  lemma {:induction false} WithoutOrdersAscending(orders: seq<Order>, ids: set<nat>)
    requires OrdersAscending(orders)
    ensures OrdersAscending(WithoutOrders(orders, ids))
    decreases |orders|
  {
    if orders != [] {
      WithoutOrdersAscending(orders[1..], ids);
      WithoutOrdersMembers(orders[1..], ids);
      var rest := WithoutOrders(orders[1..], ids);
      if orders[0].id !in ids {
        var r := [orders[0]] + rest;
        forall i, j | 0 <= i < j < |r|
          ensures r[i].id < r[j].id && r[i].createdAt < r[j].createdAt
        {
          if i == 0 {
            assert r[j] in orders[1..];
          } else {
            assert r[i] == rest[i - 1] && r[j] == rest[j - 1];
          }
        }
      }
    }
  }

  /** Deleting orders and item rows keeps both tables valid. */
  lemma PruneKeepsTablesValid(orders: seq<Order>, rows: seq<OrderItem>, products: map<nat, Product>,
                              nextId: nat, dropped: set<nat>, cleared: set<nat>)
    requires OrdersValid(orders, nextId) && OrderItemsValid(rows, products, nextId)
    ensures OrdersValid(WithoutOrders(orders, dropped), nextId)
    ensures OrderItemsValid(WithoutItemsOf(rows, cleared), products, nextId)
  {
    WithoutOrdersAscending(orders, dropped);
    WithoutOrdersMembers(orders, dropped);
    WithoutItemsMembers(rows, cleared);
    var os := WithoutOrders(orders, dropped);
    forall i | 0 <= i < |os|
      ensures os[i].id < nextId && os[i].createdAt < nextId
    {
      assert os[i] in orders;
    }
    var rs := WithoutItemsOf(rows, cleared);
    forall i | 0 <= i < |rs|
      ensures rs[i].productId in products && rs[i].id < nextId && rs[i].orderId < nextId
    {
      assert rs[i] in rows;
    }
  }

  // ---------------------------------------------------------------- handler

  /** The deletion loop of the handler: for each order, its item rows, then the order row. */
  method DeleteEach(db: Database, ordersToDelete: seq<FetchedOrder>, faults: map<nat, DeleteFault>)
    modifies db`orders, db`orderItems
    ensures db.orders == WithoutOrders(old(db.orders), DroppedIds(ordersToDelete, faults))
    ensures db.orderItems == WithoutItemsOf(old(db.orderItems), ClearedIds(ordersToDelete, faults))
  {
    WithoutNoOrders(db.orders);
    WithoutNoItems(db.orderItems);
    var i := 0;
    while i < |ordersToDelete|
      invariant 0 <= i <= |ordersToDelete|
      invariant db.orders == WithoutOrders(old(db.orders), DroppedIds(ordersToDelete[..i], faults))
      invariant db.orderItems == WithoutItemsOf(old(db.orderItems), ClearedIds(ordersToDelete[..i], faults))
    {
      var id := ordersToDelete[i].order.id;
      var fault := FaultOf(faults, id);
      ghost var dropped := DroppedIds(ordersToDelete[..i], faults);
      ghost var cleared := ClearedIds(ordersToDelete[..i], faults);
      DroppedStep(ordersToDelete, i, faults);
      // a throwing delete is logged and the loop moves on to the next order
      if fault != ItemsDeleteFails {
        WithoutItemsTwice(old(db.orderItems), cleared, {id});
        db.orderItems := WithoutItemsOf(db.orderItems, {id});
        if fault != OrderDeleteFails {
          WithoutOrdersTwice(old(db.orders), dropped, {id});
          db.orders := WithoutOrders(db.orders, {id});
          assert DroppedIds(ordersToDelete[..i + 1], faults) == dropped + {id};
        } else {
          assert DroppedIds(ordersToDelete[..i + 1], faults) == dropped;
        }
        assert ClearedIds(ordersToDelete[..i + 1], faults) == cleared + {id};
      } else {
        assert DroppedIds(ordersToDelete[..i + 1], faults) == dropped;
        assert ClearedIds(ordersToDelete[..i + 1], faults) == cleared;
      }
      i := i + 1;
    }
    assert ordersToDelete[..i] == ordersToDelete;
  }

  method Get(db: Database, session: Option<UserId>, faults: map<nat, DeleteFault>) returns (r: GetResult)
    requires db.Valid()
    modifies db`orders, db`orderItems
    ensures db.Valid()
    ensures !SignedIn(session) ==>
      r == GetUnauthorized && db.orders == old(db.orders) && db.orderItems == old(db.orderItems)
    ensures SignedIn(session) ==>
      var fetched := Fetch(old(db.orders), old(db.orderItems), db.products, session.value);
      && r == Listed(FormatAll(Active(fetched)))
      && db.orders == WithoutOrders(old(db.orders), DroppedIds(ToDelete(fetched), faults))
      && db.orderItems == WithoutItemsOf(old(db.orderItems), ClearedIds(ToDelete(fetched), faults))
  {
    if !SignedIn(session) {
      return GetUnauthorized;
    }
    var user := session.value;
    var orders := Fetch(db.orders, db.orderItems, db.products, user);
    var ordersToDelete := ToDelete(orders);
    DeleteEach(db, ordersToDelete, faults);
    PruneKeepsTablesValid(old(db.orders), old(db.orderItems), db.products, db.nextId,
      DroppedIds(ordersToDelete, faults), ClearedIds(ordersToDelete, faults));
    var activeOrders := Active(orders);
    r := Listed(FormatAll(activeOrders));
  }
  // ---------------------------------------------------------------- properties

  lemma {:induction false} OrdersOfConcat(a: seq<Order>, b: seq<Order>, user: UserId)
    ensures OrdersOf(a + b, user) == OrdersOf(a, user) + OrdersOf(b, user)
    decreases |a|
  {
    if a == [] {
      assert a + b == b;
    } else {
      var ab := a + b;
      assert ab[0] == a[0] && ab[1..] == a[1..] + b;
      OrdersOfConcat(a[1..], b, user);
      var head := if a[0].userId == user then [a[0]] else [];
      assert OrdersOf(ab, user) == head + (OrdersOf(a[1..], user) + OrdersOf(b, user));
      assert OrdersOf(a, user) == head + OrdersOf(a[1..], user);
    }
  }

  lemma {:induction false} ItemsOfConcat(a: seq<OrderItem>, b: seq<OrderItem>, orderId: nat)
    ensures ItemsOf(a + b, orderId) == ItemsOf(a, orderId) + ItemsOf(b, orderId)
    decreases |a|
  {
    if a == [] {
      assert a + b == b;
    } else {
      var ab := a + b;
      assert ab[0] == a[0] && ab[1..] == a[1..] + b;
      ItemsOfConcat(a[1..], b, orderId);
      var head := if a[0].orderId == orderId then [a[0]] else [];
      assert ItemsOf(ab, orderId) == head + (ItemsOf(a[1..], orderId) + ItemsOf(b, orderId));
      assert ItemsOf(a, orderId) == head + ItemsOf(a[1..], orderId);
    }
  }

  lemma {:induction false} ItemsOfNone(rows: seq<OrderItem>, orderId: nat)
    requires forall x :: x in rows ==> x.orderId != orderId
    ensures ItemsOf(rows, orderId) == []
    decreases |rows|
  {
    if rows != [] {
      ItemsOfNone(rows[1..], orderId);
    }
  }

  lemma {:induction false} ItemsOfAll(rows: seq<OrderItem>, orderId: nat)
    requires forall x :: x in rows ==> x.orderId == orderId
    ensures ItemsOf(rows, orderId) == rows
    decreases |rows|
  {
    if rows != [] {
      ItemsOfAll(rows[1..], orderId);
      assert rows == [rows[0]] + rows[1..];
    }
  }

  lemma {:induction false} OrdersOfAscending(orders: seq<Order>, user: UserId)
    requires OrdersAscending(orders)
    ensures OrdersAscending(OrdersOf(orders, user))
    decreases |orders|
  {
    if orders != [] {
      OrdersOfAscending(orders[1..], user);
      OrdersOfMembers(orders[1..], user);
      var rest := OrdersOf(orders[1..], user);
      if orders[0].userId == user {
        forall j | 0 <= j < |rest|
          ensures orders[0].id < rest[j].id && orders[0].createdAt < rest[j].createdAt
        {
          assert rest[j] in orders[1..];
          var k :| 0 <= k < |orders[1..]| && orders[1..][k] == rest[j];
          assert orders[k + 1] == rest[j];
        }
        PrependAscending(orders[0], rest);
      }
    }
  }

  lemma PrependAscending(x: Order, rest: seq<Order>)
    requires OrdersAscending(rest)
    requires forall j :: 0 <= j < |rest| ==> x.id < rest[j].id && x.createdAt < rest[j].createdAt
    ensures OrdersAscending([x] + rest)
  {
    var r := [x] + rest;
    forall i, j | 0 <= i < j < |r|
      ensures r[i].id < r[j].id && r[i].createdAt < r[j].createdAt
    {
      assert r[j] == rest[j - 1];
      if i > 0 {
        assert r[i] == rest[i - 1];
      }
    }
  }

  /** Ids in `DroppedIds` are exactly those of the listed orders whose deletes both succeed. */
  lemma {:induction false} DroppedIdsMembers(ds: seq<FetchedOrder>, faults: map<nat, DeleteFault>)
    ensures forall id :: id in DroppedIds(ds, faults) <==>
      exists k :: 0 <= k < |ds| && ds[k].order.id == id && FaultOf(faults, id) == NoFault
    decreases |ds|
  {
    if ds != [] {
      var init := ds[..|ds| - 1];
      DroppedIdsMembers(init, faults);
      forall id | id in DroppedIds(init, faults)
        ensures exists k :: 0 <= k < |ds| && ds[k].order.id == id && FaultOf(faults, id) == NoFault
      {
        var k :| 0 <= k < |init| && init[k].order.id == id && FaultOf(faults, id) == NoFault;
        assert ds[k] == init[k];
      }
      forall id | exists k :: 0 <= k < |ds| && ds[k].order.id == id && FaultOf(faults, id) == NoFault
        ensures id in DroppedIds(ds, faults)
      {
        var k :| 0 <= k < |ds| && ds[k].order.id == id && FaultOf(faults, id) == NoFault;
        if k < |ds| - 1 {
          assert init[k] == ds[k];
        }
      }
    }
  }

  /** Ids in `ClearedIds` are exactly those of the listed orders whose item delete succeeds. */
  lemma {:induction false} ClearedIdsMembers(ds: seq<FetchedOrder>, faults: map<nat, DeleteFault>)
    ensures forall id :: id in ClearedIds(ds, faults) <==>
      exists k :: 0 <= k < |ds| && ds[k].order.id == id && FaultOf(faults, id) != ItemsDeleteFails
    decreases |ds|
  {
    if ds != [] {
      var init := ds[..|ds| - 1];
      ClearedIdsMembers(init, faults);
      forall id | id in ClearedIds(init, faults)
        ensures exists k :: 0 <= k < |ds| && ds[k].order.id == id && FaultOf(faults, id) != ItemsDeleteFails
      {
        var k :| 0 <= k < |init| && init[k].order.id == id && FaultOf(faults, id) != ItemsDeleteFails;
        assert ds[k] == init[k];
      }
      forall id | exists k :: 0 <= k < |ds| && ds[k].order.id == id && FaultOf(faults, id) != ItemsDeleteFails
        ensures id in ClearedIds(ds, faults)
      {
        var k :| 0 <= k < |ds| && ds[k].order.id == id && FaultOf(faults, id) != ItemsDeleteFails;
        if k < |ds| - 1 {
          assert init[k] == ds[k];
        }
      }
    }
  }

  /** No order row is deleted while its item rows stay: the items go first. */
  lemma DroppedAreCleared(ds: seq<FetchedOrder>, faults: map<nat, DeleteFault>)
    ensures DroppedIds(ds, faults) <= ClearedIds(ds, faults)
  {
    DroppedIdsMembers(ds, faults);
    ClearedIdsMembers(ds, faults);
  }

  /** The fetched orders are exactly the caller's orders. */
  lemma FetchedAreMine(orders: seq<Order>, rows: seq<OrderItem>, products: map<nat, Product>, user: UserId)
    requires ItemsReferenceProducts(rows, products)
    ensures var f := Fetch(orders, rows, products, user);
      forall o :: o in orders && o.userId == user <==> exists i :: 0 <= i < |f| && f[i].order == o
  {
    var mine := OrdersOf(orders, user);
    var rev := Reverse(mine);
    var f := FetchEach(rev, rows, products);
    assert f == Fetch(orders, rows, products, user);
    OrdersOfMembers(orders, user);
    forall o | o in orders && o.userId == user
      ensures exists i :: 0 <= i < |f| && f[i].order == o
    {
      var k :| 0 <= k < |mine| && mine[k] == o;
      assert f[|mine| - 1 - k].order == o;
    }
    forall i | 0 <= i < |f|
      ensures f[i].order in orders && f[i].order.userId == user
    {
      assert f[i].order == mine[|mine| - 1 - i];
    }
  }

  /** The fetched orders come newest first. */
  lemma FetchedNewestFirst(orders: seq<Order>, rows: seq<OrderItem>, products: map<nat, Product>, user: UserId)
    requires ItemsReferenceProducts(rows, products)
    requires OrdersAscending(orders)
    ensures NewestFirst(Fetch(orders, rows, products, user))
  {
    var mine := OrdersOf(orders, user);
    var f := FetchEach(Reverse(mine), rows, products);
    OrdersOfAscending(orders, user);
    forall i, j | 0 <= i < j < |f|
      ensures f[i].order.createdAt > f[j].order.createdAt
    {
      assert f[i].order == mine[|mine| - 1 - i] && f[j].order == mine[|mine| - 1 - j];
    }
  }

  /** An id is dropped exactly when a fetched order with it is CANCELLED or SUCCESS and both deletes succeed. */
  lemma DroppedOfFetched(f: seq<FetchedOrder>, faults: map<nat, DeleteFault>)
    ensures forall id :: id in DroppedIds(ToDelete(f), faults) <==>
      FaultOf(faults, id) == NoFault && exists i :: 0 <= i < |f| && f[i].order.id == id && IsPruned(f[i].order.status)
  {
    var ds := ToDelete(f);
    ToDeleteMembers(f);
    DroppedIdsMembers(ds, faults);
    forall id | id in DroppedIds(ds, faults)
      ensures exists i :: 0 <= i < |f| && f[i].order.id == id && IsPruned(f[i].order.status)
    {
      var k :| 0 <= k < |ds| && ds[k].order.id == id && FaultOf(faults, id) == NoFault;
      assert ds[k] in f;
    }
    forall id | FaultOf(faults, id) == NoFault && exists i :: 0 <= i < |f| && f[i].order.id == id && IsPruned(f[i].order.status)
      ensures id in DroppedIds(ds, faults)
    {
      var i :| 0 <= i < |f| && f[i].order.id == id && IsPruned(f[i].order.status);
      assert f[i] in ds;
    }
  }

  /** An id is cleared exactly when a fetched order with it is CANCELLED or SUCCESS and its item delete succeeds. */
  lemma ClearedOfFetched(f: seq<FetchedOrder>, faults: map<nat, DeleteFault>)
    ensures forall id :: id in ClearedIds(ToDelete(f), faults) <==>
      FaultOf(faults, id) != ItemsDeleteFails && exists i :: 0 <= i < |f| && f[i].order.id == id && IsPruned(f[i].order.status)
  {
    var ds := ToDelete(f);
    ToDeleteMembers(f);
    ClearedIdsMembers(ds, faults);
    forall id | id in ClearedIds(ds, faults)
      ensures exists i :: 0 <= i < |f| && f[i].order.id == id && IsPruned(f[i].order.status)
    {
      var k :| 0 <= k < |ds| && ds[k].order.id == id && FaultOf(faults, id) != ItemsDeleteFails;
      assert ds[k] in f;
    }
    forall id | FaultOf(faults, id) != ItemsDeleteFails && exists i :: 0 <= i < |f| && f[i].order.id == id && IsPruned(f[i].order.status)
      ensures id in ClearedIds(ds, faults)
    {
      var i :| 0 <= i < |f| && f[i].order.id == id && IsPruned(f[i].order.status);
      assert f[i] in ds;
    }
  }

  /** A fetched order's id belongs to a CANCELLED or SUCCESS order of the caller exactly when that order is. */
  lemma PrunedIdOfMine(orders: seq<Order>, rows: seq<OrderItem>, products: map<nat, Product>, user: UserId, o: Order)
    requires ItemsReferenceProducts(rows, products)
    requires OrdersAscending(orders)
    requires o in orders
    ensures var f := Fetch(orders, rows, products, user);
      (exists i :: 0 <= i < |f| && f[i].order.id == o.id && IsPruned(f[i].order.status))
        <==> o.userId == user && IsPruned(o.status)
  {
    var f := Fetch(orders, rows, products, user);
    FetchedAreMine(orders, rows, products, user);
    if exists i :: 0 <= i < |f| && f[i].order.id == o.id && IsPruned(f[i].order.status) {
      var i :| 0 <= i < |f| && f[i].order.id == o.id && IsPruned(f[i].order.status);
      UniqueIds(orders, f[i].order, o);
    }
    if o.userId == user && IsPruned(o.status) {
      var i :| 0 <= i < |f| && f[i].order == o;
      assert f[i].order.id == o.id;
    }
  }

  /**
   * After GET, an order of the table is gone exactly when it is the caller's,
   * CANCELLED or SUCCESS, and both of its deletes succeeded.
   */
  lemma PrunedOrders(orders: seq<Order>, rows: seq<OrderItem>, products: map<nat, Product>,
                     user: UserId, faults: map<nat, DeleteFault>)
    requires ItemsReferenceProducts(rows, products)
    requires OrdersAscending(orders)
    ensures var after := WithoutOrders(orders, DroppedIds(ToDelete(Fetch(orders, rows, products, user)), faults));
      forall o :: o in orders ==>
        (o !in after <==> o.userId == user && IsPruned(o.status) && FaultOf(faults, o.id) == NoFault)
  {
    var f := Fetch(orders, rows, products, user);
    DroppedOfFetched(f, faults);
    WithoutOrdersMembers(orders, DroppedIds(ToDelete(f), faults));
    forall o | o in orders
      ensures o.id in DroppedIds(ToDelete(f), faults) <==>
        o.userId == user && IsPruned(o.status) && FaultOf(faults, o.id) == NoFault
    {
      PrunedIdOfMine(orders, rows, products, user, o);
    }
  }

  /**
   * After GET, an item row is gone exactly when its order is the caller's,
   * CANCELLED or SUCCESS, and the item delete succeeded.
   */
  lemma PrunedItems(orders: seq<Order>, rows: seq<OrderItem>, products: map<nat, Product>,
                    user: UserId, faults: map<nat, DeleteFault>)
    requires ItemsReferenceProducts(rows, products)
    requires OrdersAscending(orders)
    ensures var after := WithoutItemsOf(rows, ClearedIds(ToDelete(Fetch(orders, rows, products, user)), faults));
      forall x :: x in rows ==>
        (x !in after <==> exists o :: o in orders && o.id == x.orderId && o.userId == user
                                      && IsPruned(o.status) && FaultOf(faults, o.id) != ItemsDeleteFails)
  {
    var f := Fetch(orders, rows, products, user);
    WithoutItemsMembers(rows, ClearedIds(ToDelete(f), faults));
    forall x | x in rows
      ensures x.orderId in ClearedIds(ToDelete(f), faults) <==>
        exists o :: o in orders && o.id == x.orderId && o.userId == user
                    && IsPruned(o.status) && FaultOf(faults, o.id) != ItemsDeleteFails
    {
      ClearedIdOfMine(orders, rows, products, user, faults, x.orderId);
    }
  }

  lemma ClearedIdOfMine(orders: seq<Order>, rows: seq<OrderItem>, products: map<nat, Product>,
                        user: UserId, faults: map<nat, DeleteFault>, id: nat)
    requires ItemsReferenceProducts(rows, products)
    requires OrdersAscending(orders)
    ensures var f := Fetch(orders, rows, products, user);
      id in ClearedIds(ToDelete(f), faults) <==>
        exists o :: o in orders && o.id == id && o.userId == user
                    && IsPruned(o.status) && FaultOf(faults, o.id) != ItemsDeleteFails
  {
    var f := Fetch(orders, rows, products, user);
    ClearedOfFetched(f, faults);
    if id in ClearedIds(ToDelete(f), faults) {
      ClearedIsMine(orders, rows, products, user, faults, id);
    }
    if exists o :: o in orders && o.id == id && o.userId == user
                   && IsPruned(o.status) && FaultOf(faults, o.id) != ItemsDeleteFails {
      var o :| o in orders && o.id == id && o.userId == user
               && IsPruned(o.status) && FaultOf(faults, o.id) != ItemsDeleteFails;
      PrunedIdOfMine(orders, rows, products, user, o);
    }
  }

  lemma ClearedIsMine(orders: seq<Order>, rows: seq<OrderItem>, products: map<nat, Product>,
                      user: UserId, faults: map<nat, DeleteFault>, id: nat)
    requires ItemsReferenceProducts(rows, products)
    requires id in ClearedIds(ToDelete(Fetch(orders, rows, products, user)), faults)
    ensures exists o :: o in orders && o.id == id && o.userId == user
                        && IsPruned(o.status) && FaultOf(faults, o.id) != ItemsDeleteFails
  {
    var f := Fetch(orders, rows, products, user);
    ClearedOfFetched(f, faults);
    var i :| 0 <= i < |f| && f[i].order.id == id && IsPruned(f[i].order.status);
    FetchedIsMine(orders, rows, products, user, i);
    var o := f[i].order;
    assert o in orders && o.id == id && o.userId == user && IsPruned(o.status) && FaultOf(faults, o.id) != ItemsDeleteFails;
  }

  lemma UniqueIds(orders: seq<Order>, a: Order, b: Order)
    requires OrdersAscending(orders)
    requires a in orders && b in orders && a.id == b.id
    ensures a == b
  {
    var i :| 0 <= i < |orders| && orders[i] == a;
    var j :| 0 <= j < |orders| && orders[j] == b;
    assert !(i < j) && !(j < i);
  }

  /** Strictly decreasing creation times. */
  predicate NewestFirst(fs: seq<FetchedOrder>) {
    forall i, j :: 0 <= i < j < |fs| ==> fs[i].order.createdAt > fs[j].order.createdAt
  }

  lemma {:induction false} ActiveKeepsOrder(f: seq<FetchedOrder>)
    requires NewestFirst(f)
    ensures NewestFirst(Active(f))
    decreases |f|
  {
    if f != [] {
      var tail := f[1..];
      ActiveKeepsOrder(tail);
      ActiveMembers(tail);
      var rest := Active(tail);
      if IsShown(f[0].order.status) {
        forall j | 0 <= j < |rest|
          ensures f[0].order.createdAt > rest[j].order.createdAt
        {
          assert rest[j] in tail;
          var k :| 0 <= k < |tail| && tail[k] == rest[j];
          assert f[k + 1] == rest[j];
        }
        PrependNewestFirst(f[0], rest);
        assert Active(f) == [f[0]] + rest;
      } else {
        assert Active(f) == [] + rest == rest;
      }
    }
  }

  lemma PrependNewestFirst(x: FetchedOrder, rest: seq<FetchedOrder>)
    requires NewestFirst(rest)
    requires forall j :: 0 <= j < |rest| ==> x.order.createdAt > rest[j].order.createdAt
    ensures NewestFirst([x] + rest)
  {
    var a := [x] + rest;
    forall i, j | 0 <= i < j < |a|
      ensures a[i].order.createdAt > a[j].order.createdAt
    {
      assert a[j] == rest[j - 1];
      if i > 0 {
        assert a[i] == rest[i - 1];
      }
    }
  }

  /** A fetched order that is shown appears in the answer. */
  lemma ShownIsListed(f: seq<FetchedOrder>, k: nat)
    requires k < |f| && IsShown(f[k].order.status)
    ensures exists i :: 0 <= i < |Active(f)| && Describes(FormatAll(Active(f))[i], f[k].order)
  {
    var a := Active(f);
    ActiveMembers(f);
    assert f[k] in a;
    var i :| 0 <= i < |a| && a[i] == f[k];
    var vs := FormatAll(a);
    assert vs[i] == FormatOrder(a[i]);
    assert Describes(vs[i], f[k].order);
  }

  /** Every answer entry shows a fetched order that is shown. */
  lemma ListedIsShown(f: seq<FetchedOrder>, i: nat)
    requires i < |Active(f)|
    ensures exists k :: 0 <= k < |f| && IsShown(f[k].order.status) && Describes(FormatAll(Active(f))[i], f[k].order)
  {
    var a := Active(f);
    ActiveMembers(f);
    assert a[i] in f;
    var k :| 0 <= k < |f| && f[k] == a[i];
    assert Describes(FormatAll(a)[i], f[k].order);
  }

  lemma FormattedNewestFirst(f: seq<FetchedOrder>)
    requires NewestFirst(f)
    ensures var vs := FormatAll(Active(f)); forall i, j :: 0 <= i < j < |vs| ==> vs[i].createdAt > vs[j].createdAt
  {
    var a := Active(f);
    var vs := FormatAll(a);
    ActiveKeepsOrder(f);
    forall i, j | 0 <= i < j < |vs|
      ensures vs[i].createdAt > vs[j].createdAt
    {
      assert Describes(vs[i], a[i].order) && Describes(vs[j], a[j].order);
    }
  }

  /** A fetched order is one of the caller's orders. */
  lemma FetchedIsMine(orders: seq<Order>, rows: seq<OrderItem>, products: map<nat, Product>, user: UserId, i: nat)
    requires ItemsReferenceProducts(rows, products)
    requires i < |Fetch(orders, rows, products, user)|
    ensures var o := Fetch(orders, rows, products, user)[i].order; o in orders && o.userId == user
  {
    var mine := OrdersOf(orders, user);
    OrdersOfMembers(orders, user);
    var rev := Reverse(mine);
    assert Fetch(orders, rows, products, user)[i].order == rev[i];
    assert rev[i] == mine[|mine| - 1 - i];
    assert rev[i] in mine;
  }

  /** Each of the caller's orders is fetched. */
  lemma MineIsFetched(orders: seq<Order>, rows: seq<OrderItem>, products: map<nat, Product>, user: UserId, o: Order)
    requires ItemsReferenceProducts(rows, products)
    requires o in orders && o.userId == user
    ensures var f := Fetch(orders, rows, products, user); exists i :: 0 <= i < |f| && f[i].order == o
  {
    var mine := OrdersOf(orders, user);
    OrdersOfMembers(orders, user);
    var k :| 0 <= k < |mine| && mine[k] == o;
    assert Fetch(orders, rows, products, user)[|mine| - 1 - k].order == o;
  }

  /** Every answer entry shows one of the caller's orders that is neither CANCELLED nor DELIVERED. */
  lemma ListedAreShown(orders: seq<Order>, rows: seq<OrderItem>, products: map<nat, Product>, user: UserId)
    requires ItemsReferenceProducts(rows, products)
    ensures var vs := FormatAll(Active(Fetch(orders, rows, products, user)));
      forall i :: 0 <= i < |vs| ==>
        exists o :: o in orders && o.userId == user && IsShown(o.status) && Describes(vs[i], o)
  {
    var f := Fetch(orders, rows, products, user);
    var vs := FormatAll(Active(f));
    forall i | 0 <= i < |vs|
      ensures exists o :: o in orders && o.userId == user && IsShown(o.status) && Describes(vs[i], o)
    {
      ListedIsShown(f, i);
      var k :| 0 <= k < |f| && IsShown(f[k].order.status) && Describes(vs[i], f[k].order);
      FetchedIsMine(orders, rows, products, user, k);
      var o := f[k].order;
      assert o in orders && o.userId == user && IsShown(o.status) && Describes(vs[i], o);
    }
  }

  /** Some entry of the answer shows order `id`. */
  predicate Lists(vs: seq<OrderView>, id: nat) {
    exists i :: 0 <= i < |vs| && vs[i].id == id
  }

  /** One of the caller's orders is in the answer exactly when it is neither CANCELLED nor DELIVERED. */
  lemma ListedIffShown(orders: seq<Order>, rows: seq<OrderItem>, products: map<nat, Product>, user: UserId)
    requires ItemsReferenceProducts(rows, products)
    requires OrdersAscending(orders)
    ensures var vs := FormatAll(Active(Fetch(orders, rows, products, user)));
      forall o :: o in orders && o.userId == user ==>
        (IsShown(o.status) <==> Lists(vs, o.id))
  {
    var vs := FormatAll(Active(Fetch(orders, rows, products, user)));
    forall o | o in orders && o.userId == user
      ensures IsShown(o.status) <==> Lists(vs, o.id)
    {
      OneListedIffShown(orders, rows, products, user, o);
    }
  }

  lemma OneListedIffShown(orders: seq<Order>, rows: seq<OrderItem>, products: map<nat, Product>, user: UserId, o: Order)
    requires ItemsReferenceProducts(rows, products)
    requires OrdersAscending(orders)
    requires o in orders && o.userId == user
    ensures var vs := FormatAll(Active(Fetch(orders, rows, products, user)));
      IsShown(o.status) <==> Lists(vs, o.id)
  {
    var f := Fetch(orders, rows, products, user);
    var vs := FormatAll(Active(f));
    if IsShown(o.status) {
      MineIsFetched(orders, rows, products, user, o);
      var k :| 0 <= k < |f| && f[k].order == o;
      ShownIsListed(f, k);
      var i :| 0 <= i < |Active(f)| && Describes(vs[i], f[k].order);
      assert vs[i].id == o.id;
    }
    if Lists(vs, o.id) {
      var i :| 0 <= i < |vs| && vs[i].id == o.id;
      ListedIsShown(f, i);
      var k :| 0 <= k < |f| && IsShown(f[k].order.status) && Describes(vs[i], f[k].order);
      FetchedIsMine(orders, rows, products, user, k);
      UniqueIds(orders, f[k].order, o);
    }
  }

  /** The answer is newest first. */
  lemma ListedNewestFirst(orders: seq<Order>, rows: seq<OrderItem>, products: map<nat, Product>, user: UserId)
    requires ItemsReferenceProducts(rows, products)
    requires OrdersAscending(orders)
    ensures var vs := FormatAll(Active(Fetch(orders, rows, products, user)));
      forall i, j :: 0 <= i < j < |vs| ==> vs[i].createdAt > vs[j].createdAt
  {
    FetchedNewestFirst(orders, rows, products, user);
    FormattedNewestFirst(Fetch(orders, rows, products, user));
  }

  /** A SUCCESS order is in the answer of the same request that deletes it. */
  lemma SuccessListedThenDeleted(orders: seq<Order>, rows: seq<OrderItem>, products: map<nat, Product>,
                                 user: UserId, faults: map<nat, DeleteFault>, o: Order)
    requires ItemsReferenceProducts(rows, products)
    requires OrdersAscending(orders)
    requires o in orders && o.userId == user && o.status == Success && FaultOf(faults, o.id) == NoFault
    ensures var f := Fetch(orders, rows, products, user);
      && Lists(FormatAll(Active(f)), o.id)
      && o !in WithoutOrders(orders, DroppedIds(ToDelete(f), faults))
  {
    ListedIffShown(orders, rows, products, user);
    PrunedOrders(orders, rows, products, user, faults);
  }

  /** A DELIVERED order is never in the answer, yet stays in the table. */
  lemma DeliveredHiddenButKept(orders: seq<Order>, rows: seq<OrderItem>, products: map<nat, Product>,
                               user: UserId, faults: map<nat, DeleteFault>, o: Order)
    requires ItemsReferenceProducts(rows, products)
    requires OrdersAscending(orders)
    requires o in orders && o.userId == user && o.status == Delivered
    ensures var f := Fetch(orders, rows, products, user);
      && !Lists(FormatAll(Active(f)), o.id)
      && o in WithoutOrders(orders, DroppedIds(ToDelete(f), faults))
  {
    ListedIffShown(orders, rows, products, user);
    PrunedOrders(orders, rows, products, user, faults);
  }

  /** An order appended to the table for its owner is the first one fetched. */
  lemma AppendedFetchedFirst(orders: seq<Order>, rows: seq<OrderItem>, products: map<nat, Product>, o: Order)
    requires ItemsReferenceProducts(rows, products)
    ensures var f := Fetch(orders + [o], rows, products, o.userId); |f| > 0 && f[0] == FetchOne(o, rows, products)
  {
    var user := o.userId;
    OrdersOfConcat(orders, [o], user);
    assert OrdersOf([o], user) == [o];
    var mine := OrdersOf(orders + [o], user);
    assert mine[|mine| - 1] == o;
    var rev := Reverse(mine);
    assert rev[0] == o;
  }

  /** The item rows of a new order are exactly the rows inserted with it. */
  lemma InsertedItemsOf(rows: seq<OrderItem>, products: map<nat, Product>, id: nat, items: seq<LineItem>)
    requires OrderItemsValid(rows, products, id)
    ensures ItemsOf(rows + NewItems(id, items), id) == NewItems(id, items)
  {
    var added := NewItems(id, items);
    ItemsOfConcat(rows, added, id);
    forall x | x in rows
      ensures x.orderId != id
    {
      var i :| 0 <= i < |rows| && rows[i] == x;
    }
    ItemsOfNone(rows, id);
    forall x | x in added
      ensures x.orderId == id
    {
      var i :| 0 <= i < |added| && added[i] == x;
    }
    ItemsOfAll(added, id);
    assert ItemsOf(rows, id) + ItemsOf(added, id) == [] + added == added;
  }

  lemma InsertedItemsReferenceProducts(rows: seq<OrderItem>, products: map<nat, Product>, id: nat, items: seq<LineItem>)
    requires OrderItemsValid(rows, products, id)
    requires LinesReferenceProducts(items, products)
    ensures ItemsReferenceProducts(rows + NewItems(id, items), products)
  {
    var added := NewItems(id, items);
    var all := rows + added;
    forall i | 0 <= i < |all|
      ensures all[i].productId in products
    {
      if i >= |rows| {
        assert all[i] == added[i - |rows|];
      }
    }
  }

  /** The order POST stores heads the next GET answer, PENDING, with one entry per line priced from the product. */
  lemma PlacedOrderListedFirst(orders: seq<Order>, rows: seq<OrderItem>, products: map<nat, Product>,
                               user: UserId, req: OrderRequest, id: nat)
    requires OrderItemsValid(rows, products, id)
    requires LinesReferenceProducts(req.items, products)
    ensures ItemsReferenceProducts(rows + NewItems(id, req.items), products)
    ensures var vs := FormatAll(Active(Fetch(orders + [NewOrder(id, user, req)], rows + NewItems(id, req.items), products, user)));
      && |vs| > 0
      && Describes(vs[0], NewOrder(id, user, req)) && vs[0].status == Pending && vs[0].total == req.total
      && |vs[0].items| == |req.items|
      && forall j :: 0 <= j < |req.items| ==>
           var p := products[req.items[j].id];
           vs[0].items[j] == ItemView(id + 1 + j, p.name, p.price, req.items[j].quantity, p.image)
  {
    var o := NewOrder(id, user, req);
    var added := NewItems(id, req.items);
    InsertedItemsReferenceProducts(rows, products, id, req.items);
    AppendedFetchedFirst(orders, rows + added, products, o);
    InsertedItemsOf(rows, products, id, req.items);
    var f := Fetch(orders + [o], rows + added, products, user);
    assert f[0].items == Join(added, products);
    // PENDING is shown, so the new order heads the active list
    assert Active(f)[0] == f[0];
    var vs := FormatAll(Active(f));
    assert vs[0] == FormatOrder(f[0]);
  }
}
