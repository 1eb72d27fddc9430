/**
 * `POST /api/cart` and `GET /api/cart`: the server mirror of the client cart.
 * POST finds or creates the caller's cart row, deletes all of its item rows
 * and inserts one row per posted item; GET returns the caller's cart with its
 * items and their products, or null.
 */
module CartRoute {
  import opened Wrappers
  import opened Db

  /** An element of the posted `items` list; `id` is a product id. */
  datatype SyncItem = SyncItem(id: nat, quantity: int)

  datatype PostResult = Updated | Unauthorized | ServerError {
    function Status(): int {
      match this
      case Updated => 200
      case Unauthorized => 401
      case ServerError => 500
    }
  }

  /** The part of the store the cart endpoints read and write. */
  datatype CartTables = CartTables(carts: map<UserId, Cart>, items: seq<CartItemRow>, nextId: nat)

  datatype SyncOutcome = SyncOutcome(tables: CartTables, result: PostResult)

  /** The rows `createMany` inserts: one per posted item, in order. */
  function NewRows(cartId: nat, items: seq<SyncItem>): (rows: seq<CartItemRow>)
  {
    seq(|items|, i requires 0 <= i < |items| => CartItemRow(cartId, items[i].id, items[i].quantity))
  }

  /** The rows of cart `cartId`, in table order. */
  function RowsOf(rows: seq<CartItemRow>, cartId: nat): (r: seq<CartItemRow>)
    ensures forall i :: 0 <= i < |r| ==> r[i].cartId == cartId
  {
    if rows == [] then []
    else (if rows[0].cartId == cartId then [rows[0]] else []) + RowsOf(rows[1..], cartId)
  }

  /** What `deleteMany({ where: { cartId } })` leaves: every row of every other cart, in table order. */
  function RowsExcept(rows: seq<CartItemRow>, cartId: nat): (r: seq<CartItemRow>)
    ensures forall i :: 0 <= i < |r| ==> r[i].cartId != cartId
    ensures forall i :: 0 <= i < |r| ==> r[i] in rows
  {
    if rows == [] then []
    else (if rows[0].cartId != cartId then [rows[0]] else []) + RowsExcept(rows[1..], cartId)
  }

  /** Every posted product id names an existing product, so the inserted rows satisfy their foreign key. */
  predicate ProductsExist(items: seq<SyncItem>, products: map<nat, Product>) {
    forall i :: 0 <= i < |items| ==> items[i].id in products
  }

  /** A signed-in `POST /api/cart` by `user` with `items`, on tables `t`. */
  function Sync(t: CartTables, products: map<nat, Product>, user: UserId, items: seq<SyncItem>): (out: SyncOutcome)
    ensures user in out.tables.carts && out.tables.carts.Keys == t.carts.Keys + {user}
    ensures forall u :: u in t.carts ==> out.tables.carts[u] == t.carts[u]
    ensures out.result == Updated <==> ProductsExist(items, products)
    ensures out.result != Unauthorized
  {
    var created := user !in t.carts;
    var cart := if created then Cart(t.nextId, user) else t.carts[user];
    var carts := if created then t.carts[user := cart] else t.carts;
    var nextId := if created then t.nextId + 1 else t.nextId;
    var kept := RowsExcept(t.items, cart.id);
    if ProductsExist(items, products) then
      SyncOutcome(CartTables(carts, kept + NewRows(cart.id, items), nextId), Updated)
    else
      SyncOutcome(CartTables(carts, kept, nextId), ServerError)
  }

  // ---------------------------------------------------------------- properties

  lemma {:induction false} RowsOfConcat(a: seq<CartItemRow>, b: seq<CartItemRow>, cartId: nat)
    ensures RowsOf(a + b, cartId) == RowsOf(a, cartId) + RowsOf(b, cartId)
    decreases |a|
  {
    if a != [] {
      assert (a + b)[1..] == a[1..] + b;
      RowsOfConcat(a[1..], b, cartId);
    } else {
      assert a + b == b;
    }
  }

  lemma {:induction false} RowsExceptConcat(a: seq<CartItemRow>, b: seq<CartItemRow>, cartId: nat)
    ensures RowsExcept(a + b, cartId) == RowsExcept(a, cartId) + RowsExcept(b, cartId)
    decreases |a|
  {
    if a != [] {
      assert (a + b)[1..] == a[1..] + b;
      RowsExceptConcat(a[1..], b, cartId);
    } else {
      assert a + b == b;
    }
  }

  lemma {:induction false} RowsExceptNone(rows: seq<CartItemRow>, cartId: nat)
    requires forall i :: 0 <= i < |rows| ==> rows[i].cartId != cartId
    ensures RowsExcept(rows, cartId) == rows
    decreases |rows|
  {
    if rows != [] {
      RowsExceptNone(rows[1..], cartId);
    }
  }

  lemma {:induction false} RowsOfAll(rows: seq<CartItemRow>, cartId: nat)
    requires forall i :: 0 <= i < |rows| ==> rows[i].cartId == cartId
    ensures RowsOf(rows, cartId) == rows
    ensures RowsExcept(rows, cartId) == []
    decreases |rows|
  {
    if rows != [] {
      RowsOfAll(rows[1..], cartId);
    }
  }

  lemma {:induction false} RowsOfOther(rows: seq<CartItemRow>, cartId: nat, other: nat)
    requires other != cartId
    ensures RowsOf(RowsExcept(rows, cartId), other) == RowsOf(rows, other)
    ensures RowsOf(RowsExcept(rows, cartId), cartId) == []
    decreases |rows|
  {
    if rows != [] {
      RowsOfOther(rows[1..], cartId, other);
      var head := if rows[0].cartId != cartId then [rows[0]] else [];
      assert RowsExcept(rows, cartId) == head + RowsExcept(rows[1..], cartId);
      RowsOfConcat(head, RowsExcept(rows[1..], cartId), other);
      RowsOfConcat(head, RowsExcept(rows[1..], cartId), cartId);
    }
  }

  /** The cart `POST` ends with: the caller's existing cart, or a new one with a fresh id. */
  function SyncedCart(t: CartTables, user: UserId): Cart {
    if user in t.carts then t.carts[user] else Cart(t.nextId, user)
  }

  /**
   * After `POST`, the caller's cart holds exactly the posted items as
   * (productId, quantity) rows in order, or nothing when an insert broke a
   * foreign key; every other cart keeps its rows, and a cart is created only
   * when the caller had none.
   */
  lemma SyncEffect(t: CartTables, products: map<nat, Product>, user: UserId, items: seq<SyncItem>)
    ensures var out := Sync(t, products, user, items);
      var cart := SyncedCart(t, user);
      && (user in t.carts ==> out.tables.carts == t.carts && out.tables.nextId == t.nextId)
      && (user !in t.carts ==> out.tables.carts == t.carts[user := cart] && out.tables.nextId == t.nextId + 1)
      && out.tables.carts[user] == cart
      && (out.result == Updated <==> ProductsExist(items, products))
      && out.result != Unauthorized
      && (out.result == Updated ==>
            |RowsOf(out.tables.items, cart.id)| == |items|
            && forall i :: 0 <= i < |items| ==>
                 RowsOf(out.tables.items, cart.id)[i].productId == items[i].id
                 && RowsOf(out.tables.items, cart.id)[i].quantity == items[i].quantity)
      && (out.result == ServerError ==> RowsOf(out.tables.items, cart.id) == [])
      && (forall other :: other != cart.id ==> RowsOf(out.tables.items, other) == RowsOf(t.items, other))
  {
    SyncCallerRows(t, products, user, items);
    SyncOtherRows(t, products, user, items);
  }

  lemma SyncCallerRows(t: CartTables, products: map<nat, Product>, user: UserId, items: seq<SyncItem>)
    ensures var out := Sync(t, products, user, items);
      var cart := SyncedCart(t, user);
      && (out.result == Updated ==> RowsOf(out.tables.items, cart.id) == NewRows(cart.id, items))
      && (out.result == ServerError ==> RowsOf(out.tables.items, cart.id) == [])
  {
    var cart := SyncedCart(t, user);
    var kept := RowsExcept(t.items, cart.id);
    var inserted := NewRows(cart.id, items);
    RowsOfOther(t.items, cart.id, cart.id + 1);
    RowsOfAll(inserted, cart.id);
    RowsOfConcat(kept, inserted, cart.id);
  }

  lemma SyncOtherRows(t: CartTables, products: map<nat, Product>, user: UserId, items: seq<SyncItem>)
    ensures var out := Sync(t, products, user, items);
      forall other :: other != SyncedCart(t, user).id ==> RowsOf(out.tables.items, other) == RowsOf(t.items, other)
  {
    var cart := SyncedCart(t, user);
    var kept := RowsExcept(t.items, cart.id);
    var inserted := NewRows(cart.id, items);
    forall other | other != cart.id
      ensures RowsOf(Sync(t, products, user, items).tables.items, other) == RowsOf(t.items, other)
    {
      RowsOfOther(t.items, cart.id, other);
      RowsOfConcat(kept, inserted, other);
      RowsOfNone(inserted, other);
    }
  }

  lemma {:induction false} RowsOfNone(rows: seq<CartItemRow>, other: nat)
    requires forall i :: 0 <= i < |rows| ==> rows[i].cartId != other
    ensures RowsOf(rows, other) == []
    decreases |rows|
  {
    if rows != [] {
      RowsOfNone(rows[1..], other);
    }
  }

  /** Posting the same list twice leaves the store as posting it once, with the same response. */
  lemma SyncIdempotent(t: CartTables, products: map<nat, Product>, user: UserId, items: seq<SyncItem>)
    ensures var once := Sync(t, products, user, items);
      Sync(once.tables, products, user, items) == once
  {
    var once := Sync(t, products, user, items);
    var cart := SyncedCart(t, user);
    var kept := RowsExcept(t.items, cart.id);
    var inserted := NewRows(cart.id, items);
    assert user in once.tables.carts && once.tables.carts[user] == cart;
    assert RowsExcept(kept, cart.id) == kept by {
      RowsExceptNone(kept, cart.id);
    }
    if ProductsExist(items, products) {
      assert once.tables.items == kept + inserted;
      RowsOfAll(inserted, cart.id);
      RowsExceptConcat(kept, inserted, cart.id);
      assert RowsExcept(once.tables.items, cart.id) == kept;
    } else {
      assert once.tables.items == kept;
    }
  }

  // ---------------------------------------------------------------- GET

  datatype CartLine = CartLine(row: CartItemRow, product: Product)

  /** The cart as `findUnique` returns it with `items: { include: { product: true } }`. */
  datatype CartView = CartView(cart: Cart, lines: seq<CartLine>)

  datatype GetResult = Found(cart: Option<CartView>) | GetUnauthorized {
    function Status(): int {
      match this
      case Found(_) => 200
      case GetUnauthorized => 401
    }
  }

  predicate RowsReferenceProducts(rows: seq<CartItemRow>, products: map<nat, Product>) {
    forall i :: 0 <= i < |rows| ==> rows[i].productId in products
  }

  function Lines(rows: seq<CartItemRow>, products: map<nat, Product>): (lines: seq<CartLine>)
    requires RowsReferenceProducts(rows, products)
  {
    seq(|rows|, i requires 0 <= i < |rows| => CartLine(rows[i], products[rows[i].productId]))
  }

  /** The caller's cart with its rows and their products, or `None` (null) when the caller has no cart. */
  function View(t: CartTables, products: map<nat, Product>, user: UserId): Option<CartView>
    requires RowsReferenceProducts(t.items, products)
  {
    if user !in t.carts then None
    else
      var cart := t.carts[user];
      RowsOfSubset(t.items, cart.id);
      Some(CartView(cart, Lines(RowsOf(t.items, cart.id), products)))
  }

  lemma {:induction false} RowsOfSubset(rows: seq<CartItemRow>, cartId: nat)
    ensures forall i :: 0 <= i < |RowsOf(rows, cartId)| ==> RowsOf(rows, cartId)[i] in rows
    decreases |rows|
  {
    if rows != [] {
      RowsOfSubset(rows[1..], cartId);
    }
  }

  /** After a successful `POST`, `GET` returns the posted items, in order, each with its product. */
  lemma PostThenGet(t: CartTables, products: map<nat, Product>, user: UserId, items: seq<SyncItem>)
    requires RowsReferenceProducts(t.items, products)
    requires Sync(t, products, user, items).result == Updated
    ensures var out := Sync(t, products, user, items);
      RowsReferenceProducts(out.tables.items, products)
      && View(out.tables, products, user).Some?
      && var view := View(out.tables, products, user).value;
      && view.cart == SyncedCart(t, user)
      && |view.lines| == |items|
      && forall i :: 0 <= i < |items| ==>
           view.lines[i].row.productId == items[i].id
           && view.lines[i].row.quantity == items[i].quantity
           && view.lines[i].product == products[items[i].id]
  {
    SyncEffect(t, products, user, items);
    var out := Sync(t, products, user, items);
    var cart := SyncedCart(t, user);
    assert RowsReferenceProducts(out.tables.items, products) by {
      var kept := RowsExcept(t.items, cart.id);
      assert out.tables.items == kept + NewRows(cart.id, items);
      forall i | 0 <= i < |out.tables.items| ensures out.tables.items[i].productId in products {
        if i < |kept| {
          assert kept[i] in t.items;
        }
      }
    }
  }

  // ---------------------------------------------------------------- handlers

  /** The find-or-create step of `POST`: the caller's cart row, created with a fresh id when missing. */
  method FindOrCreateCart(db: Database, user: UserId) returns (cart: Cart)
    requires db.Valid()
    modifies db`carts, db`nextId
    ensures db.Valid()
    ensures cart == SyncedCart(CartTables(old(db.carts), old(db.cartItems), old(db.nextId)), user)
    ensures db.carts == if user in old(db.carts) then old(db.carts) else old(db.carts)[user := cart]
    ensures db.nextId == if user in old(db.carts) then old(db.nextId) else old(db.nextId) + 1
  {
    if user in db.carts {
      cart := db.carts[user];
    } else {
      cart := Cart(db.nextId, user);
      db.carts := db.carts[user := cart];
      db.nextId := db.nextId + 1;
    }
  }

  method Post(db: Database, session: Option<UserId>, items: seq<SyncItem>) returns (r: PostResult)
    requires db.Valid()
    modifies db`carts, db`cartItems, db`nextId
    ensures db.Valid()
    ensures !SignedIn(session) ==>
      r == Unauthorized && db.carts == old(db.carts) && db.cartItems == old(db.cartItems) && db.nextId == old(db.nextId)
    ensures SignedIn(session) ==>
      SyncOutcome(CartTables(db.carts, db.cartItems, db.nextId), r)
      == Sync(CartTables(old(db.carts), old(db.cartItems), old(db.nextId)), db.products, session.value, items)
  {
    if !SignedIn(session) {
      return Unauthorized;
    }
    var cart := FindOrCreateCart(db, session.value);
    db.cartItems := RowsExcept(db.cartItems, cart.id);
    if ProductsExist(items, db.products) {
      db.cartItems := db.cartItems + NewRows(cart.id, items);
      r := Updated;
    } else {
      r := ServerError;
    }
  }

  method Get(db: Database, session: Option<UserId>) returns (r: GetResult)
    requires db.Valid()
    ensures !SignedIn(session) ==> r == GetUnauthorized
    ensures SignedIn(session) ==>
      r == Found(View(CartTables(db.carts, db.cartItems, db.nextId), db.products, session.value))
  {
    if !SignedIn(session) {
      return GetUnauthorized;
    }
    r := Found(View(CartTables(db.carts, db.cartItems, db.nextId), db.products, session.value));
  }
}
