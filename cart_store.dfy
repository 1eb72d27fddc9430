/**
 * The client-side cart store (a persisted zustand store): an ordered list of
 * line items keyed by product id. Every action except `getTotal` replaces
 * `items` and then fires one `syncWithDatabase` call, which posts the current
 * list to the server cart endpoint and swallows any failure.
 */
module CartStore {

  /** One line of the cart; `price` is an integer amount of VND. */
  datatype CartItem = CartItem(id: string, name: string, price: int, image: string, quantity: int)

  predicate HasId(items: seq<CartItem>, id: string) {
    exists k :: 0 <= k < |items| && items[k].id == id
  }

  /** No two lines share a product id. */
  predicate UniqueIds(items: seq<CartItem>) {
    forall i, j :: 0 <= i < j < |items| ==> items[i].id != items[j].id
  }

  /** `price * quantity` of one line. */
  function LineTotal(item: CartItem): int {
    item.price * item.quantity
  }

  /** The `reduce` of `getTotal`: a left fold adding `price * quantity` line by line, from 0. */
  function Total(items: seq<CartItem>): (r: int)
    ensures (forall k :: 0 <= k < |items| ==> items[k].price >= 0 && items[k].quantity >= 0) ==> r >= 0
  {
    if items == [] then 0
    else Total(items[..|items| - 1]) + LineTotal(items[|items| - 1])
  }

  /** The `map` of `addItem` when the id is present: that line's quantity grows by `item.quantity`. */
  function Merged(items: seq<CartItem>, item: CartItem): (r: seq<CartItem>)
    ensures |r| == |items|
    ensures forall k :: 0 <= k < |items| ==> r[k].id == items[k].id
  {
    seq(|items|, k requires 0 <= k < |items| =>
      if items[k].id == item.id then items[k].(quantity := items[k].quantity + item.quantity)
      else items[k])
  }

  /** The new list `addItem(item)` stores: merge into the existing line, or append. */
  function Added(items: seq<CartItem>, item: CartItem): (r: seq<CartItem>)
    ensures HasId(r, item.id)
    ensures |r| == |items| || |r| == |items| + 1
    ensures forall k :: 0 <= k < |items| ==> r[k].id == items[k].id
  {
    if HasId(items, item.id) then Merged(items, item)
    else
      assert (items + [item])[|items|] == item;
      items + [item]
  }

  /** The `filter` of `removeItem(id)`: every line whose id differs, in their order. */
  function Without(items: seq<CartItem>, id: string): (r: seq<CartItem>)
    ensures |r| <= |items|
    ensures forall k :: 0 <= k < |r| ==> r[k].id != id
  {
    if items == [] then []
    else (if items[0].id == id then [] else [items[0]]) + Without(items[1..], id)
  }

  /** The `map` of `updateQuantity(id, quantity)`: the quantity is stored as given. */
  function WithQuantity(items: seq<CartItem>, id: string, quantity: int): (r: seq<CartItem>)
    ensures |r| == |items|
  {
    seq(|items|, k requires 0 <= k < |items| =>
      if items[k].id == id then items[k].(quantity := quantity) else items[k])
  }

  /** `a` keeps some elements of `b`, in the same relative order. */
  predicate IsSubsequence(a: seq<CartItem>, b: seq<CartItem>)
    decreases |b|
  {
    if a == [] then true
    else if b == [] then false
    else if a[0] == b[0] then IsSubsequence(a[1..], b[1..])
    else IsSubsequence(a, b[1..])
  }

  // ---------------------------------------------------------------- properties

  lemma {:induction false} TotalConcat(a: seq<CartItem>, b: seq<CartItem>)
    ensures Total(a + b) == Total(a) + Total(b)
    decreases |b|
  {
    if b != [] {
      var b' := b[..|b| - 1];
      var last := b[|b| - 1];
      assert (a + b)[..|a + b| - 1] == a + b';
      assert (a + b)[|a + b| - 1] == last;
      TotalConcat(a, b');
      calc {
        Total(a + b);
        Total(a + b') + LineTotal(last);
        Total(a) + Total(b') + LineTotal(last);
        Total(a) + Total(b);
      }
    } else {
      assert a + b == a;
    }
  }

  lemma MulAddRight(p: int, q: int, d: int)
    ensures p * (q + d) == p * q + p * d
  {
  }

  /** Replacing one line changes the total by the difference of the two line totals. */
  lemma TotalReplaceAt(items: seq<CartItem>, k: nat, x: CartItem)
    requires k < |items|
    ensures Total(items[k := x]) == Total(items) - LineTotal(items[k]) + LineTotal(x)
  {
    assert items == items[..k] + [items[k]] + items[k + 1..];
    assert items[k := x] == items[..k] + [x] + items[k + 1..];
    TotalConcat(items[..k] + [items[k]], items[k + 1..]);
    TotalConcat(items[..k] + [x], items[k + 1..]);
    TotalConcat(items[..k], [items[k]]);
    TotalConcat(items[..k], [x]);
  }

  /** Under unique ids, dropping the one line with `id` leaves the lines before and after it. */
  lemma {:induction false} WithoutAt(items: seq<CartItem>, k: nat)
    requires UniqueIds(items) && k < |items|
    ensures Without(items, items[k].id) == items[..k] + items[k + 1..]
    decreases |items|
  {
    var id := items[k].id;
    if k == 0 {
      WithoutAbsent(items[1..], id);
    } else {
      WithoutAt(items[1..], k - 1);
      assert items[1..][k - 1] == items[k];
      assert items[..k] == [items[0]] + items[1..][..k - 1];
      assert items[k + 1..] == items[1..][k..];
    }
  }

  /** `removeItem` with an id that is not in the cart leaves the list as it is. */
  lemma {:induction false} WithoutAbsent(items: seq<CartItem>, id: string)
    requires !HasId(items, id)
    ensures Without(items, id) == items
    decreases |items|
  {
    if items != [] {
      assert !HasId(items[1..], id) by {
        forall k | 0 <= k < |items[1..]| ensures items[1..][k].id != id {
          assert items[1..][k] == items[k + 1];
        }
      }
      WithoutAbsent(items[1..], id);
    }
  }

  /** `removeItem` keeps every other line, in the same relative order, and only those. */
  lemma {:induction false} WithoutKeepsOrder(items: seq<CartItem>, id: string)
    ensures IsSubsequence(Without(items, id), items)
    ensures forall x :: x in items && x.id != id ==> x in Without(items, id)
    ensures forall x :: x in Without(items, id) ==> x in items
    decreases |items|
  {
    if items != [] {
      WithoutKeepsOrder(items[1..], id);
      var rest := Without(items[1..], id);
      if items[0].id == id {
        assert Without(items, id) == rest;
        SubsequenceDropFront(rest, items);
      } else {
        assert Without(items, id) == [items[0]] + rest;
        assert ([items[0]] + rest)[1..] == rest;
      }
      forall x | x in items && x.id != id ensures x in Without(items, id) {
        if x != items[0] {
          assert x in items[1..];
        }
      }
    }
  }

  lemma {:induction false} SubsequenceDropFront(a: seq<CartItem>, b: seq<CartItem>)
    requires b != [] && IsSubsequence(a, b[1..])
    ensures IsSubsequence(a, b)
    decreases |b|, |a|
  {
    if a != [] && a[0] == b[0] {
      SubsequenceTail(a, b[1..]);
    }
  }

  lemma {:induction false} SubsequenceTail(a: seq<CartItem>, b: seq<CartItem>)
    requires a != [] && IsSubsequence(a, b)
    ensures IsSubsequence(a[1..], b)
    decreases |b|, |a|
  {
    if a[0] != b[0] {
      SubsequenceTail(a, b[1..]);
      SubsequenceDropFront(a[1..], b);
    } else if a[1..] != [] {
      SubsequenceDropFront(a[1..], b);
    }
  }

  /** `addItem` on a present id: same length, that line gains the added quantity, the rest are untouched. */
  lemma AddExisting(items: seq<CartItem>, item: CartItem, k: nat)
    requires UniqueIds(items) && k < |items| && items[k].id == item.id
    ensures Added(items, item) == items[k := items[k].(quantity := items[k].quantity + item.quantity)]
  {
    assert HasId(items, item.id);
  }

  /** `addItem` on a new id appends the item at the end. */
  lemma AddNew(items: seq<CartItem>, item: CartItem)
    requires !HasId(items, item.id)
    ensures Added(items, item) == items + [item]
    ensures |Added(items, item)| == |items| + 1
  {
  }

  /** `addItem` keeps product ids unique: it either merges into the one matching line or appends a new id. */
  lemma AddedKeepsUniqueIds(items: seq<CartItem>, item: CartItem)
    requires UniqueIds(items)
    ensures UniqueIds(Added(items, item))
  {
  }

  /** `updateQuantity` keeps product ids unique: it changes no id. */
  lemma WithQuantityKeepsUniqueIds(items: seq<CartItem>, id: string, quantity: int)
    requires UniqueIds(items)
    ensures UniqueIds(WithQuantity(items, id, quantity))
  {
  }

  /** `removeItem` keeps product ids unique: the result is a subsequence of the list. */
  lemma {:induction false} WithoutUnique(items: seq<CartItem>, id: string)
    requires UniqueIds(items)
    ensures UniqueIds(Without(items, id))
    decreases |items|
  {
    if items != [] {
      WithoutUnique(items[1..], id);
      WithoutKeepsOrder(items[1..], id);
      var rest := Without(items[1..], id);
      if items[0].id != id {
        var r := [items[0]] + rest;
        assert Without(items, id) == r;
        forall i, j | 0 <= i < j < |r| ensures r[i].id != r[j].id {
          if i == 0 {
            assert r[j] in rest;
            var m :| 0 <= m < |items[1..]| && items[1..][m] == r[j];
            assert items[m + 1] == r[j];
          } else {
            assert r[i] == rest[i - 1] && r[j] == rest[j - 1];
          }
        }
      }
    }
  }

  /** `addItem` on a new id adds that line's total. */
  lemma TotalAfterAddNew(items: seq<CartItem>, item: CartItem)
    requires !HasId(items, item.id)
    ensures Total(Added(items, item)) == Total(items) + LineTotal(item)
  {
    TotalConcat(items, [item]);
  }

  /** `addItem` on a present id adds the added quantity at the price of the line already in the cart. */
  lemma TotalAfterAddExisting(items: seq<CartItem>, item: CartItem, k: nat)
    requires UniqueIds(items) && k < |items| && items[k].id == item.id
    ensures Total(Added(items, item)) == Total(items) + items[k].price * item.quantity
  {
    var x := items[k].(quantity := items[k].quantity + item.quantity);
    assert LineTotal(x) == LineTotal(items[k]) + items[k].price * item.quantity by {
      MulAddRight(items[k].price, items[k].quantity, item.quantity);
    }
    AddExisting(items, item, k);
    TotalReplaceAt(items, k, x);
  }

  /** `removeItem` takes the removed line's total off, and changes nothing for an absent id. */
  lemma TotalAfterRemove(items: seq<CartItem>, id: string)
    requires UniqueIds(items)
    ensures !HasId(items, id) ==> Total(Without(items, id)) == Total(items)
    ensures forall k :: 0 <= k < |items| && items[k].id == id ==>
      Total(Without(items, id)) == Total(items) - LineTotal(items[k])
  {
    if !HasId(items, id) {
      WithoutAbsent(items, id);
    }
    forall k | 0 <= k < |items| && items[k].id == id
      ensures Total(Without(items, id)) == Total(items) - LineTotal(items[k])
    {
      WithoutAt(items, k);
      assert items == items[..k] + [items[k]] + items[k + 1..];
      TotalConcat(items[..k] + [items[k]], items[k + 1..]);
      TotalConcat(items[..k], [items[k]]);
      TotalConcat(items[..k], items[k + 1..]);
    }
  }

  /** `updateQuantity` stores the quantity as given (0 and negatives included) and moves the total accordingly. */
  lemma TotalAfterUpdate(items: seq<CartItem>, id: string, quantity: int)
    requires UniqueIds(items)
    ensures forall k :: 0 <= k < |items| && items[k].id == id ==>
      WithQuantity(items, id, quantity)[k].quantity == quantity
      && Total(WithQuantity(items, id, quantity)) == Total(items) + items[k].price * (quantity - items[k].quantity)
    ensures !HasId(items, id) ==> WithQuantity(items, id, quantity) == items
  {
    forall k | 0 <= k < |items| && items[k].id == id
      ensures Total(WithQuantity(items, id, quantity)) == Total(items) + items[k].price * (quantity - items[k].quantity)
    {
      assert WithQuantity(items, id, quantity) == items[k := items[k].(quantity := quantity)];
      TotalAfterQuantityAt(items, k, quantity);
    }
  }

  lemma TotalAfterQuantityAt(items: seq<CartItem>, k: nat, quantity: int)
    requires k < |items|
    ensures Total(items[k := items[k].(quantity := quantity)])
      == Total(items) + items[k].price * (quantity - items[k].quantity)
  {
    var x := items[k].(quantity := quantity);
    assert LineTotal(x) == LineTotal(items[k]) + items[k].price * (quantity - items[k].quantity) by {
      MulAddRight(items[k].price, items[k].quantity, quantity - items[k].quantity);
    }
    TotalReplaceAt(items, k, x);
  }

  // ---------------------------------------------------------------- the store

  class Store {
    var items: seq<CartItem>
    /** Every list sent to the server by `syncWithDatabase`, oldest first. */
    ghost var synced: seq<seq<CartItem>>

    constructor ()
      ensures items == [] && synced == []
    {
      items := [];
      synced := [];
    }

    /** `syncWithDatabase`: posts `items`; a failed request is logged and dropped. */
    method Sync()
      modifies this`synced
      ensures synced == old(synced) + [items]
    {
      synced := synced + [items];
    }

    method AddItem(item: CartItem)
      modifies this
      ensures items == Added(old(items), item)
      ensures synced == old(synced) + [items]
      ensures UniqueIds(old(items)) ==> UniqueIds(items)
    {
      if UniqueIds(items) {
        AddedKeepsUniqueIds(items, item);
      }
      if HasId(items, item.id) {
        items := Merged(items, item);
      } else {
        items := items + [item];
      }
      Sync();
    }

    method RemoveItem(id: string)
      modifies this
      ensures items == Without(old(items), id)
      ensures synced == old(synced) + [items]
      ensures UniqueIds(old(items)) ==> UniqueIds(items)
    {
      if UniqueIds(items) {
        WithoutUnique(items, id);
      }
      items := Without(items, id);
      Sync();
    }

    method UpdateQuantity(id: string, quantity: int)
      modifies this
      ensures items == WithQuantity(old(items), id, quantity)
      ensures synced == old(synced) + [items]
      ensures UniqueIds(old(items)) ==> UniqueIds(items)
    {
      if UniqueIds(items) {
        WithQuantityKeepsUniqueIds(items, id, quantity);
      }
      items := WithQuantity(items, id, quantity);
      Sync();
    }

    /** `getTotal`: the running sum starts at 0 and adds `price * quantity` per line. */
    method GetTotal() returns (total: int)
      ensures total == Total(items)
    {
      total := 0;
      var k := 0;
      while k < |items|
        invariant 0 <= k <= |items|
        invariant total == Total(items[..k])
      {
        assert items[..k + 1][..k] == items[..k];
        total := total + LineTotal(items[k]);
        k := k + 1;
      }
      assert items[..k] == items;
    }

    method ClearCart()
      modifies this
      ensures items == []
      ensures synced == old(synced) + [[]]
    {
      items := [];
      Sync();
    }
  }

  /** The exported `clearCart` helper: empties the list through `setState`, without a sync. */
  method ClearCartHelper(store: Store)
    modifies store`items
    ensures store.items == []
    ensures store.synced == old(store.synced)
  {
    store.items := [];
  }
}
