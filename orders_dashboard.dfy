/**
 * The admin order table: the status badge menu, the next-step action of each
 * row, and the local list update after a status change is accepted.
 */
module OrdersDashboard {
  import opened Wrappers
  import opened Db

  /** One row of the table, as fetched. */
  datatype Row = Row(
    id: nat, createdAt: nat, status: OrderStatus, total: int,
    recipientName: string, recipientPhone: string, shippingAddress: string)

  /** `orders.map(order => order.id === orderId ? { ...order, status } : order)`. */
  function WithStatus(rows: seq<Row>, id: nat, status: OrderStatus): (r: seq<Row>)
    ensures |r| == |rows|
  {
    if rows == [] then []
    else [if rows[0].id == id then rows[0].(status := status) else rows[0]] + WithStatus(rows[1..], id, status)
  }

  /** Only the rows with the given id change, and in them only the status. */
  lemma {:induction false} WithStatusEffect(rows: seq<Row>, id: nat, status: OrderStatus)
    ensures forall i :: 0 <= i < |rows| ==>
      var r := WithStatus(rows, id, status)[i];
      && r.id == rows[i].id && r.createdAt == rows[i].createdAt && r.total == rows[i].total
      && r.recipientName == rows[i].recipientName && r.recipientPhone == rows[i].recipientPhone
      && r.shippingAddress == rows[i].shippingAddress
      && r.status == (if rows[i].id == id then status else rows[i].status)
  {
    if rows != [] {
      WithStatusEffect(rows[1..], id, status);
      var r := WithStatus(rows, id, status);
      forall i | 1 <= i < |rows| ensures r[i] == WithStatus(rows[1..], id, status)[i - 1] && rows[i] == rows[1..][i - 1] {
      }
    }
  }

  /** An id not in the table leaves it as it is. */
  lemma {:induction false} WithStatusAbsent(rows: seq<Row>, id: nat, status: OrderStatus)
    requires forall i :: 0 <= i < |rows| ==> rows[i].id != id
    ensures WithStatus(rows, id, status) == rows
  {
    if rows != [] {
      WithStatusAbsent(rows[1..], id, status);
      assert rows == [rows[0]] + rows[1..];
    }
  }

  /** The second of two updates of the same order wins. */
  lemma {:induction false} LastUpdateWins(rows: seq<Row>, id: nat, first: OrderStatus, second: OrderStatus)
    ensures WithStatus(WithStatus(rows, id, first), id, second) == WithStatus(rows, id, second)
  {
    if rows != [] {
      LastUpdateWins(rows[1..], id, first, second);
      var once := WithStatus(rows, id, first);
      assert once[1..] == WithStatus(rows[1..], id, first);
    }
  }

  /** The per-row action: confirm, start shipping, confirm delivery, or nothing. */
  function NextStep(status: OrderStatus): (r: Option<OrderStatus>)
    ensures r.Some? ==> r.value != status && r.value != Pending && r.value != Cancelled && r.value != Success
    ensures status == Delivered || status == Cancelled || status == Success ==> r.None?
  {
    match status
    case Pending => Some(Processing)
    case Processing => Some(Shipping)
    case Shipping => Some(Delivered)
    case _ => None
  }

  /** The fulfilment path the actions walk. */
  const FulfilmentPath: seq<OrderStatus> := [Pending, Processing, Shipping, Delivered]

  /** Each action moves one place along the path; off the path or at its end there is none. */
  lemma NextStepFollowsPath(status: OrderStatus)
    ensures NextStep(status).Some? <==> status in FulfilmentPath[..3]
    ensures forall i :: 0 <= i < 3 && FulfilmentPath[i] == status ==> NextStep(status) == Some(FulfilmentPath[i + 1])
  {
    assert FulfilmentPath[..3] == [Pending, Processing, Shipping];
  }

  /** Following the actions from a new order reaches delivery in three steps and then stops. */
  lemma PendingToDelivered()
    ensures NextStep(Pending) == Some(Processing)
    ensures NextStep(NextStep(Pending).value) == Some(Shipping)
    ensures NextStep(NextStep(NextStep(Pending).value).value) == Some(Delivered)
    ensures NextStep(Delivered) == None && NextStep(Cancelled) == None
  {
  }

  /** The entries of the status badge menu, in their order. */
  const MenuStatuses: seq<OrderStatus> := [Pending, Processing, Shipping, Delivered, Cancelled]

  /** The menu offers every status but `Success`, whatever the row's current status. */
  lemma MenuOffersAnyStatus(status: OrderStatus)
    ensures status in MenuStatuses <==> status != Success
  {
  }

  class Table {
    var orders: seq<Row>

    /**
     * `handleUpdateStatus`; `accepted` is whether the server answers with an
     * ok status. Only then does the local list change.
     */
    method HandleUpdateStatus(id: nat, status: OrderStatus, accepted: bool)
      modifies this`orders
      ensures orders == if accepted then WithStatus(old(orders), id, status) else old(orders)
    {
      if !accepted {
        return;
      }
      orders := WithStatus(orders, id, status);
    }
  }
}
