/** Quantity reconciliation on the `delivery_items` table: the courier's
    items patch, the client's confirmation, and the `SUM(delivered_quantity)`
    that unassignment reads. The item table is a map from item id to row. */
module Reconcile {
  import opened Wrappers
  import opened Domain

  // ------------------------------------------------------------ items patch

  /** `stmt.run(item.pending_quantity || 0, item.id)`: one UPDATE by item id.
      An id that names no row changes nothing. */
  function SetPending(items: map<int, Item>, u: PendingUpdate): (r: map<int, Item>)
    ensures r.Keys == items.Keys
    ensures forall k :: k in items && k != u.itemId ==> r[k] == items[k]
    ensures u.itemId in items ==> r[u.itemId] == items[u.itemId].(pending := u.pending.GetOr(0))
  {
    if u.itemId in items then items[u.itemId := items[u.itemId].(pending := u.pending.GetOr(0))]
    else items
  }

  /** The updates of one patch, run in order. */
  function ApplyPending(items: map<int, Item>, us: seq<PendingUpdate>): (r: map<int, Item>)
    ensures r.Keys == items.Keys
    ensures forall k :: k in r ==> r[k].delivery == items[k].delivery
  {
    if us == [] then items else SetPending(ApplyPending(items, us[..|us| - 1]), us[|us| - 1])
  }

  /** One more update runs after the ones before it. */
  lemma ApplyPendingSnoc(items: map<int, Item>, us: seq<PendingUpdate>, u: PendingUpdate)
    ensures ApplyPending(items, us + [u]) == SetPending(ApplyPending(items, us), u)
  {
    assert (us + [u])[..|us|] == us;
  }

  /** The value the last update naming `id` writes, if any update names it. */
  function LastPendingFor(us: seq<PendingUpdate>, id: int): (r: Option<int>)
    ensures r.None? <==> forall j :: 0 <= j < |us| ==> us[j].itemId != id
    ensures r.Some? ==> exists j :: (0 <= j < |us| && us[j].itemId == id && r.value == us[j].pending.GetOr(0)
      && forall j' :: j < j' < |us| ==> us[j'].itemId != id)
  {
    if us == [] then None
    else if us[|us| - 1].itemId == id then Some(us[|us| - 1].pending.GetOr(0))
    else LastPendingFor(us[..|us| - 1], id)
  }

  /** After a patch, each item named in it holds the value of the last update
      naming it (0 for a missing value); every other field, and every item the
      patch does not name, is unchanged. */
  lemma {:induction false} ApplyPendingAt(items: map<int, Item>, us: seq<PendingUpdate>, id: int)
    requires id in items
    ensures ApplyPending(items, us)[id] == items[id].(pending := LastPendingFor(us, id).GetOr(items[id].pending))
  {
    if us != [] {
      ApplyPendingAt(items, us[..|us| - 1], id);
    }
  }

  /** The bound an item row should respect, which the server itself never
      enforces: what is delivered or awaiting confirmation fits the order. */
  predicate WithinOrder(it: Item) {
    it.delivered + it.pending <= it.quantity
  }

  predicate AllWithinOrder(items: map<int, Item>) {
    forall k :: k in items ==> WithinOrder(items[k])
  }

  /** A patch keeps every item within its order provided each value it sends
      fits what is left to deliver of the item it names. */
  lemma PatchKeepsBound(items: map<int, Item>, us: seq<PendingUpdate>)
    requires AllWithinOrder(items)
    requires forall j :: 0 <= j < |us| && us[j].itemId in items ==>
      items[us[j].itemId].delivered + us[j].pending.GetOr(0) <= items[us[j].itemId].quantity
    ensures AllWithinOrder(ApplyPending(items, us))
  {
    forall k | k in items
      ensures WithinOrder(ApplyPending(items, us)[k])
    {
      ApplyPendingAt(items, us, k);
    }
  }

  /** Without that proviso the bound is lost: the server stores whatever
      value it is sent. */
  lemma PatchCanOverfill()
    ensures var items := map[1 := Item(7, "Mleko", 10, 0, 0)];
      && AllWithinOrder(items)
      && !AllWithinOrder(ApplyPending(items, [PendingUpdate(1, Some(11))]))
  {
    var items := map[1 := Item(7, "Mleko", 10, 0, 0)];
    var us := [PendingUpdate(1, Some(11))];
    assert us[..0] == [];
    assert ApplyPending(items, us)[1].pending == 11;
  }

  // --------------------------------------------------------- client confirm

  /** One row of the confirmation's UPDATE: the pending quantity moves into
      the delivered one, and nothing is lost or gained. */
  function Confirmed(it: Item): (r: Item)
    ensures r.delivered + r.pending == it.delivered + it.pending && r.pending == 0
    ensures r.delivery == it.delivery && r.name == it.name && r.quantity == it.quantity
  {
    it.(delivered := it.delivered + it.pending, pending := 0)
  }

  /** The item table after confirming delivery `d`. */
  function ConfirmItems(items: map<int, Item>, d: int): (r: map<int, Item>)
    ensures r.Keys == items.Keys
    ensures forall k :: k in r ==> r[k].delivery == items[k].delivery
  {
    map k | k in items :: if items[k].delivery == d then Confirmed(items[k]) else items[k]
  }

  /** No item of `d` ends below its ordered quantity (`isFullyDelivered`). */
  predicate FullyDelivered(items: map<int, Item>, d: int) {
    forall k :: k in items && items[k].delivery == d ==> !(items[k].delivered + items[k].pending < items[k].quantity)
  }

  /** The status the confirmation writes. */
  function ConfirmStatus(items: map<int, Item>, d: int): (r: Status)
    ensures r == Delivered || r == Assigned
  {
    if FullyDelivered(items, d) then Delivered else Assigned
  }

  /** Confirmation settles every pending quantity of the delivery, and the
      status is `delivered` exactly when every one of its items has reached
      its ordered quantity; a delivery without items is therefore delivered. */
  lemma ConfirmOutcome(items: map<int, Item>, d: int)
    ensures forall k :: k in items && items[k].delivery == d ==> ConfirmItems(items, d)[k].pending == 0
    ensures ConfirmStatus(items, d) == Delivered <==>
      forall k :: k in items && items[k].delivery == d ==> ConfirmItems(items, d)[k].delivered >= items[k].quantity
    ensures (forall k :: k in items ==> items[k].delivery != d) ==> ConfirmStatus(items, d) == Delivered
  {
  }

  /** Within the bound, `delivered` means every item of the delivery was
      delivered in exactly the ordered quantity, and the bound still holds. */
  lemma ConfirmKeepsBound(items: map<int, Item>, d: int)
    requires AllWithinOrder(items)
    ensures AllWithinOrder(ConfirmItems(items, d))
    ensures ConfirmStatus(items, d) == Delivered <==>
      forall k :: k in items && items[k].delivery == d ==> ConfirmItems(items, d)[k].delivered == items[k].quantity
  {
    forall k | k in items
      ensures WithinOrder(ConfirmItems(items, d)[k])
    {
      assert WithinOrder(items[k]);
    }
  }

  /** Confirming twice leaves the items and the status as the first
      confirmation did, since every pending quantity is already 0; only another
      receipt note is appended. */
  lemma ConfirmTwice(items: map<int, Item>, d: int)
    ensures ConfirmItems(ConfirmItems(items, d), d) == ConfirmItems(items, d)
  {
    var once := ConfirmItems(items, d);
    forall k | k in once
      ensures ConfirmItems(once, d)[k] == once[k]
    {
    }
  }

  /** The confirmation's `forEach` over the delivery's item rows: each row is
      rewritten with delivered + pending and pending 0, and the flag is
      cleared by any row that ends short of its order. */
  method ConfirmRows(items: map<int, Item>, d: int) returns (after: map<int, Item>, full: bool)
    ensures after == ConfirmItems(items, d)
    ensures full == FullyDelivered(items, d)
  {
    after := items;
    full := true;
    var todo := set k | k in items && items[k].delivery == d;
    ghost var done: set<int> := {};
    while exists k :: k in todo
      invariant todo <= items.Keys && done <= items.Keys && todo !! done
      invariant forall k :: k in todo ==> items[k].delivery == d
      invariant forall k :: k in done ==> items[k].delivery == d
      invariant forall k :: k in items && items[k].delivery == d ==> k in todo || k in done
      invariant after.Keys == items.Keys
      invariant forall k :: k in items ==> after[k] == if k in done then Confirmed(items[k]) else items[k]
      invariant full <==> forall k :: k in done ==> !(items[k].delivered + items[k].pending < items[k].quantity)
      decreases todo
    {
      var k :| k in todo;
      var row := after[k];
      var newDelivered := row.delivered + row.pending;
      if newDelivered < row.quantity {
        full := false;
      }
      after := after[k := row.(delivered := newDelivered, pending := 0)];
      todo := todo - {k};
      done := done + {k};
    }
    forall k | k in items
      ensures after[k] == ConfirmItems(items, d)[k]
      ensures items[k].delivery == d ==> k in done
    {
      assert k !in todo;
    }
  }

  // ---------------------------------------------------- delivered quantity

  function Contribution(it: Item, d: int): int {
    if it.delivery == d then it.delivered else 0
  }

  /** `SELECT SUM(delivered_quantity) FROM delivery_items WHERE delivery_id = d`
      (an empty sum, which SQL reports as NULL, is 0 here: neither exceeds 0). */
  ghost function DeliveredSum(items: map<int, Item>, d: int): (r: int)
    ensures (forall k :: k in items ==> items[k].delivery != d) ==> r == 0
    decreases |items|
  {
    if forall k :: k !in items then 0
    else
      var k :| k in items;
      Contribution(items[k], d) + DeliveredSum(items - {k}, d)
  }

  /** The sum does not depend on the order rows are added in. */
  lemma {:induction false} DeliveredSumRemove(items: map<int, Item>, d: int, k: int)
    requires k in items
    ensures DeliveredSum(items, d) == Contribution(items[k], d) + DeliveredSum(items - {k}, d)
    decreases |items|
  {
    var j :| j in items && DeliveredSum(items, d) == Contribution(items[j], d) + DeliveredSum(items - {j}, d);
    if j != k {
      var rest := items - {j} - {k};
      assert items - {j} - {k} == items - {k} - {j};
      assert |items - {j}| < |items|;
      assert |items - {k}| < |items|;
      DeliveredSumRemove(items - {j}, d, k);
      DeliveredSumRemove(items - {k}, d, j);
    }
  }

  /** The SUM can be 0 although something was delivered: a negative
      pending quantity, which the patch stores as sent, becomes a negative
      delivered quantity on confirmation and cancels a positive one. */
  lemma DeliveredSumCanCancel(d: int)
    ensures var items := map[1 := Item(d, "Mleko", 5, 5, 0), 2 := Item(d, "Chleb", 5, -5, 0)];
      && items[1].delivered > 0
      && DeliveredSum(items, d) == 0
  {
    var items := map[1 := Item(d, "Mleko", 5, 5, 0), 2 := Item(d, "Chleb", 5, -5, 0)];
    DeliveredSumRemove(items, d, 1);
    var rest := items - {1};
    DeliveredSumRemove(rest, d, 2);
    assert forall k :: k !in rest - {2};
  }

  /** The sum, computed one row at a time as the database does. */
  method DeliveredTotal(items: map<int, Item>, d: int) returns (total: int)
    ensures total == DeliveredSum(items, d)
  {
    total := 0;
    var rest := items;
    while exists k :: k in rest
      invariant total + DeliveredSum(rest, d) == DeliveredSum(items, d)
      decreases |rest|
    {
      var k :| k in rest;
      DeliveredSumRemove(rest, d, k);
      total := total + Contribution(rest[k], d);
      rest := rest - {k};
    }
  }

  /** While no delivered quantity is negative, the sum exceeds 0 exactly when
      some item of the delivery has a delivered quantity above 0. */
  lemma {:induction false} DeliveredSumPositive(items: map<int, Item>, d: int)
    requires forall k :: k in items ==> items[k].delivered >= 0
    ensures DeliveredSum(items, d) >= 0
    ensures DeliveredSum(items, d) > 0 <==> exists k :: k in items && items[k].delivery == d && items[k].delivered > 0
    decreases |items|
  {
    if exists k :: k in items {
      var k :| k in items;
      DeliveredSumRemove(items, d, k);
      assert |items - {k}| < |items|;
      DeliveredSumPositive(items - {k}, d);
      if DeliveredSum(items - {k}, d) > 0 {
        var j :| j in items - {k} && (items - {k})[j].delivery == d && (items - {k})[j].delivered > 0;
        assert j in items && items[j].delivery == d && items[j].delivered > 0;
      }
      if exists j :: j in items && items[j].delivery == d && items[j].delivered > 0 {
        var j :| j in items && items[j].delivery == d && items[j].delivered > 0;
        if j != k {
          assert j in items - {k} && (items - {k})[j] == items[j];
        }
      }
    }
  }
}
