/** The courier's delivery-confirmation screen: one text entry per item of
    the delivery, pre-filled with what is left to deliver, filtered to
    digits and clamped as the courier types, then sent as the pending
    quantities of an items patch followed by the completion request. */
module Confirmation {
  import opened Wrappers
  import opened Domain
  import Text
  import Reconcile

  /** An item of the fetched delivery, as far as the screen reads it. */
  datatype ItemView = ItemView(id: int, quantity: int, delivered: int)

  /** `p.quantity - (p.delivered_quantity || 0)`. */
  function Remaining(p: ItemView): int {
    p.quantity - p.delivered
  }

  /** The two requests the screen sends, in the order it sends them. */
  datatype Request =
    | PatchItems(delivery: int, updates: seq<PendingUpdate>)
    | CompleteDelivery(delivery: int, status: string, notes: string)

  predicate DistinctIds(items: seq<ItemView>) {
    forall i, j :: 0 <= i < j < |items| ==> items[i].id != items[j].id
  }

  function IdsOf(items: seq<ItemView>): set<int> {
    set i | 0 <= i < |items| :: items[i].id
  }

  /** `delivery.items.find(p => p.id === id)`, as the index of the first match. */
  function Find(items: seq<ItemView>, id: int): (r: Option<nat>)
    ensures r.None? <==> forall i :: 0 <= i < |items| ==> items[i].id != id
    ensures r.Some? ==> (r.value < |items| && items[r.value].id == id
      && forall i :: 0 <= i < r.value ==> items[i].id != id)
  {
    if items == [] then None
    else if items[0].id == id then Some(0)
    else match Find(items[1..], id)
      case None => None
      case Some(i) => Some(i + 1)
  }

  /** The text `handleQuantityChange` stores for an entry: the digits of what
      was typed, or the remaining quantity written out when those digits
      denote more than that. */
  function ClampEntry(text: string, remaining: int): (r: string)
    ensures r == Text.DigitsOnly(text) || r == Text.IntToString(remaining)
  {
    var cleaned := Text.DigitsOnly(text);
    match Text.ParseInt(cleaned)
    case Some(n) => if n > remaining then Text.IntToString(remaining) else cleaned
    case None => cleaned
  }

  /** Typed digits that fit the remaining quantity are kept as typed; digits
      beyond it become the remaining quantity. */
  lemma ClampEntryCases(text: string, remaining: int)
    ensures var cleaned := Text.DigitsOnly(text);
      ClampEntry(text, remaining) ==
        if cleaned != [] && Text.DigitsValue(cleaned) > remaining then Text.IntToString(remaining) else cleaned
  {
    Text.ParseIntOfDigits(Text.DigitsOnly(text));
  }

  /** Whatever is typed, the entry then sends a quantity between 0 and what
      is left to deliver, as long as something is left. */
  lemma ClampEntryWithinRemaining(text: string, remaining: int)
    requires remaining >= 0
    ensures 0 <= Text.ParseOrZero(ClampEntry(text, remaining)) <= remaining
  {
    var cleaned := Text.DigitsOnly(text);
    Text.ParseIntOfDigits(cleaned);
    Text.ParseIntOfString(remaining);
  }

  /** Taking one more item adds its id to the ids seen so far. */
  lemma IdsOfNext(items: seq<ItemView>, n: nat)
    requires n < |items|
    ensures IdsOf(items[..n + 1]) == IdsOf(items[..n]) + {items[n].id}
  {
    var before, after := items[..n], items[..n + 1];
    forall x | x in IdsOf(after) ensures x in IdsOf(before) + {items[n].id} {
      var j :| 0 <= j < n + 1 && after[j].id == x;
      if j < n {
        assert before[j] == after[j];
      }
    }
    forall x | x in IdsOf(before) ensures x in IdsOf(after) {
      var j :| 0 <= j < n && before[j].id == x;
      assert after[j] == before[j];
    }
    assert after[n] == items[n];
  }

  /** An item's first entry: its remaining quantity written out. */
  function InitialEntry(p: ItemView): string {
    Text.IntToString(Remaining(p))
  }

  /** The entries of the first `n` items are in place. */
  ghost predicate FilledUpTo(items: seq<ItemView>, n: nat, m: map<int, string>)
    requires n <= |items|
  {
    forall j :: 0 <= j < n ==> items[j].id in m && m[items[j].id] == InitialEntry(items[j])
  }

  lemma FillNext(items: seq<ItemView>, n: nat, m: map<int, string>, entry: string)
    requires DistinctIds(items) && n < |items| && FilledUpTo(items, n, m)
    requires entry == InitialEntry(items[n])
    ensures FilledUpTo(items, n + 1, m[items[n].id := entry])
  {
    var m' := m[items[n].id := entry];
    forall j | 0 <= j < n ensures items[j].id in m' && m'[items[j].id] == m[items[j].id] {
      assert items[j].id != items[n].id;
    }
  }

  /** The fetch's `forEach`: each item's entry starts as its remaining quantity. */
  method InitialQuantities(items: seq<ItemView>) returns (initial: map<int, string>)
    requires DistinctIds(items)
    ensures initial.Keys == IdsOf(items)
    ensures forall i :: 0 <= i < |items| ==> initial[items[i].id] == Text.IntToString(Remaining(items[i]))
  {
    initial := map[];
    var i := 0;
    while i < |items|
      invariant 0 <= i <= |items|
      invariant initial.Keys == IdsOf(items[..i])
      invariant FilledUpTo(items, i, initial)
    {
      var entry := InitialEntry(items[i]);
      FillNext(items, i, initial, entry);
      IdsOfNext(items, i);
      initial := initial[items[i].id := entry];
      i := i + 1;
    }
    assert items[..i] == items;
  }

  /** The `reduce` in `handleConfirm`: the sum of what each entry parses to,
      an unparseable entry counting 0. */
  function SumEntries(items: seq<ItemView>, quantities: map<int, string>): int
    requires IdsOf(items) <= quantities.Keys
  {
    if items == [] then 0
    else
      assert items[0].id in IdsOf(items);
      assert IdsOf(items[1..]) <= IdsOf(items);
      Text.ParseOrZero(quantities[items[0].id]) + SumEntries(items[1..], quantities)
  }

  /** The `itemsToUpdate` payload: one `{id, pending_quantity}` per entry, an
      unparseable entry sent as 0. */
  function Payload(items: seq<ItemView>, quantities: map<int, string>): (r: seq<PendingUpdate>)
    requires IdsOf(items) <= quantities.Keys
    ensures |r| == |items|
    ensures forall i :: 0 <= i < |items| ==> r[i].itemId == items[i].id
  {
    if items == [] then []
    else
      assert items[0].id in IdsOf(items);
      assert IdsOf(items[1..]) <= IdsOf(items);
      [PendingUpdate(items[0].id, Some(Text.ParseOrZero(quantities[items[0].id])))] + Payload(items[1..], quantities)
  }

  /** Each payload entry carries the parsed value of its item's text. */
  lemma {:induction false} PayloadAt(items: seq<ItemView>, quantities: map<int, string>, i: nat)
    requires IdsOf(items) <= quantities.Keys && i < |items|
    ensures items[i].id in quantities
    ensures Payload(items, quantities)[i] == PendingUpdate(items[i].id, Some(Text.ParseOrZero(quantities[items[i].id])))
  {
    assert items[i].id in IdsOf(items);
    if i > 0 {
      assert IdsOf(items[1..]) <= IdsOf(items);
      PayloadAt(items[1..], quantities, i - 1);
    }
  }

  /** Entries that each stay within their remaining quantity total at most
      what is left of the whole delivery, and at least 0. */
  lemma {:induction false} SumEntriesBounded(items: seq<ItemView>, quantities: map<int, string>)
    requires IdsOf(items) <= quantities.Keys
    requires forall i :: 0 <= i < |items| ==>
      Remaining(items[i]) >= 0 && 0 <= Text.ParseOrZero(quantities[items[i].id]) <= Remaining(items[i])
    ensures 0 <= SumEntries(items, quantities) <= SumRemaining(items)
  {
    if items != [] {
      assert IdsOf(items[1..]) <= IdsOf(items);
      assert items[0].id in IdsOf(items);
      assert forall i :: 1 <= i < |items| ==> items[1..][i - 1] == items[i];
      SumEntriesBounded(items[1..], quantities);
    }
  }

  function SumRemaining(items: seq<ItemView>): int {
    if items == [] then 0 else Remaining(items[0]) + SumRemaining(items[1..])
  }

  /** The screen's state after the delivery has been fetched. */
  class ConfirmationForm {
    const deliveryId: int
    const items: seq<ItemView>
    var quantities: map<int, string>

    /** One entry per item, and each item with something left to deliver has
        an entry that sends between 0 and that much. */
    ghost predicate Valid()
      reads this
    {
      && DistinctIds(items)
      && quantities.Keys == IdsOf(items)
      && (forall i :: 0 <= i < |items| && Remaining(items[i]) >= 0 ==>
            0 <= Text.ParseOrZero(quantities[items[i].id]) <= Remaining(items[i]))
    }

    constructor (deliveryId: int, items: seq<ItemView>)
      requires DistinctIds(items)
      ensures Valid()
      ensures this.deliveryId == deliveryId && this.items == items
      ensures forall i :: 0 <= i < |items| ==> quantities[items[i].id] == Text.IntToString(Remaining(items[i]))
    {
      this.deliveryId := deliveryId;
      this.items := items;
      var initial := InitialQuantities(items);
      new;
      quantities := initial;
      forall i | 0 <= i < |items| && Remaining(items[i]) >= 0
        ensures 0 <= Text.ParseOrZero(quantities[items[i].id]) <= Remaining(items[i])
      {
        Text.ParseIntOfString(Remaining(items[i]));
      }
    }

    /** `handleQuantityChange(id, text)`: an id that names no item leaves
        every entry as it is; otherwise only that item's entry changes, to
        the filtered and clamped text. */
    method ChangeQuantity(id: int, text: string)
      requires Valid()
      modifies this`quantities
      ensures Valid()
      ensures Find(items, id).None? ==> quantities == old(quantities)
      ensures Find(items, id).Some? ==>
        quantities == old(quantities)[id := ClampEntry(text, Remaining(items[Find(items, id).value]))]
    {
      var found := Find(items, id);
      if found.None? {
        return;
      }
      var item := items[found.value];
      var maxRemaining := Remaining(item);
      var cleaned := Text.DigitsOnly(text);
      var numVal := Text.ParseInt(cleaned);
      if numVal.Some? && numVal.value > maxRemaining {
        cleaned := Text.IntToString(maxRemaining);
      }
      quantities := quantities[id := cleaned];
      forall i | 0 <= i < |items| && Remaining(items[i]) >= 0
        ensures 0 <= Text.ParseOrZero(quantities[items[i].id]) <= Remaining(items[i])
      {
        if items[i].id == id {
          assert i == found.value;
          ClampEntryWithinRemaining(text, maxRemaining);
        }
      }
    }

    /** `totalPending` in `handleConfirm`: never more than what is left of
        the whole delivery, and never negative, while no item is over-delivered. */
    function Total(): (r: int)
      reads this
      requires Valid()
      ensures (forall i :: 0 <= i < |items| ==> Remaining(items[i]) >= 0) ==> 0 <= r <= SumRemaining(items)
    {
      if forall i :: 0 <= i < |items| ==> Remaining(items[i]) >= 0 then
        SumEntriesBounded(items, quantities);
        SumEntries(items, quantities)
      else
        SumEntries(items, quantities)
    }

    /** `handleConfirm`: nothing is sent while the total is not positive, or
        when the web user cancels the confirmation prompt; otherwise the
        items patch goes first and the completion request second. */
    method Confirm(isWeb: bool, userAccepts: bool, notes: string) returns (requests: seq<Request>)
      requires Valid()
      ensures Total() <= 0 ==> requests == []
      ensures Total() > 0 && isWeb && !userAccepts ==> requests == []
      ensures Total() > 0 && (!isWeb || userAccepts) ==> (requests ==
        [PatchItems(deliveryId, Payload(items, quantities)), CompleteDelivery(deliveryId, "waiting_for_client", notes)])
    {
      var total := SumEntries(items, quantities);
      if total <= 0 {
        return [];
      }
      if isWeb && !userAccepts {
        return [];
      }
      var itemsToUpdate := Payload(items, quantities);
      requests := [PatchItems(deliveryId, itemsToUpdate), CompleteDelivery(deliveryId, "waiting_for_client", notes)];
    }
  }

  /** Where the server's bound comes from: when the screen shows the server's
      own quantities, no item is over-delivered and no pending quantity is
      negative, the patch it sends keeps every item within its order. */
  lemma PayloadKeepsBound(items: seq<ItemView>, quantities: map<int, string>, rows: map<int, Item>)
    requires DistinctIds(items) && quantities.Keys == IdsOf(items)
    requires forall i :: 0 <= i < |items| && Remaining(items[i]) >= 0 ==>
      0 <= Text.ParseOrZero(quantities[items[i].id]) <= Remaining(items[i])
    requires forall i :: 0 <= i < |items| && items[i].id in rows ==>
      rows[items[i].id].quantity == items[i].quantity && rows[items[i].id].delivered == items[i].delivered
    requires Reconcile.AllWithinOrder(rows)
    requires forall k :: k in rows ==> rows[k].pending >= 0
    ensures Reconcile.AllWithinOrder(Reconcile.ApplyPending(rows, Payload(items, quantities)))
  {
    var us := Payload(items, quantities);
    forall j | 0 <= j < |us| && us[j].itemId in rows
      ensures rows[us[j].itemId].delivered + us[j].pending.GetOr(0) <= rows[us[j].itemId].quantity
    {
      PayloadAt(items, quantities, j);
      assert Reconcile.WithinOrder(rows[items[j].id]);
    }
    Reconcile.PatchKeepsBound(rows, us);
  }
}
