/** The round trips the system is meant to support, replayed request by
    request against the store. Identities stand for verified bearer tokens;
    timestamps and dates are arbitrary strings. */
module Scenarios {
  import opened Wrappers
  import opened Domain
  import Store
  import Confirmation
  import Text

  const Anna := Identity(1, "anna", Client, "Anna")
  const Piotr := Identity(2, "piotr", Courier, "Piotr")

  /** A fresh store holding one delivery of the given quantity of milk,
      created by Anna and taken by Piotr; the delivery and its item both get id 1. */
  method AssignedMilk(quantity: int) returns (s: Store.DeliveryStore)
    ensures fresh(s) && s.Valid()
    ensures 1 in s.deliveries && s.deliveries[1].status == Assigned && s.deliveries[1].courier == Some(Piotr.id)
    ensures s.items == map[1 := Item(1, "Mleko", quantity, 0, 0)]
  {
    s := new Store.DeliveryStore();
    var news := [NewItem("Mleko", quantity)];
    var code, id := s.Create(Anna, "Polna 1", "2024-05-01", news, None, "D-1", "t0", "2024-05-02");
    var rows := Store.NewItemRows(news, 1, 1);
    assert news[0] == NewItem("Mleko", quantity);
    assert rows.Keys == {1} && rows[1 + 0] == Item(1, "Mleko", quantity, 0, 0);
    assert s.items == map[] + rows;
    assert s.items == map[1 := Item(1, "Mleko", quantity, 0, 0)];
    code := s.Assign(Piotr, id, "t1");
  }

  /** Milk 10 ordered, 10 reported, completed, confirmed: delivered in full. */
  method FullDelivery() returns (afterComplete: Status, afterConfirm: Status, delivered: int, pending: int)
    ensures afterComplete == WaitingForClient
    ensures afterConfirm == Delivered && delivered == 10 && pending == 0
  {
    var s := AssignedMilk(10);
    var code := s.PatchItems([PendingUpdate(1, Some(10))]);
    assert s.items == map[1 := Item(1, "Mleko", 10, 0, 10)];
    code := s.Complete(1, "delivered", None, "t2");
    afterComplete := s.deliveries[1].status;
    code := s.ClientConfirm(1, "t3");
    afterConfirm := s.deliveries[1].status;
    delivered, pending := s.items[1].delivered, s.items[1].pending;
  }

  /** 12 ordered, 10 reported and confirmed: back to `assigned`, 2 still open. */
  method PartialDelivery() returns (afterConfirm: Status, delivered: int, pending: int)
    ensures afterConfirm == Assigned && delivered == 10 && pending == 0
  {
    var s := AssignedMilk(12);
    var code := s.PatchItems([PendingUpdate(1, Some(10))]);
    assert s.items == map[1 := Item(1, "Mleko", 12, 0, 10)];
    code := s.Complete(1, "delivered", None, "t2");
    code := s.ClientConfirm(1, "t3");
    assert s.items[1].delivered < s.items[1].quantity;
    afterConfirm := s.deliveries[1].status;
    delivered, pending := s.items[1].delivered, s.items[1].pending;
  }

  /** A report puts the delivery in dispute; resolving hands it back to the client. */
  method Dispute() returns (afterReport: Status, afterResolve: Status)
    ensures afterReport == Disputed && afterResolve == WaitingForClient
  {
    var s := AssignedMilk(10);
    var code := s.Complete(1, "delivered", None, "t2");
    code := s.ReportProblem(1, Some("Brak jednej butelki"), "t3");
    afterReport := s.deliveries[1].status;
    code := s.ResolveProblem(1);
    afterResolve := s.deliveries[1].status;
  }

  /** A blocked user cannot log in even with the right password; once
      unblocked, they can. An admin cannot block their own account. */
  method Blocking() returns (blocked: int, unblocked: int, self: int)
    ensures blocked == 403 && unblocked == 200 && self == 400
  {
    var s := new Store.DeliveryStore();
    var code := s.Register("ewa", "h", "Ewa", "client");
    assert s.users == map[1 := User("ewa", "h", Client, "Ewa", true)];
    var admin := Identity(9, "root", Admin, "Root");
    var rightPassword := (password: string, hash: string) => true;
    code := s.Deactivate(admin, 1);
    assert s.users[1].username == "ewa";
    var who;
    blocked, who := s.Login("ewa", "secret", rightPassword);
    code := s.Reactivate(admin, 1);
    assert s.users[1].username == "ewa";
    unblocked, who := s.Login("ewa", "secret", rightPassword);
    self := s.Deactivate(admin, admin.id);
  }

  /** The courier types 15 where 12 are left: the entry becomes 12, and the
      confirmation sends 12 as pending before completing the delivery. */
  method CourierTypesTooMuch() returns (entry: string, requests: seq<Confirmation.Request>)
    ensures entry == "12"
    ensures requests == [
      Confirmation.PatchItems(1, [PendingUpdate(1, Some(12))]),
      Confirmation.CompleteDelivery(1, "waiting_for_client", "")]
  {
    var form := new Confirmation.ConfirmationForm(1, [Confirmation.ItemView(1, 12, 0)]);
    assert Text.DigitsOnly("15") == "15";
    assert Text.DigitsValue("15") == 15;
    Text.ParseIntOfDigits("15");
    assert Text.IntToString(12) == "12";
    form.ChangeQuantity(1, "15");
    entry := form.quantities[1];
    Text.ParseIntOfString(12);
    assert Text.ParseOrZero(entry) == 12;
    assert form.items[0].id == 1 && form.items[1..] == [];
    assert Confirmation.SumEntries(form.items[1..], form.quantities) == 0;
    assert Confirmation.SumEntries(form.items, form.quantities) == 12;
    assert Confirmation.Payload(form.items[1..], form.quantities) == [];
    assert Confirmation.Payload(form.items, form.quantities) == [PendingUpdate(1, Some(12))];
    requests := form.Confirm(false, false, "");
  }
}
