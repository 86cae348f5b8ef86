/** The client's order form: an address, free-text notes and a list of
    product rows edited as text, validated before the create request is
    built. */
module OrderForm {
  import opened Wrappers
  import Text

  /** One product row as typed: both fields are text. */
  datatype Row = Row(name: string, quantity: string)

  datatype Field = Name | Quantity

  const EmptyRow := Row("", "")

  /** The web branch's messages, with 1-based row numbers. */
  datatype FormError =
    | MissingAddress
    | MissingName(row: nat)
    | MissingQuantity(row: nat)
    | QuantityBelowOne(row: nat)

  /** What the web check says about one row shown as row `number`. */
  function RowProblem(r: Row, number: nat): (e: Option<FormError>)
    ensures e.Some? ==> !e.value.MissingAddress? && e.value.row == number
  {
    if r.name == "" then Some(MissingName(number))
    else if r.quantity == "" then Some(MissingQuantity(number))
    else match Text.ParseInt(r.quantity)
      case None => Some(QuantityBelowOne(number))
      case Some(q) => if q < 1 then Some(QuantityBelowOne(number)) else None
  }

  /** A row the web check lets through: named, and its quantity parses to at least 1. */
  predicate RowOk(r: Row) {
    r.name != "" && r.quantity != "" && Text.ParseInt(r.quantity).Some? && Text.ParseInt(r.quantity).value >= 1
  }

  lemma RowProblemNoneIffOk(r: Row, number: nat)
    ensures RowProblem(r, number).None? <==> RowOk(r)
  {
  }

  /** The web branch accepts the form. */
  predicate WebAccepts(address: string, rows: seq<Row>) {
    address != "" && forall i :: 0 <= i < |rows| ==> RowOk(rows[i])
  }

  /** The native branch rejects a row only when a field is empty or the
      quantity parses to a number below 1: a quantity that does not parse
      at all compares false with 1 and gets through. */
  predicate NativeRowRejected(r: Row) {
    r.name == "" || r.quantity == "" || (Text.ParseInt(r.quantity).Some? && Text.ParseInt(r.quantity).value < 1)
  }

  predicate NativeAccepts(address: string, rows: seq<Row>) {
    address != "" && !(exists i :: 0 <= i < |rows| && NativeRowRejected(rows[i]))
  }

  /** Whatever the rows hold, a form the web branch accepts is accepted by
      the native branch too. */
  lemma WebAcceptsThenNativeAccepts(address: string, rows: seq<Row>)
    requires WebAccepts(address, rows)
    ensures NativeAccepts(address, rows)
  {
    forall i | 0 <= i < |rows| ensures !NativeRowRejected(rows[i]) {
      assert RowOk(rows[i]);
    }
  }

  /** With quantities typed through the digit filter, both branches accept
      exactly the same forms. */
  lemma BranchesAgreeOnDigits(address: string, rows: seq<Row>)
    requires forall i :: 0 <= i < |rows| ==> Text.AllDigits(rows[i].quantity)
    ensures WebAccepts(address, rows) <==> NativeAccepts(address, rows)
  {
    if NativeAccepts(address, rows) {
      forall i | 0 <= i < |rows| ensures RowOk(rows[i]) {
        assert !NativeRowRejected(rows[i]);
        Text.ParseIntOfDigits(rows[i].quantity);
      }
    } else if WebAccepts(address, rows) {
      WebAcceptsThenNativeAccepts(address, rows);
    }
  }

  /** The two branches part ways on a quantity with no digits in it. */
  lemma NativeAcceptsUnparsedQuantity()
    ensures NativeAccepts("Polna 1", [Row("Mleko", "x")])
    ensures !WebAccepts("Polna 1", [Row("Mleko", "x")])
  {
    var r := Row("Mleko", "x");
    assert Text.DigitPrefix("x") == [];
    assert !NativeRowRejected(r);
    assert [r][0] == r && !RowOk(r);
  }

  /** One entry of the request's `items`: `parseInt` of the text, `None`
      standing for NaN. */
  datatype PayloadItem = PayloadItem(name: string, quantity: Option<int>)

  /** `items.map(i => ({ name: i.name, quantity: parseInt(i.quantity) }))`. */
  function Payload(rows: seq<Row>): (p: seq<PayloadItem>)
    ensures |p| == |rows|
    ensures forall i :: 0 <= i < |rows| ==> p[i].name == rows[i].name
  {
    if rows == [] then []
    else [PayloadItem(rows[0].name, Text.ParseInt(rows[0].quantity))] + Payload(rows[1..])
  }

  lemma {:induction false} PayloadAt(rows: seq<Row>, i: nat)
    requires i < |rows|
    ensures Payload(rows)[i].quantity == Text.ParseInt(rows[i].quantity)
  {
    if i > 0 {
      PayloadAt(rows[1..], i - 1);
    }
  }

  /** Every quantity of a payload the web branch let through is a number of at least 1. */
  lemma AcceptedPayloadQuantities(address: string, rows: seq<Row>)
    requires WebAccepts(address, rows)
    ensures forall i :: 0 <= i < |rows| ==>
      Payload(rows)[i].quantity.Some? && Payload(rows)[i].quantity.value >= 1
  {
    forall i | 0 <= i < |rows|
      ensures Payload(rows)[i].quantity.Some? && Payload(rows)[i].quantity.value >= 1
    {
      PayloadAt(rows, i);
      assert RowOk(rows[i]);
    }
  }

  /** The body of `POST /deliveries` as the form builds it. */
  datatype CreateRequest = CreateRequest(address: string, date: string, notes: string, items: seq<PayloadItem>)

  class Form {
    var address: string
    var notes: string
    var rows: seq<Row>

    /** The row list is never empty. */
    ghost predicate Valid()
      reads this
    {
      |rows| >= 1
    }

    constructor ()
      ensures Valid()
      ensures address == "" && notes == "" && rows == [EmptyRow]
    {
      address := "";
      notes := "";
      rows := [EmptyRow];
    }

    /** `addItem`: one empty row more at the end. */
    method AddItem()
      requires Valid()
      modifies this`rows
      ensures Valid()
      ensures |rows| == |old(rows)| + 1
      ensures rows[..|old(rows)|] == old(rows) && rows[|old(rows)|] == EmptyRow
    {
      rows := rows + [EmptyRow];
    }

    /** `updateItem(index, field, value)`: only that field of that row changes. */
    method UpdateItem(index: nat, field: Field, value: string)
      requires Valid() && index < |rows|
      modifies this`rows
      ensures Valid()
      ensures |rows| == |old(rows)|
      ensures forall i :: 0 <= i < |rows| && i != index ==> rows[i] == old(rows)[i]
      ensures field == Name ==> rows[index] == old(rows)[index].(name := value)
      ensures field == Quantity ==> rows[index] == old(rows)[index].(quantity := value)
    {
      var row := rows[index];
      match field {
        case Name => row := row.(name := value);
        case Quantity => row := row.(quantity := value);
      }
      rows := rows[index := row];
    }

    /** The quantity input: what is typed reaches the row with only its digits. */
    method EditQuantity(index: nat, text: string)
      requires Valid() && index < |rows|
      modifies this`rows
      ensures Valid()
      ensures rows == old(rows)[index := old(rows)[index].(quantity := Text.DigitsOnly(text))]
      ensures Text.AllDigits(rows[index].quantity)
    {
      UpdateItem(index, Quantity, Text.DigitsOnly(text));
    }

    /** `removeItem(index)`: with more than one row, exactly the row at
        `index` goes (none when `index` is past the end); the last
        remaining row can never be removed. */
    method RemoveItem(index: nat)
      requires Valid()
      modifies this`rows
      ensures Valid()
      ensures |old(rows)| > 1 && index < |old(rows)| ==> rows == old(rows)[..index] + old(rows)[index + 1..]
      ensures |old(rows)| <= 1 || index >= |old(rows)| ==> rows == old(rows)
    {
      if |rows| > 1 && index < |rows| {
        rows := rows[..index] + rows[index + 1..];
      }
    }

    /** The web branch of `handleCreate`: the missing address first, then
        the rows in order, reporting the first bad one by its 1-based number. */
    method ValidateWeb() returns (err: Option<FormError>)
      ensures address == "" <==> err == Some(MissingAddress)
      ensures err.None? <==> WebAccepts(address, rows)
      ensures address != "" && err.Some? ==>
        exists i :: 0 <= i < |rows| && err == RowProblem(rows[i], i + 1)
          && forall j :: 0 <= j < i ==> RowOk(rows[j])
    {
      if address == "" {
        return Some(MissingAddress);
      }
      var i := 0;
      while i < |rows|
        invariant 0 <= i <= |rows|
        invariant forall j :: 0 <= j < i ==> RowOk(rows[j])
      {
        var problem := RowProblem(rows[i], i + 1);
        if problem.Some? {
          RowProblemNoneIffOk(rows[i], i + 1);
          return problem;
        }
        RowProblemNoneIffOk(rows[i], i + 1);
        i := i + 1;
      }
      return None;
    }

    /** `handleCreate` up to the request: nothing is sent when the branch's
        check fails; otherwise the body carries the address, today's date,
        the notes and one item per row in row order. */
    method Submit(isWeb: bool, today: string) returns (request: Option<CreateRequest>)
      ensures isWeb ==> (request.Some? <==> WebAccepts(address, rows))
      ensures !isWeb ==> (request.Some? <==> NativeAccepts(address, rows))
      ensures request.Some? ==> request.value == CreateRequest(address, today, notes, Payload(rows))
    {
      if isWeb {
        var err := ValidateWeb();
        if err.Some? {
          return None;
        }
      } else if !NativeAccepts(address, rows) {
        return None;
      }
      request := Some(CreateRequest(address, today, notes, Payload(rows)));
    }
  }
}
