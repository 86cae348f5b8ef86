/** `GET /deliveries`: which rows each role sees (the WHERE clause chosen by
    role) and in what order (`ORDER BY d.date DESC`). */
module Visibility {
  import opened Wrappers
  import opened Domain
  import Text

  /** A client sees the deliveries they created; a courier sees the ones
      assigned to them and the open pool (`status = 'new'`); an admin sees
      everything. A NULL `courier_id` matches no courier. */
  predicate Visible(caller: Identity, d: Delivery) {
    match caller.role
    case Client => d.creator == caller.id
    case Courier => d.courier == Some(caller.id) || d.status == New
    case Admin => true
  }

  /** `rows` lists delivery ids of `ds` latest date first (ties in any order). */
  ghost predicate NewestFirst(rows: seq<int>, ds: map<int, Delivery>)
    requires forall i :: 0 <= i < |rows| ==> rows[i] in ds
  {
    forall i, j :: 0 <= i < j < |rows| ==> Text.TextLe(ds[rows[j]].date, ds[rows[i]].date)
  }

  /** Among deliveries that include `x` one has the latest date. */
  lemma {:induction false} LatestExists(candidates: set<int>, ds: map<int, Delivery>, x: int)
    requires candidates <= ds.Keys && x in candidates
    ensures exists m :: m in candidates && forall o :: o in candidates ==> Text.TextLe(ds[o].date, ds[m].date)
    decreases candidates
  {
    var others := candidates - {x};
    if exists y :: y in others {
      var y :| y in others;
      LatestExists(others, ds, y);
      var m :| m in others && forall o :: o in others ==> Text.TextLe(ds[o].date, ds[m].date);
      Text.TextLeTotal(ds[x].date, ds[m].date);
      if Text.TextLe(ds[x].date, ds[m].date) {
        assert forall o :: o in candidates ==> Text.TextLe(ds[o].date, ds[m].date);
      } else {
        forall o | o in candidates
          ensures Text.TextLe(ds[o].date, ds[x].date)
        {
          if o == x {
            Text.TextLeTotal(ds[x].date, ds[x].date);
          } else {
            Text.TextLeTransitive(ds[o].date, ds[m].date, ds[x].date);
          }
        }
      }
    } else {
      Text.TextLeTotal(ds[x].date, ds[x].date);
      forall o | o in candidates
        ensures o == x
      {
        assert o != x ==> o in others;
      }
    }
  }

  /** The rows `caller` is shown: each visible delivery exactly once, no
      other delivery, latest date first. */
  method ListFor(caller: Identity, ds: map<int, Delivery>) returns (rows: seq<int>)
    ensures forall i :: 0 <= i < |rows| ==> rows[i] in ds && Visible(caller, ds[rows[i]])
    ensures forall k :: k in ds && Visible(caller, ds[k]) ==> k in rows
    ensures forall i, j :: 0 <= i < j < |rows| ==> rows[i] != rows[j]
    ensures NewestFirst(rows, ds)
  {
    rows := [];
    var rest := set k | k in ds && Visible(caller, ds[k]);
    while exists k :: k in rest
      invariant rest <= ds.Keys
      invariant forall k :: k in rest ==> Visible(caller, ds[k])
      invariant forall i :: 0 <= i < |rows| ==> rows[i] in ds && Visible(caller, ds[rows[i]]) && rows[i] !in rest
      invariant forall k :: k in ds && Visible(caller, ds[k]) ==> k in rest || k in rows
      invariant forall i, j :: 0 <= i < j < |rows| ==> rows[i] != rows[j]
      invariant NewestFirst(rows, ds)
      invariant forall i, o :: 0 <= i < |rows| && o in rest ==> Text.TextLe(ds[o].date, ds[rows[i]].date)
      decreases rest
    {
      var some :| some in rest;
      LatestExists(rest, ds, some);
      var m :| m in rest && forall o :: o in rest ==> Text.TextLe(ds[o].date, ds[m].date);
      rows := rows + [m];
      rest := rest - {m};
    }
  }
}
