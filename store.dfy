/** The backend's handlers over one in-memory store of the three tables. Each
    method is one request, run to completion after the bearer token has been
    verified (see `Auth`); it returns the response status and updates the
    tables in place. Clock readings and formatted dates are parameters. */
module Store {
  import opened Wrappers
  import opened Domain
  import Text
  import Notes
  import Reconcile

  /** A `users` row as `GET /users` returns it: everything but the hash. */
  datatype UserRow = UserRow(username: string, name: string, role: Role, active: bool)

  /** The counts `GET /stats` reports. */
  datatype Stats = Stats(
    clients: nat,
    couriers: nat,
    blockedClients: nat,
    blockedCouriers: nat,
    deliveriesTotal: nat,
    deliveriesDelivered: nat)

  function WithRole(users: map<int, User>, r: Role): set<int> {
    set k | k in users && users[k].role == r
  }

  function BlockedWithRole(users: map<int, User>, r: Role): set<int> {
    set k | k in users && users[k].role == r && !users[k].active
  }

  function DeliveredIds(ds: map<int, Delivery>): set<int> {
    set k | k in ds && ds[k].status == Delivered
  }

  lemma SubsetCount(a: set<int>, b: set<int>)
    requires a <= b
    ensures |a| <= |b|
  {
    assert b == a + (b - a);
  }

  /** `SELECT COUNT(*) FROM users WHERE role = r [AND is_active = 0]`: the
      blocked users of a role are among the users of that role, who are
      among all users. */
  function CountUsers(users: map<int, User>, r: Role, blockedOnly: bool): (n: nat)
    ensures n <= |WithRole(users, r)| <= |users|
  {
    SubsetCount(BlockedWithRole(users, r), WithRole(users, r));
    SubsetCount(WithRole(users, r), users.Keys);
    if blockedOnly then |BlockedWithRole(users, r)| else |WithRole(users, r)|
  }

  /** `SELECT COUNT(*) FROM deliveries [WHERE status = 'delivered']`:
      delivered deliveries are among all of them, which are all counted. */
  function CountDeliveries(ds: map<int, Delivery>, deliveredOnly: bool): (n: nat)
    ensures n <= |ds|
    ensures !deliveredOnly ==> n == |ds|
  {
    SubsetCount(DeliveredIds(ds), ds.Keys);
    if deliveredOnly then |DeliveredIds(ds)| else |ds|
  }

  /** Clients and couriers are disjoint groups of users. */
  lemma ClientsAndCouriersWithinUsers(users: map<int, User>)
    ensures CountUsers(users, Client, false) + CountUsers(users, Courier, false) <= |users|
  {
    var clients, couriers := WithRole(users, Client), WithRole(users, Courier);
    assert clients !! couriers;
    SubsetCount(clients + couriers, users.Keys);
  }

  /** The counts `GET /stats` reports, which are consistent with each other. */
  function StatsOf(users: map<int, User>, ds: map<int, Delivery>): (s: Stats)
    ensures s.blockedClients <= s.clients && s.blockedCouriers <= s.couriers
    ensures s.deliveriesDelivered <= s.deliveriesTotal == |ds|
    ensures s.clients + s.couriers <= |users|
  {
    ClientsAndCouriersWithinUsers(users);
    Stats(
      CountUsers(users, Client, false),
      CountUsers(users, Courier, false),
      CountUsers(users, Client, true),
      CountUsers(users, Courier, true),
      CountDeliveries(ds, false),
      CountDeliveries(ds, true))
  }

  /** The item table without the items of delivery `d`. */
  function ItemsOutside(items: map<int, Item>, d: int): map<int, Item> {
    map k | k in items && items[k].delivery != d :: items[k]
  }

  /** Deleting a delivery's items keeps exactly the rows of the other
      deliveries, each as it was, so the table never grows. */
  lemma ItemsOutsideKeepsOthers(items: map<int, Item>, d: int)
    ensures forall k :: k in ItemsOutside(items, d) <==> k in items && items[k].delivery != d
    ensures forall k :: k in ItemsOutside(items, d) ==> ItemsOutside(items, d)[k] == items[k]
    ensures |ItemsOutside(items, d)| <= |items|
  {
    SubsetCount(ItemsOutside(items, d).Keys, items.Keys);
  }

  /** The rows `POST /deliveries` inserts for its items, one after the
      other: consecutive ids from `first` on, in item order, each belonging
      to `d` with both quantities at their default 0. */
  function NewItemRows(news: seq<NewItem>, first: int, d: int): (r: map<int, Item>)
    ensures forall k :: k in r <==> first <= k < first + |news|
    ensures forall k :: k in r ==> r[k].delivery == d
    ensures forall j :: 0 <= j < |news| ==> r[first + j] == Item(d, news[j].name, news[j].quantity, 0, 0)
  {
    if news == [] then map[]
    else
      var last := |news| - 1;
      NewItemRows(news[..last], first, d)[first + last := Item(d, news[last].name, news[last].quantity, 0, 0)]
  }

  /** Every delivery present before and after keeps its old notes as a prefix. */
  ghost predicate NotesOnlyGrow(before: map<int, Delivery>, after: map<int, Delivery>) {
    forall k :: k in before && k in after ==> before[k].notes <= after[k].notes
  }

  /** Every key lies below the table's next AUTOINCREMENT value. */
  ghost predicate KeysBelow<V>(m: map<int, V>, next: int) {
    forall k :: k in m ==> k < next
  }

  /** Every item row has a fresh-enough id and belongs to an existing delivery. */
  ghost predicate ItemsBelong(items: map<int, Item>, deliveries: set<int>, nextItemId: int) {
    KeysBelow(items, nextItemId) && forall k :: k in items ==> items[k].delivery in deliveries
  }

  /** Rewriting item rows in place, without touching which delivery each
      belongs to, keeps them belonging. */
  lemma ItemsBelongRewritten(items: map<int, Item>, after: map<int, Item>, deliveries: set<int>, nextItemId: int)
    requires ItemsBelong(items, deliveries, nextItemId)
    requires after.Keys == items.Keys && forall k :: k in after ==> after[k].delivery == items[k].delivery
    ensures ItemsBelong(after, deliveries, nextItemId)
  {
  }

  /** Every delivery's notes still begin with the line it was created with. */
  ghost predicate CreationLinesKept(ds: map<int, Delivery>, createdAt: map<int, string>) {
    && createdAt.Keys == ds.Keys
    && forall k :: k in ds ==> Notes.CreationLine(createdAt[k]) <= ds[k].notes
  }

  /** Appending a note to one delivery keeps its creation line. */
  lemma {:induction false} AppendKeepsCreationLines(ds: map<int, Delivery>, createdAt: map<int, string>,
                                                    id: int, d: Delivery, note: string)
    requires CreationLinesKept(ds, createdAt) && id in ds && ds[id].notes == d.notes
    ensures CreationLinesKept(ds[id := d.(notes := d.notes + note)], createdAt)
    ensures NotesOnlyGrow(ds, ds[id := d.(notes := d.notes + note)])
  {
    var after := ds[id := d.(notes := d.notes + note)];
    assert (d.notes + note)[..|d.notes|] == d.notes;
    assert d.notes <= d.notes + note;
    forall k | k in after
      ensures Notes.CreationLine(createdAt[k]) <= after[k].notes
    {
    }
  }

  /** Inserting a delivery and its item rows under the next ids keeps every
      row's id fresh-enough, every item attached, and every creation line. */
  lemma {:induction false} InsertKeepsTables(ds: map<int, Delivery>, createdAt: map<int, string>,
                                             items: map<int, Item>, nextDeliveryId: int, nextItemId: int,
                                             d: Delivery, ts: string, news: seq<NewItem>)
    requires KeysBelow(ds, nextDeliveryId) && ItemsBelong(items, ds.Keys, nextItemId)
    requires CreationLinesKept(ds, createdAt) && Notes.CreationLine(ts) <= d.notes
    ensures nextDeliveryId !in ds
    ensures KeysBelow(ds[nextDeliveryId := d], nextDeliveryId + 1)
    ensures items.Keys !! NewItemRows(news, nextItemId, nextDeliveryId).Keys
    ensures ItemsBelong(items + NewItemRows(news, nextItemId, nextDeliveryId),
                        ds[nextDeliveryId := d].Keys, nextItemId + |news|)
    ensures CreationLinesKept(ds[nextDeliveryId := d], createdAt[nextDeliveryId := ts])
  {
    var rows := NewItemRows(news, nextItemId, nextDeliveryId);
    var after := ds[nextDeliveryId := d];
    forall k | k in items + rows
      ensures k < nextItemId + |news| && (items + rows)[k].delivery in after.Keys
    {
      if k in rows {
        assert (items + rows)[k] == rows[k];
      }
    }
  }

  /** May `caller` delete or unassign? `x !== userId && role !== 'admin'` negated. */
  predicate OwnerOrAdmin(caller: Identity, owner: Option<int>) {
    owner == Some(caller.id) || caller.role == Admin
  }

  class DeliveryStore {
    var users: map<int, User>
    var deliveries: map<int, Delivery>
    var items: map<int, Item>
    /** The next AUTOINCREMENT value of each table. */
    var nextUserId: int
    var nextDeliveryId: int
    var nextItemId: int
    /** The timestamp each delivery was created at. */
    ghost var createdAt: map<int, string>

    ghost predicate Valid()
      reads this
    {
      && UniqueUsernames(users)
      && KeysBelow(users, nextUserId)
      && KeysBelow(deliveries, nextDeliveryId)
      && ItemsBelong(items, deliveries.Keys, nextItemId)
      && CreationLinesKept(deliveries, createdAt)
    }

    constructor ()
      ensures Valid()
      ensures users == map[] && deliveries == map[] && items == map[]
      ensures nextUserId == 1 && nextDeliveryId == 1 && nextItemId == 1
    {
      users, deliveries, items := map[], map[], map[];
      nextUserId, nextDeliveryId, nextItemId := 1, 1, 1;
      createdAt := map[];
    }

    // ------------------------------------------------------------- users

    /** `POST /auth/register`: 400 when the username is taken (the UNIQUE
        constraint), otherwise 201 and a new active user whose role is the
        requested one if valid and `client` otherwise. */
    method Register(username: string, passwordHash: string, name: string, role: string) returns (code: int)
      requires Valid()
      modifies this`users, this`nextUserId
      ensures Valid()
      ensures code == 400 <==> UsernameTaken(old(users), username)
      ensures code == 400 ==> users == old(users) && nextUserId == old(nextUserId)
      ensures code != 400 ==> nextUserId == old(nextUserId) + 1
      ensures code != 400 ==> (code == 201 &&
        users == old(users)[old(nextUserId) := User(username, passwordHash, NormalizeRole(role), name, true)])
    {
      if UsernameTaken(users, username) {
        return 400;
      }
      users := users[nextUserId := User(username, passwordHash, NormalizeRole(role), name, true)];
      nextUserId := nextUserId + 1;
      code := 201;
    }

    /** `POST /auth/login`. An unknown username gives 401; a blocked account
        gives 403 before the password is looked at; otherwise the password
        decides between 401 and 200 with the identity the token will carry.
        `passwordMatches` is bcrypt's comparison. */
    method Login(username: string, password: string, passwordMatches: (string, string) -> bool)
      returns (code: int, who: Option<Identity>)
      requires Valid()
      ensures !UsernameTaken(users, username) ==> code == 401 && who == None
      ensures forall k :: k in users && users[k].username == username ==>
        if !users[k].active then code == 403 && who == None
        else if passwordMatches(password, users[k].passwordHash) then
          code == 200 && who == Some(Identity(k, username, users[k].role, users[k].name))
        else code == 401 && who == None
    {
      if !UsernameTaken(users, username) {
        return 401, None;
      }
      var k :| k in users && users[k].username == username;
      var user := users[k];
      if !user.active {
        return 403, None;
      }
      if passwordMatches(password, user.passwordHash) {
        return 200, Some(Identity(k, user.username, user.role, user.name));
      }
      return 401, None;
    }

    /** `GET /users`: admins only. */
    method ListUsers(caller: Identity) returns (code: int, rows: map<int, UserRow>)
      ensures code == 403 <==> caller.role != Admin
      ensures code != 403 ==> code == 200 && rows.Keys == users.Keys
      ensures code == 200 ==> forall k :: k in rows ==>
        rows[k] == UserRow(users[k].username, users[k].name, users[k].role, users[k].active)
      ensures code == 403 ==> rows == map[]
    {
      if caller.role != Admin {
        return 403, map[];
      }
      rows := map k | k in users :: UserRow(users[k].username, users[k].name, users[k].role, users[k].active);
      code := 200;
    }

    /** `PATCH /users/:id/deactivate`: admins only, never on their own id;
        an id without a row changes nothing. */
    method Deactivate(caller: Identity, id: int) returns (code: int)
      requires Valid()
      modifies this`users
      ensures Valid()
      ensures caller.role != Admin ==> code == 403
      ensures caller.role == Admin && id == caller.id ==> code == 400
      ensures code == 200 <==> caller.role == Admin && id != caller.id
      ensures code != 200 ==> users == old(users)
      ensures code == 200 ==> (users ==
        if id in old(users) then old(users)[id := old(users)[id].(active := false)] else old(users))
    {
      if caller.role != Admin {
        return 403;
      }
      if id == caller.id {
        return 400;
      }
      if id in users {
        users := users[id := users[id].(active := false)];
      }
      code := 200;
    }

    /** `PATCH /users/:id/reactivate`: admins only. */
    method Reactivate(caller: Identity, id: int) returns (code: int)
      requires Valid()
      modifies this`users
      ensures Valid()
      ensures code == 200 <==> caller.role == Admin
      ensures code != 200 ==> code == 403 && users == old(users)
      ensures code == 200 ==> (users ==
        if id in old(users) then old(users)[id := old(users)[id].(active := true)] else old(users))
    {
      if caller.role != Admin {
        return 403;
      }
      if id in users {
        users := users[id := users[id].(active := true)];
      }
      code := 200;
    }

    /** `GET /stats`: admins only. */
    method GetStats(caller: Identity) returns (code: int, stats: Option<Stats>)
      ensures code == 403 <==> caller.role != Admin
      ensures code != 403 ==> code == 200 && stats == Some(StatsOf(users, deliveries))
      ensures code == 403 ==> stats == None
    {
      if caller.role != Admin {
        return 403, None;
      }
      return 200, Some(StatsOf(users, deliveries));
    }

    // -------------------------------------------------------- deliveries

    /** `POST /deliveries`: a new delivery in status `new`, owned by the
        caller, with no courier and the creation notes; its items get the
        next ids in order, with nothing delivered or pending. The body is not
        validated. */
    method Create(caller: Identity, address: string, date: string, news: seq<NewItem>, comment: Option<string>,
                  number: string, ts: string, estimated: string)
      returns (code: int, id: int)
      requires Valid()
      modifies this`deliveries, this`items, this`nextDeliveryId, this`nextItemId, this`createdAt
      ensures Valid()
      ensures code == 200 && id == old(nextDeliveryId) && id !in old(deliveries)
      ensures deliveries == old(deliveries)[id := Delivery(number, date, address, New,
        Notes.CreationNotes(ts, comment), caller.id, None, estimated)]
      ensures items == old(items) + NewItemRows(news, old(nextItemId), id)
      ensures old(items).Keys !! NewItemRows(news, old(nextItemId), id).Keys
      ensures nextDeliveryId == old(nextDeliveryId) + 1 && nextItemId == old(nextItemId) + |news|
      ensures NotesOnlyGrow(old(deliveries), deliveries)
    {
      id := nextDeliveryId;
      var notes := Notes.CreationNotes(ts, comment);
      InsertKeepsTables(deliveries, createdAt, items, nextDeliveryId, nextItemId,
        Delivery(number, date, address, New, notes, caller.id, None, estimated), ts, news);
      deliveries := deliveries[id := Delivery(number, date, address, New, notes, caller.id, None, estimated)];
      createdAt := createdAt[id := ts];
      nextDeliveryId := nextDeliveryId + 1;
      var rows := NewItemRows(news, nextItemId, id);
      items := items + rows;
      nextItemId := nextItemId + |news|;
      code := 200;
    }

    /** `DELETE /deliveries/:id`: 404 for an unknown id, 403 unless the
        caller created it or is an admin, 400 unless it is still `new`;
        otherwise the delivery and all its items are removed. */
    method Delete(caller: Identity, id: int) returns (code: int)
      requires Valid()
      modifies this`deliveries, this`items, this`createdAt
      ensures Valid()
      ensures id !in old(deliveries) ==> code == 404
      ensures id in old(deliveries) && !OwnerOrAdmin(caller, Some(old(deliveries)[id].creator)) ==> code == 403
      ensures (id in old(deliveries) && OwnerOrAdmin(caller, Some(old(deliveries)[id].creator))
        && old(deliveries)[id].status != New) ==> code == 400
      ensures code == 200 <==> (id in old(deliveries) && OwnerOrAdmin(caller, Some(old(deliveries)[id].creator))
        && old(deliveries)[id].status == New)
      ensures code != 200 ==> deliveries == old(deliveries) && items == old(items)
      ensures code == 200 ==> deliveries == old(deliveries) - {id} && items == ItemsOutside(old(items), id)
    {
      if id !in deliveries {
        return 404;
      }
      var d := deliveries[id];
      if !OwnerOrAdmin(caller, Some(d.creator)) {
        return 403;
      }
      if d.status != New {
        return 400;
      }
      items := ItemsOutside(items, id);
      deliveries := deliveries - {id};
      createdAt := createdAt - {id};
      code := 200;
    }

    /** `PATCH /deliveries/:id/unassign`: 404 for an unknown id, 403 unless
        the caller is the assigned courier or an admin, 400 while the
        delivered quantities of its items sum above 0; otherwise the delivery
        goes back to the pool (no courier, status `new`), whatever its status
        was. */
    method Unassign(caller: Identity, id: int, ts: string) returns (code: int)
      requires Valid()
      modifies this`deliveries
      ensures Valid()
      ensures id !in old(deliveries) ==> code == 404
      ensures id in old(deliveries) && !OwnerOrAdmin(caller, old(deliveries)[id].courier) ==> code == 403
      ensures (id in old(deliveries) && OwnerOrAdmin(caller, old(deliveries)[id].courier)
        && Reconcile.DeliveredSum(items, id) > 0) ==> code == 400
      ensures code == 200 <==> (id in old(deliveries) && OwnerOrAdmin(caller, old(deliveries)[id].courier)
        && Reconcile.DeliveredSum(items, id) <= 0)
      ensures code != 200 ==> deliveries == old(deliveries)
      ensures code == 200 ==> deliveries == old(deliveries)[id := old(deliveries)[id].(courier := None, status := New,
        notes := old(deliveries)[id].notes + Notes.UnassignNote(ts, caller.name))]
      ensures NotesOnlyGrow(old(deliveries), deliveries)
    {
      if id !in deliveries {
        return 404;
      }
      var d := deliveries[id];
      if !OwnerOrAdmin(caller, d.courier) {
        return 403;
      }
      var total := Reconcile.DeliveredTotal(items, id);
      if total > 0 {
        return 400;
      }
      deliveries := deliveries[id := d.(courier := None, status := New, notes := d.notes + Notes.UnassignNote(ts, caller.name))];
      code := 200;
    }

    /** `PATCH /deliveries/:id/assign`: 404 for an unknown id, 400 unless it
        is `new`; otherwise the caller (whatever their role) becomes its
        courier and it is `assigned`. */
    method Assign(caller: Identity, id: int, ts: string) returns (code: int)
      requires Valid()
      modifies this`deliveries
      ensures Valid()
      ensures id !in old(deliveries) ==> code == 404
      ensures id in old(deliveries) && old(deliveries)[id].status != New ==> code == 400
      ensures code == 200 <==> id in old(deliveries) && old(deliveries)[id].status == New
      ensures code != 200 ==> deliveries == old(deliveries)
      ensures code == 200 ==> deliveries == old(deliveries)[id := old(deliveries)[id].(courier := Some(caller.id),
        status := Assigned, notes := old(deliveries)[id].notes + Notes.AssignNote(ts))]
      ensures NotesOnlyGrow(old(deliveries), deliveries)
    {
      if id !in deliveries {
        return 404;
      }
      var d := deliveries[id];
      if d.status != New {
        return 400;
      }
      deliveries := deliveries[id := d.(courier := Some(caller.id), status := Assigned, notes := d.notes + Notes.AssignNote(ts))];
      code := 200;
    }

    /** `PATCH /deliveries/:id/items`: each listed item id, in order, gets
        the listed pending quantity (0 when absent). Item ids are not checked
        against the delivery in the path, nor values against the order. */
    method PatchItems(updates: seq<PendingUpdate>) returns (code: int)
      requires Valid()
      modifies this`items
      ensures Valid()
      ensures code == 200 && items == Reconcile.ApplyPending(old(items), updates)
    {
      var rows := items;
      var i := 0;
      while i < |updates|
        invariant 0 <= i <= |updates|
        invariant items == old(items)
        invariant rows == Reconcile.ApplyPending(items, updates[..i])
      {
        var u := updates[i];
        assert updates[..i + 1] == updates[..i] + [u];
        Reconcile.ApplyPendingSnoc(items, updates[..i], u);
        if u.itemId in rows {
          rows := rows[u.itemId := rows[u.itemId].(pending := u.pending.GetOr(0))];
        }
        i := i + 1;
      }
      assert updates[..i] == updates;
      ItemsBelongRewritten(items, rows, deliveries.Keys, nextItemId);
      items := rows;
      code := 200;
    }

    /** `POST /deliveries/:id/complete`: the status becomes
        `waiting_for_client`, whatever the body's `status` says, and the
        delivery report is appended. An unknown id changes nothing. */
    method Complete(id: int, requestedStatus: string, comment: Option<string>, ts: string) returns (code: int)
      requires Valid()
      modifies this`deliveries
      ensures Valid()
      ensures code == 200
      ensures deliveries == if id in old(deliveries) then
        old(deliveries)[id := old(deliveries)[id].(status := WaitingForClient,
          notes := old(deliveries)[id].notes + Notes.CompleteNote(ts, comment))]
        else old(deliveries)
      ensures NotesOnlyGrow(old(deliveries), deliveries)
    {
      if id in deliveries {
        var d := deliveries[id];
        deliveries := deliveries[id := d.(status := WaitingForClient, notes := d.notes + Notes.CompleteNote(ts, comment))];
      }
      code := 200;
    }

    /** `PATCH /deliveries/:id/estimated-date`: overwrites the estimate. */
    method SetEstimatedDate(id: int, date: string) returns (code: int)
      requires Valid()
      modifies this`deliveries
      ensures Valid()
      ensures code == 200
      ensures deliveries == if id in old(deliveries) then
        old(deliveries)[id := old(deliveries)[id].(estimatedDate := date)] else old(deliveries)
    {
      if id in deliveries {
        deliveries := deliveries[id := deliveries[id].(estimatedDate := date)];
      }
      code := 200;
    }

    /** `POST /deliveries/:id/client-confirm`: every item of the delivery
        moves its pending quantity into its delivered quantity; the delivery
        becomes `delivered` when no item is left short of its order and
        `assigned` otherwise, with a note saying which. */
    method ClientConfirm(id: int, ts: string) returns (code: int)
      requires Valid()
      modifies this`items, this`deliveries
      ensures Valid()
      ensures code == 200
      ensures items == Reconcile.ConfirmItems(old(items), id)
      ensures deliveries == if id in old(deliveries) then
        old(deliveries)[id := old(deliveries)[id].(status := Reconcile.ConfirmStatus(old(items), id),
          notes := old(deliveries)[id].notes + Notes.ConfirmNote(ts, Reconcile.FullyDelivered(old(items), id)))]
        else old(deliveries)
      ensures NotesOnlyGrow(old(deliveries), deliveries)
    {
      var confirmed, full := Reconcile.ConfirmRows(items, id);
      ItemsBelongRewritten(items, confirmed, deliveries.Keys, nextItemId);
      items := confirmed;
      if id in deliveries {
        var d := deliveries[id];
        var status := if full then Delivered else Assigned;
        AppendKeepsCreationLines(deliveries, createdAt, id, d.(status := status), Notes.ConfirmNote(ts, full));
        deliveries := deliveries[id := d.(status := status, notes := d.notes + Notes.ConfirmNote(ts, full))];
      }
      code := 200;
    }

    /** `POST /deliveries/:id/report-problem`: the status becomes `disputed`;
        the client's description is appended only when it has text. */
    method ReportProblem(id: int, comment: Option<string>, ts: string) returns (code: int)
      requires Valid()
      modifies this`deliveries
      ensures Valid()
      ensures code == 200
      ensures deliveries == if id in old(deliveries) then
        old(deliveries)[id := old(deliveries)[id].(status := Disputed,
          notes := if Text.HasText(comment) then old(deliveries)[id].notes + Notes.ProblemNote(ts, comment.value)
                   else old(deliveries)[id].notes)]
        else old(deliveries)
      ensures NotesOnlyGrow(old(deliveries), deliveries)
    {
      if id in deliveries {
        var d := deliveries[id];
        var note := if Text.HasText(comment) then Notes.ProblemNote(ts, comment.value) else "";
        AppendKeepsCreationLines(deliveries, createdAt, id, d.(status := Disputed), note);
        assert d.notes + "" == d.notes;
        var notes := d.notes + note;
        deliveries := deliveries[id := d.(status := Disputed, notes := notes)];
      }
      code := 200;
    }

    /** `POST /deliveries/:id/resolve-problem`: the status goes back to
        `waiting_for_client`; nothing is appended. */
    method ResolveProblem(id: int) returns (code: int)
      requires Valid()
      modifies this`deliveries
      ensures Valid()
      ensures code == 200
      ensures deliveries == if id in old(deliveries) then
        old(deliveries)[id := old(deliveries)[id].(status := WaitingForClient)] else old(deliveries)
    {
      if id in deliveries {
        deliveries := deliveries[id := deliveries[id].(status := WaitingForClient)];
      }
      code := 200;
    }
  }
}
