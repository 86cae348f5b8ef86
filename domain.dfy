/** The rows of the three tables (`users`, `deliveries`, `delivery_items`), the
    identity a bearer token carries, and the request bodies the handlers read.
    Row ids are the keys of the store's maps, so no record repeats its own id. */
module Domain {
  import opened Wrappers

  /** The values of `users.role`; registration only ever stores these three. */
  datatype Role = Client | Courier | Admin

  /** The values of `deliveries.status`. */
  datatype Status = New | Assigned | WaitingForClient | Delivered | Disputed

  /** A `users` row. `active` is `is_active`, which defaults to 1 and is only
      ever set to 0 or 1. */
  datatype User = User(username: string, passwordHash: string, role: Role, name: string, active: bool)

  /** A `deliveries` row. `courier` is the nullable `courier_id`. */
  datatype Delivery = Delivery(
    number: string,
    date: string,
    address: string,
    status: Status,
    notes: string,
    creator: int,
    courier: Option<int>,
    estimatedDate: string)

  /** A `delivery_items` row: `delivered_quantity` and `pending_quantity`
      default to 0 and are never clamped by the server. */
  datatype Item = Item(delivery: int, name: string, quantity: int, delivered: int, pending: int)

  /** What a verified token says about the caller: `{id, username, role, name}`. */
  datatype Identity = Identity(id: int, username: string, role: Role, name: string)

  /** One element of the `items` body of `POST /deliveries`. */
  datatype NewItem = NewItem(name: string, quantity: int)

  /** One element of the `items` body of `PATCH /deliveries/:id/items`;
      `pending` is `None` when `pending_quantity` is absent or null. */
  datatype PendingUpdate = PendingUpdate(itemId: int, pending: Option<int>)

  /** The spelling of a role in requests and in the database. */
  function RoleName(r: Role): string {
    match r
    case Client => "client"
    case Courier => "courier"
    case Admin => "admin"
  }

  /** Registration's `validRoles.includes(role) ? role : 'client'`. A missing
      or non-string role behaves as a string outside the three names. */
  function NormalizeRole(requested: string): (r: Role)
    ensures requested == RoleName(r) || (r == Client && requested !in {"client", "courier", "admin"})
  {
    if requested == "courier" then Courier
    else if requested == "admin" then Admin
    else Client
  }

  /** Naming a role gets exactly that role. */
  lemma NormalizeRoleName(r: Role)
    ensures NormalizeRole(RoleName(r)) == r
  {
  }

  /** The database's UNIQUE constraint on `users.username`. */
  ghost predicate UniqueUsernames(users: map<int, User>) {
    forall a, b :: a in users && b in users && a != b ==> users[a].username != users[b].username
  }

  predicate UsernameTaken(users: map<int, User>, username: string) {
    exists k :: k in users && users[k].username == username
  }
}
