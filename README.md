# Delivery app: a verified model of the order engine and its two entry screens

The system is a small delivery service. A client orders products for an
address. A courier takes the order from the open pool, delivers some or all of
it, and reports what was handed over. The client then confirms receipt, which
closes the delivery or sends it back to the courier for the rest, or reports a
problem. An admin can see everything, block and unblock accounts, and read
counts.

This project models three parts of it:

- **The backend** (`delivery-app/backend/server.js`). This covers the token
  check, login and registration, the role-based delivery list, and every
  handler that changes a delivery, its items or a user. It also covers the
  admin counts. The three tables are maps held by one class,
  `Store.DeliveryStore`. Each handler that reads or changes them through a
  status is one method that returns the HTTP status and states the whole new
  state of the tables. The one exception is `GET /deliveries`: it is
  `Visibility.ListFor`, a method over the delivery table that returns the
  visible rows in order and no status.
- **The courier's confirmation screen**
  (`delivery-app/src/screens/DeliveryConfirmationScreen.tsx`), as the class
  `Confirmation.ConfirmationForm`. Each item has a text entry. The screen
  fills it with the remaining quantity, filters and clamps it as the courier
  types, and sends it as the pending quantity of an items patch. The
  completion request follows the patch.
- **The client's order form** (`delivery-app/src/screens/CreateDeliveryScreen.tsx`),
  as the class `OrderForm.Form`. It covers row editing, the separate web and
  native validations, and the request body the form builds.

## Modules

| module | contents |
|---|---|
| `Wrappers` | `Option` |
| `Text` | the digit filter, `parseInt`, integer `toString`, `trim()` emptiness, `split(' ')`, and SQLite's BINARY ordering of TEXT |
| `Domain` | roles, statuses, and the rows of the three tables |
| `Auth` | the bearer-token middleware |
| `Notes` | the audit lines appended to `deliveries.notes` |
| `Reconcile` | the items patch, client confirmation and the delivered-quantity sum, as functions on the item table |
| `Visibility` | who sees which deliveries, and in what order |
| `Store` | the handlers over the three tables |
| `Confirmation` | the courier's confirmation screen |
| `OrderForm` | the client's order form |
| `Scenarios` | end-to-end request sequences |

Four behaviours of the code worth knowing:

- **Client confirmation.** The code marks a delivery `delivered` when no item
  is left *below* its ordered quantity. An over-delivered item therefore also
  counts as complete. `Reconcile.ConfirmKeepsBound` shows that this means
  "exactly the ordered quantity" as long as each item stays within its order.
- **The server does not enforce that bound.** The bound is "delivered plus
  pending ≤ ordered". The items patch stores whatever integer it is sent
  (`Reconcile.PatchCanOverfill`). The bound holds when the confirmation
  screen's view matches the rows, because the screen clamps each entry
  (`Confirmation.PayloadKeepsBound`). A stale view or a second client can
  still break it.
- **Unassign.** It resets any status to `new`, provided the delivered
  quantities of the delivery's items do not sum above 0. Without negative
  quantities that means nothing was delivered (`Reconcile.DeliveredSumPositive`).
  A negative quantity can cancel a positive one (`Reconcile.DeliveredSumCanCancel`),
  and the items patch stores whatever it is sent.
- **Assign.** It does not check the caller's role.

## Model

| member | source | states |
|---|---|---|
| Text.DigitsOnly | delivery-app/src/screens/CreateDeliveryScreen.tsx:109 | the filtered quantity text consists of digits only and is no longer than what was typed |
| Text.DigitsOnlyKeepsDigits | delivery-app/src/screens/DeliveryConfirmationScreen.tsx:45 | text already made of digits passes the filter unchanged |
| Text.DigitsOnlyIdempotent | delivery-app/src/screens/DeliveryConfirmationScreen.tsx:45 | filtering a second time changes nothing |
| Text.DigitsOnlyAppend | delivery-app/src/screens/DeliveryConfirmationScreen.tsx:45 | the filter acts character by character: the digits of a concatenation are the digits of its parts |
| Text.DigitsOnlyOfChar | delivery-app/src/screens/DeliveryConfirmationScreen.tsx:45 | a single character is kept exactly when it is a decimal digit |
| Text.NatToDigits | delivery-app/src/screens/DeliveryConfirmationScreen.tsx:27 | `toString` of a non-negative integer is a non-empty digit string with no leading zero that denotes that integer |
| Text.IntToString | delivery-app/src/screens/DeliveryConfirmationScreen.tsx:27 | `toString` of an integer is never empty |
| Text.DigitPrefix | delivery-app/src/screens/DeliveryConfirmationScreen.tsx:48 | `parseInt` reads the longest digit prefix: it is a prefix of the input, all digits, and stops at the first non-digit |
| Text.DigitPrefixOfDigits | delivery-app/src/screens/DeliveryConfirmationScreen.tsx:48 | on a digit string `parseInt` reads all of it |
| Text.ParseInt | delivery-app/src/screens/CreateDeliveryScreen.tsx:49-50 | `parseInt` is NaN exactly when no digit follows the optional sign, and a negative result needs a leading minus |
| Text.ParseOrZero | delivery-app/src/screens/DeliveryConfirmationScreen.tsx:61 | `parseInt(s) \|\| 0` is the number `parseInt` reads, or 0 when that is NaN; it is never negative without a leading minus |
| Text.ParseIntOfDigits | delivery-app/src/screens/DeliveryConfirmationScreen.tsx:48-50 | on a digit string `parseInt` is NaN exactly when the string is empty, and otherwise is the decimal value of the string |
| Text.ParseIntOfString | delivery-app/src/screens/DeliveryConfirmationScreen.tsx:51 | parsing `n.toString()` gives back `n`, for negative `n` too |
| Text.IsBlank | delivery-app/backend/server.js:217 | the text consists of white space only |
| Text.TrimStart | delivery-app/backend/server.js:217 | the leading white space removed is a blank prefix, and what is left is a suffix of the text that starts with a non-space |
| Text.TrimEnd | delivery-app/backend/server.js:217 | the trailing white space removed is a blank suffix, and what is left is a prefix of the text that ends with a non-space |
| Text.TrimEmptyIffBlank | delivery-app/backend/server.js:217 | `trim()` leaves text that neither starts nor ends with white space, and leaves nothing exactly when every character is white space |
| Text.HasText | delivery-app/backend/server.js:217 | a comment counts when it is present and `trim()` leaves something of it |
| Text.Split | delivery-app/backend/server.js:20 | `split(' ')` gives at least one piece, and no piece contains a space |
| Text.JoinSplit | delivery-app/backend/server.js:20 | joining the pieces of `split` again with the separator gives back the header |
| Text.SplitOfPiece | delivery-app/backend/server.js:20 | text without a space splits into itself alone |
| Text.SplitAfterPiece | delivery-app/backend/server.js:20 | `a + ' ' + b`, where `a` has no space, splits into `a` followed by the pieces of `b` |
| Text.TextLe | delivery-app/backend/server.js:95 | the BINARY collation compares dates character by character, a prefix sorting first |
| Text.TextLeTotal | delivery-app/backend/server.js:95 | any two dates are ordered one way or the other by the BINARY collation |
| Text.TextLeTransitive | delivery-app/backend/server.js:95 | the collation order is transitive |
| Domain.NormalizeRole | delivery-app/backend/server.js:50-51 | the stored role is the requested one when it names a role, and `client` for anything else |
| Domain.NormalizeRoleName | delivery-app/backend/server.js:50-51 | requesting any of the three role names gets exactly that role |
| Auth.BearerToken | delivery-app/backend/server.js:20 | a token read from the header is non-empty and contains no space |
| Auth.AuthStatus | delivery-app/backend/server.js:22-27 | a missing token answers 401, a token that fails verification 403, and a verified one goes on to the handler |
| Auth.Authenticate | delivery-app/backend/server.js:18-29 | 401 exactly when the header yields no token; 403 exactly when a token is present but does not verify; otherwise the request proceeds as the identity the verified token carries |
| Auth.BearerTokenOfHeader | delivery-app/backend/server.js:20 | `<scheme> <token>` yields the token, whatever the scheme is |
| Auth.OneWordHeaderUnauthenticated | delivery-app/backend/server.js:20-22 | a one-word header carries no token and gets 401 |
| Auth.EmptySecondWordUnauthenticated | delivery-app/backend/server.js:20-22 | a header whose second word is empty (a trailing or doubled space) gets 401 |
| Notes.ConfirmNoteNamesOutcome | delivery-app/backend/server.js:353-355 | the confirmation note ends with the CAŁOŚĆ text exactly when the receipt was full, and with the CZĘŚCIOWY text exactly when it was not |
| Notes.CreationLine | delivery-app/backend/server.js:215 | the UTWORZONO line every delivery's notes begin with, stamped with the creation time |
| Notes.CreationNotes | delivery-app/backend/server.js:214-219 | a new delivery's notes begin with the UTWORZONO line, are exactly that line when the comment has no text, and otherwise end with the comment on its own stamped line |
| Notes.AssignNote | delivery-app/backend/server.js:251 | the assignment note opens a new stamped line and ends with the courier's acceptance |
| Notes.UnassignNote | delivery-app/backend/server.js:179 | the resignation note opens a new stamped line and ends by naming the courier who resigned |
| Notes.CompleteNote | delivery-app/backend/server.js:290-295 | the report opens a new stamped line; it ends with the courier's comment on its own stamped line when the comment has text, and with the delivery report otherwise |
| Notes.ConfirmNote | delivery-app/backend/server.js:353-356 | the receipt note opens a new stamped line |
| Notes.ProblemNote | delivery-app/backend/server.js:375 | the problem note opens a new stamped line and ends with the client's description |
| Reconcile.SetPending | delivery-app/backend/server.js:271 | one UPDATE sets the pending quantity of the named row to `pending_quantity \|\| 0`, leaves the rest of that row, and leaves every other row; an id without a row changes nothing |
| Reconcile.ApplyPending | delivery-app/backend/server.js:268-272 | the items patch keeps the set of item rows |
| Reconcile.LastPendingFor | delivery-app/backend/server.js:268-272 | the value the patch leaves for an item is absent exactly when no update names the item, and is otherwise the `pending_quantity \|\| 0` of the last update naming it |
| Reconcile.ApplyPendingAt | delivery-app/backend/server.js:268-272 | after the patch, an item's pending quantity is the value of the last update that names it, or the old value when none does; nothing else in the row changes |
| Reconcile.PatchKeepsBound | delivery-app/backend/server.js:268-272 | the patch keeps every item within its order when each value sent fits the item's undelivered remainder |
| Reconcile.PatchCanOverfill | delivery-app/backend/server.js:270-271 | the server accepts a pending quantity above the order, breaking the bound |
| Reconcile.Confirmed | delivery-app/backend/server.js:338-342 | one row's UPDATE moves its pending quantity into the delivered one, keeping their total and the rest of the row |
| Reconcile.ConfirmItems | delivery-app/backend/server.js:337-343 | client confirmation keeps the set of item rows |
| Reconcile.FullyDelivered | delivery-app/backend/server.js:334-342 | the flag stays true exactly when no item of the delivery ends below its ordered quantity |
| Reconcile.ConfirmStatus | delivery-app/backend/server.js:351 | the confirmation writes `delivered` or `assigned`, nothing else |
| Reconcile.ConfirmOutcome | delivery-app/backend/server.js:334-350 | confirmation zeroes every pending quantity of the delivery; the status is `delivered` exactly when every item reaches its ordered quantity, and a delivery without items is `delivered` |
| Reconcile.ConfirmKeepsBound | delivery-app/backend/server.js:334-350 | within the bound, confirmation keeps the bound, and `delivered` means every item was delivered in exactly its ordered quantity |
| Reconcile.ConfirmTwice | delivery-app/backend/server.js:337-343 | confirming a second time leaves the items as the first confirmation left them |
| Reconcile.ConfirmRows | delivery-app/backend/server.js:333-343 | the `forEach` over the delivery's rows produces the confirmed item table and the fully-delivered flag |
| Reconcile.DeliveredSum | delivery-app/backend/server.js:173 | the SUM over a delivery without items is 0 |
| Reconcile.DeliveredSumCanCancel | delivery-app/backend/server.js:173-176 | the SUM is 0 for a delivery with 5 delivered on one item and -5 on another, so Unassign goes ahead although something was delivered |
| Reconcile.DeliveredSumRemove | delivery-app/backend/server.js:173 | the SUM over a delivery's items does not depend on the order rows are added in |
| Reconcile.DeliveredTotal | delivery-app/backend/server.js:173 | adding up one row at a time gives the SUM of the delivered quantities of the delivery's items |
| Reconcile.DeliveredSumPositive | delivery-app/backend/server.js:173-176 | with no negative quantities, the sum exceeds 0 exactly when some item of the delivery has something delivered |
| Visibility.Visible | delivery-app/backend/server.js:84-93 | a client's WHERE clause keeps the rows they created, a courier's the rows assigned to them or `new`, and an admin's every row |
| Visibility.LatestExists | delivery-app/backend/server.js:95 | any non-empty set of deliveries has one with the latest date |
| Visibility.ListFor | delivery-app/backend/server.js:72-95 | a client sees exactly the deliveries they created; a courier sees exactly those assigned to them plus every `new` one; an admin sees all; each row appears once, latest date first |
| Store.CountUsers | delivery-app/backend/server.js:442-449 | a count of users of a role, blocked or not, is at most the number of users of that role, which is at most the number of users |
| Store.CountDeliveries | delivery-app/backend/server.js:450-453 | the delivered count never exceeds the number of deliveries, and the plain count is exactly that number |
| Store.StatsOf | delivery-app/backend/server.js:437-454 | blocked clients and couriers are at most all clients and couriers, delivered deliveries are at most all deliveries, and clients plus couriers are at most all users |
| Store.ClientsAndCouriersWithinUsers | delivery-app/backend/server.js:440-443 | clients and couriers are disjoint groups of users |
| Store.ItemsOutsideKeepsOthers | delivery-app/backend/server.js:155 | deleting a delivery's items keeps exactly the rows of other deliveries, unchanged, and never adds rows |
| Store.OwnerOrAdmin | delivery-app/backend/server.js:152 | delete and unassign are allowed to the owner (creator or courier) and to an admin |
| Store.NewItemRows | delivery-app/backend/server.js:227-233 | the inserted item rows take consecutive new ids in item order, and each belongs to the new delivery with the given name and quantity and nothing delivered or pending |
| Store.DeliveryStore.constructor | delivery-app/backend/database.js:17-25 | the store starts with empty tables |
| Store.DeliveryStore.Register | delivery-app/backend/server.js:48-64 | 400 and no change exactly when the username is taken; otherwise 201, one new active user with the normalised role under the next id, and the counter advanced by one |
| Store.DeliveryStore.Login | delivery-app/backend/server.js:32-46 | 401 for an unknown username; 403 for a blocked account whatever the password; otherwise 200 with the user's identity when the password matches, and 401 when it does not |
| Store.DeliveryStore.ListUsers | delivery-app/backend/server.js:402-409 | 403 for non-admins; otherwise every user, without the password hash |
| Store.DeliveryStore.Deactivate | delivery-app/backend/server.js:412-423 | 403 for non-admins; 400 on one's own id; otherwise `is_active` becomes 0 for that id and nothing else changes |
| Store.DeliveryStore.Reactivate | delivery-app/backend/server.js:426-434 | 403 for non-admins; otherwise `is_active` becomes 1 for that id and nothing else changes |
| Store.DeliveryStore.GetStats | delivery-app/backend/server.js:437-461 | 403 for non-admins; otherwise the six counts of the current tables |
| Store.DeliveryStore.Create | delivery-app/backend/server.js:201-237 | a new `new` delivery under a fresh id, created by the caller with no courier, its notes starting with the creation line; one new item row per requested item; existing rows unchanged; the delivery counter advances by one and the item counter by the number of items |
| Store.DeliveryStore.Delete | delivery-app/backend/server.js:146-161 | 404 for an unknown id; 403 unless the caller created it or is an admin; 400 unless it is `new`; otherwise the delivery and exactly its items are removed |
| Store.DeliveryStore.Unassign | delivery-app/backend/server.js:164-186 | 404, then 403 unless the caller is the courier or an admin, then 400 when the delivered sum exceeds 0; otherwise no courier, status `new` and the resignation note appended, from any status |
| Store.DeliveryStore.Assign | delivery-app/backend/server.js:240-258 | 404 for an unknown id; 400 and no change unless the status is `new`; otherwise the caller becomes the courier, the status `assigned`, and one note is appended |
| Store.DeliveryStore.PatchItems | delivery-app/backend/server.js:261-276 | the item table becomes the patch of the old one, with updates applied in order; nothing else changes |
| Store.DeliveryStore.Complete | delivery-app/backend/server.js:279-307 | the status becomes `waiting_for_client`, whatever status the body asks for; the report line and the courier's comment when non-blank are appended |
| Store.DeliveryStore.SetEstimatedDate | delivery-app/backend/server.js:310-320 | only the estimated date of that delivery changes |
| Store.DeliveryStore.ClientConfirm | delivery-app/backend/server.js:323-363 | the items are the confirmed table; the status becomes `delivered` when full and `assigned` otherwise, with the matching note |
| Store.DeliveryStore.ReportProblem | delivery-app/backend/server.js:366-387 | the status becomes `disputed`; the problem line is appended only when the description has text |
| Store.DeliveryStore.ResolveProblem | delivery-app/backend/server.js:390-399 | the status goes back to `waiting_for_client` and nothing else changes |
| Confirmation.Remaining | delivery-app/src/screens/DeliveryConfirmationScreen.tsx:26 | what is left of an item is its ordered quantity less what was delivered |
| Confirmation.Find | delivery-app/src/screens/DeliveryConfirmationScreen.tsx:41-42 | `find` gives the first item with the id, and nothing exactly when no item has it |
| Confirmation.ClampEntry | delivery-app/src/screens/DeliveryConfirmationScreen.tsx:44-53 | the stored entry is either the typed digits or the remaining quantity written out |
| Confirmation.ClampEntryCases | delivery-app/src/screens/DeliveryConfirmationScreen.tsx:44-53 | typed digits denoting more than the remaining quantity become the remaining quantity; anything else stays as the typed digits |
| Confirmation.ClampEntryWithinRemaining | delivery-app/src/screens/DeliveryConfirmationScreen.tsx:44-53 | whatever is typed, the entry parses to between 0 and the remaining quantity when something remains |
| Confirmation.InitialQuantities | delivery-app/src/screens/DeliveryConfirmationScreen.tsx:24-28 | one entry per item, each set to the item's quantity minus its delivered quantity |
| Confirmation.Payload | delivery-app/src/screens/DeliveryConfirmationScreen.tsx:86-92 | one update per entry, naming each item |
| Confirmation.SumEntries | delivery-app/src/screens/DeliveryConfirmationScreen.tsx:60-63 | the total adds up `parseInt(text) \|\| 0` of every entry |
| Confirmation.PayloadAt | delivery-app/src/screens/DeliveryConfirmationScreen.tsx:86-92 | the update for each item carries its id and its entry parsed, NaN sent as 0 |
| Confirmation.SumEntriesBounded | delivery-app/src/screens/DeliveryConfirmationScreen.tsx:60-63 | entries within their remainders total between 0 and the delivery's remaining quantity |
| Confirmation.ConfirmationForm.constructor | delivery-app/src/screens/DeliveryConfirmationScreen.tsx:24-29 | the form starts with each entry at the item's remaining quantity and every entry within its remainder |
| Confirmation.ConfirmationForm.ChangeQuantity | delivery-app/src/screens/DeliveryConfirmationScreen.tsx:40-56 | an unknown id leaves every entry as it was; otherwise only that item's entry changes, to the clamped digits; every entry stays within its remainder |
| Confirmation.ConfirmationForm.Total | delivery-app/src/screens/DeliveryConfirmationScreen.tsx:60-63 | while no item is over-delivered, the total the screen checks lies between 0 and what is left of the whole delivery |
| Confirmation.ConfirmationForm.Confirm | delivery-app/src/screens/DeliveryConfirmationScreen.tsx:58-98 | nothing is sent when the total is not positive or the web user cancels; otherwise the items patch is sent, then the completion |
| Confirmation.PayloadKeepsBound | delivery-app/src/screens/DeliveryConfirmationScreen.tsx:86-94 | applied to the server's items, the patch the screen sends keeps every item within its order |
| OrderForm.RowProblem | delivery-app/src/screens/CreateDeliveryScreen.tsx:41-53 | a row's error names that row's 1-based number |
| OrderForm.RowOk | delivery-app/src/screens/CreateDeliveryScreen.tsx:41-53 | a row passes the web check when it has a name, a quantity, and the quantity parses to at least 1 |
| OrderForm.RowProblemNoneIffOk | delivery-app/src/screens/CreateDeliveryScreen.tsx:41-53 | the web check passes a row exactly when it has a name, a quantity, and the quantity parses to at least 1 |
| OrderForm.WebAccepts | delivery-app/src/screens/CreateDeliveryScreen.tsx:35-54 | the web branch accepts a form with an address whose every row passes |
| OrderForm.NativeRowRejected | delivery-app/src/screens/CreateDeliveryScreen.tsx:57 | the native branch rejects a row with an empty field or a quantity that parses below 1 |
| OrderForm.NativeAccepts | delivery-app/src/screens/CreateDeliveryScreen.tsx:57 | the native branch accepts a form with an address and no rejected row |
| OrderForm.WebAcceptsThenNativeAccepts | delivery-app/src/screens/CreateDeliveryScreen.tsx:35-60 | every form the web branch accepts, the native branch accepts too |
| OrderForm.BranchesAgreeOnDigits | delivery-app/src/screens/CreateDeliveryScreen.tsx:35-60 | with digit-only quantities both branches accept exactly the same forms |
| OrderForm.NativeAcceptsUnparsedQuantity | delivery-app/src/screens/CreateDeliveryScreen.tsx:57 | the native branch lets through a quantity that does not parse, and the web branch does not |
| OrderForm.Payload | delivery-app/src/screens/CreateDeliveryScreen.tsx:69 | one request item per row, in row order, with the row's name |
| OrderForm.PayloadAt | delivery-app/src/screens/CreateDeliveryScreen.tsx:69 | each request item's quantity is `parseInt` of its row's text |
| OrderForm.AcceptedPayloadQuantities | delivery-app/src/screens/CreateDeliveryScreen.tsx:49-50 | a form the web branch accepts sends only numeric quantities of at least 1 |
| OrderForm.Form.constructor | delivery-app/src/screens/CreateDeliveryScreen.tsx:11-16 | the form starts with empty fields and one empty row |
| OrderForm.Form.AddItem | delivery-app/src/screens/CreateDeliveryScreen.tsx:19 | exactly one empty row is appended and the existing rows are kept |
| OrderForm.Form.UpdateItem | delivery-app/src/screens/CreateDeliveryScreen.tsx:21-25 | only the chosen field of the chosen row changes |
| OrderForm.Form.EditQuantity | delivery-app/src/screens/CreateDeliveryScreen.tsx:109 | the row's quantity becomes the digits of what was typed |
| OrderForm.Form.RemoveItem | delivery-app/src/screens/CreateDeliveryScreen.tsx:27-32 | with more than one row exactly the row at the index is removed; otherwise nothing changes, so the list is never empty |
| OrderForm.Form.ValidateWeb | delivery-app/src/screens/CreateDeliveryScreen.tsx:35-54 | a missing address is reported first; otherwise the first bad row is reported by its 1-based number, and no error exactly when every row passes |
| OrderForm.Form.Submit | delivery-app/src/screens/CreateDeliveryScreen.tsx:34-72 | a request is built exactly when the platform's check passes; it carries the address, today's date, the notes and one item per row |
| Scenarios.AssignedMilk | delivery-app/backend/server.js:201-258 | creating then assigning a delivery leaves it `assigned` to that courier, with one fresh item |
| Scenarios.FullDelivery | delivery-app/backend/server.js:261-363 | reporting 10 of 10 and completing gives `waiting_for_client`; confirming gives `delivered` with 10 delivered and 0 pending |
| Scenarios.PartialDelivery | delivery-app/backend/server.js:261-363 | reporting 10 of 12 and confirming gives `assigned` with 10 delivered and 0 pending |
| Scenarios.Dispute | delivery-app/backend/server.js:366-399 | a report gives `disputed`; resolving gives `waiting_for_client` |
| Scenarios.Blocking | delivery-app/backend/server.js:32-46 | a blocked user gets 403 with the right password and 200 once unblocked; an admin blocking themselves gets 400 |
| Scenarios.CourierTypesTooMuch | delivery-app/src/screens/DeliveryConfirmationScreen.tsx:40-98 | typing 15 where 12 remain stores 12, and the screen sends 12 as pending before completing |

## Left out

- Password hashing and token signing are left out. bcrypt's comparison is a
  function parameter of `Login`. JWT verification is a map from valid tokens
  to identities, so expiry and the 24-hour lifetime are not modelled. The
  token's identity is never checked against `is_active` again, as in the
  code.
- Clock and locale formatting are passed in as text:
  - `toLocaleString('pl-PL')` timestamps;
  - the `Date.now()` delivery number;
  - the "+1 day" estimated date;
  - the form's `toISOString` date.
- Express routing, CORS, JSON parsing, SQL text, and the sqlite3 callback
  chains and their 500 paths are left out. So are the N+1 item fetch of
  `GET /deliveries` (only the rows and their order are modelled) and a failed
  items INSERT, which the code only logs.
- `GET /deliveries/:id` is left out: it reads one row and its items and
  changes nothing.
- `database.js` is left out. Only the UNIQUE username, the column defaults
  and the empty starting tables are used. Admin seeding and migrations are
  not modelled.
- Concurrent requests are left out. Each handler runs to completion on its
  own, so two confirmations racing each other are not modelled.
- Store.DeliveryStore.PatchItems: a pending value is modelled as an integer
  or absent (absent, 0 and other falsy values store 0). The server stores
  `pending_quantity || 0` without a type check (server.js:271), so a string
  such as `"abc"` or a fraction such as `2.5` is stored as sent. Such values
  are not modelled. Nor is what client-confirm then does with them
  (server.js:338-339): `0 + "abc"` concatenates to `"0abc"`, which does not
  compare below the quantity, so the delivery would be marked delivered.
- Reconcile.SetPending: the same restriction to integer pending values as
  `Store.DeliveryStore.PatchItems`, for the same reason.
- Store.DeliveryStore.Create: a NULL or non-numeric item quantity in the
  body is not modelled. Request quantities are integers.
- The `confirmed` column of `delivery_items` is left out. It is written as 0
  and read only for display.
- Store.DeliveryStore.Deactivate: the path id is modelled as one canonical
  integer. In the code the self-check compares `parseInt` of the path text
  with the caller's id (server.js:417), while the UPDATE binds the raw text,
  which SQLite converts itself (server.js:419). A path such as `0.5e1` passes
  the check as 0 and blocks row 5, so an admin can block their own account;
  the model does not capture this.
- Text.ParseInt models `parseInt` on the strings the screens give it: an
  optional sign and then digits. Leading white space and the `0x` prefix are
  not modelled, because the digit filter has already removed them. Numbers
  are unbounded, so precision loss above 2^53 is not modelled.
- Confirmation.Payload: the updates follow the item order. `Object.keys` lists
  integer keys in ascending order. The ids are distinct, so the patch has the
  same effect either way. The ids are also sent as text keys, which SQLite
  compares as integers; that is not modelled.
- Alerts, navigation, the loading flag and the `AuthContext.tsx` storage are
  left out: they are presentation.
- OrderForm.Form.UpdateItem: the screen mutates the row object shared with
  the previous state. The model replaces the row value, so that aliasing is
  not captured.
- Notes are a plain string. `COALESCE(notes, '')` is the identity, because
  every delivery is created with notes.
