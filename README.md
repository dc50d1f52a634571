# gc-shuttle-bus: a Dafny model of the reservation and admin server logic

gc-shuttle-bus is a corporate shuttle booking site. Employees browse routes
and schedules, book a seat on a schedule for a date, and cancel. Company
admins approve their own employees. Operations admins manage routes, stops,
schedules and users. This project models the parts of the code that decide
anything, with the Supabase tables replaced by in-memory sequences:

- **Reservation ledger** (`reservations.dfy`, module `Reservations`). The
  class `Ledger` holds the `gsb_reservations` rows and a read-only map from
  schedule id to `total_seats`. Its methods `CreateReservation` and
  `CancelReservation` make the server actions' checks in the code's order and
  then append one row or set one row's status.
- **Access control** (`middleware.dfy`, module `Middleware`). A pure function
  from the path, "is there a session user" and the profile role to `Next` or
  a `Redirect`.
- **My reservations** (`my_reservations.dfy`). The `today` string and the
  upcoming/past split with its sort.
- **Route, stop and schedule validation** (`route_actions.dfy`). The zod
  schemas as predicates. Each action returns its field errors, the "ID
  required" error, or the one store command it would issue.
- **User administration** (`user_admin.dfy`). The class `UserTable` over
  `gsb_users`, and `updateUser` with its form normalisation and self-edit
  guard.
- **Employee approval**. Two actions, each a method on the user table that
  sets `is_approved`:
  - `company_approval.dfy`: `verifyCompanyAdmin` and `approveEmployee`
    (app/admin/company/actions.ts);
  - `employee_approval.dfy`: `approveEmployee`
    (app/admin/company/employees/actions.ts).
- **Route listing** (`routes_page.dfy`). The in-place sorts of each route's
  stop and schedule arrays, and the five-stop card preview.
- **Shared modules**:
  - `common.dfy`: the two database enums and the form-value type;
  - `strings.dfy`: `startsWith` and JavaScript's string order;
  - `sorting.dfy`: a stable sort and a filter.

The environment becomes parameters:
- the signed-in user id is `Option<string>`;
- `today` comes from an ISO timestamp string passed in;
- the generated row id and the `crypto.randomUUID()` qr token are passed in,
  and are required not to occur in the table (the row id is a uuid in its
  stored lower-case spelling);
- the signed-in user's id, issued by the auth service, is required to be a
  uuid when CreateReservation stores it;
- whether a write succeeded is a boolean (`insertOk`, `updateOk`, `writeOk`);
- whether the seat count came back non-null is a boolean (`countKnown`).

How some source behaviour is modelled:
- `Array.prototype.sort` is stable. So its result under a consistent
  comparator equals `Sorting.SortBy`, a stable insertion sort. The in-place
  sort `Sorting.SortInPlace` is proved to leave the array equal to
  `SortBy` of its old contents.
- `localeCompare` on the database's fixed-width `YYYY-MM-DD` dates and
  `HH:MM:SS` times is modelled as code-unit lexicographic order. That is the
  order `<` and `>=` use on strings.
- The ids are uuids, and the store compares uuid columns by value: an
  `.eq('id', x)` filter matches the row whatever the letter case of `x`, and
  a uuid column stores and returns its lower-case spelling. The model writes
  this as `Common.UuidKey`: each `.eq` filter on an id and each stored id goes
  through it, and `Valid()` keeps every stored id a uuid in its own
  spelling. A JS `===` or `!==` between two ids compares spellings and stays
  exact.
- The `maybeSingle()` duplicate query returns null data when more than one
  row matches. The model therefore reports a duplicate only when exactly one
  row matches. `TripleCountAtMostOne` shows that, in a table with one row per
  triple, this means "some row exists".

Where the code and the design description disagree, the model follows the
code:
- The duplicate check and the seat count ignore `status`. So a cancelled row
  still blocks rebooking its (user, schedule, date) and still takes its seat
  (`RebookAfterCancelRejected`, `CancelKeepsCounts`).
- Cancelling does not look at the current status, so there is no
  "already cancelled" error and cancelling is idempotent.
- `is_active` is never consulted.
- The count and the insert are separate, so nothing makes them atomic.

## Model

| member | source | states |
|---|---|---|
| `Reservations.Ledger.CreateReservation` | app/actions/reservations.ts:12-82 | the result is, in order, login required, missing schedule or date, duplicate (a row exists for the triple, any status), invalid schedule, sold out (rows for schedule and date, any status, at least total_seats, skipped when the count is null), insert failure, or success; the user and schedule ids are matched by uuid value, in any letter case; every failure leaves the table unchanged; success appends exactly one confirmed row with the stored spellings of the caller and schedule, the date and a fresh qr; success keeps unique ids and stored spellings, keeps one-row-per-triple, and, when the count was known, keeps every (schedule, date) within total_seats |
| `Reservations.CreateCheck` | app/actions/reservations.ts:15-62 | the checks pass iff there is a user, both fields are non-empty, the duplicate query does not report one row, the schedule exists, and, when the count is known, its rows for the date are below total_seats, ids being compared by uuid value; login and missing-field errors come first |
| `Reservations.Ledger.CancelReservation` | app/actions/reservations.ts:84-120 | the result is, in order, missing id, no user, unknown id, not the owner, update failure, or success; the row is the one whose id is the uuid the argument spells, in any letter case; every failure leaves the table unchanged; success sets the status of that row to cancelled, whatever its current status; the table keeps one row per triple and every (schedule, date) within total_seats whenever it did before |
| `Reservations.CancelCheck` | app/actions/reservations.ts:85-109 | the checks pass iff the id is non-empty, a user is signed in, and some row has the uuid the id spells and belongs to that user (compared as strings); not found iff no row has that uuid |
| `Reservations.CancelRows` | app/actions/reservations.ts:112-115 | the update keeps the length, changes no field but status, and sets status to cancelled exactly on the rows with the uuid the id spells |
| `Reservations.CancelAnySpelling` | app/actions/reservations.ts:97-115 | two spellings of one uuid give the same cancel outcome and the same table |
| `Reservations.UnknownScheduleInvalid` | app/actions/reservations.ts:44-52 | a schedule id that names no schedule is refused as an invalid schedule, unless the caller already holds exactly one row for it |
| `Reservations.OtherUsersRowNotOwner` | app/actions/reservations.ts:107-109 | a reservation that belongs to another user is refused as not the caller's |
| `Reservations.NonUuidMatchesNothing` | app/actions/reservations.ts:31-48 | a filter text that is no uuid names no stored reservation and no schedule |
| `Reservations.NonUuidScheduleInvalid` | app/actions/reservations.ts:31-52 | a schedule id that is no uuid finds no duplicate and no schedule, so the create is refused as an invalid schedule |
| `Reservations.NonUuidCancelNotFound` | app/actions/reservations.ts:97-105 | a reservation id that is no uuid is reported as not found |
| `Reservations.Find` | app/actions/reservations.ts:97-105 | returns the position of a row with the given id, or none exactly when no row has it |
| `Reservations.TripleCount` | app/actions/reservations.ts:31-37 | the rows the duplicate query selects for (user, schedule, date), whatever their status; never more than the rows the count query counts for that schedule and date |
| `Reservations.Booked` | app/actions/reservations.ts:54-58 | the rows the count query counts for (schedule, date), whatever their status; never more than the table holds |
| `Reservations.NewRow` | app/actions/reservations.ts:65-71 | the inserted row is confirmed, carries the caller's triple in the stored spellings of the two uuids, and holds stored ids when they were given as uuids |
| `Reservations.TripleCountAtMostOne` | app/actions/reservations.ts:31-41 | in a table with one row per triple, at most one row matches, and the single-row duplicate query reports a row exactly when some row has the triple |
| `Reservations.TripleCountZero` | app/actions/reservations.ts:31-37 | no row is counted for a triple iff no row has that triple |
| `Common.KeyIgnoresCase` | app/actions/reservations.ts:100 | two spellings that differ only in letter case have the same uuid key, and a uuid's key is a lower-case uuid |
| `Common.UuidKey` | app/actions/reservations.ts:100 | the spelling a uuid column compares and stores: the same length as the text, with no capital letter |
| `Common.KeyIsCanonical` | app/actions/reservations.ts:65-71 | a stored uuid reads back in the spelling it was stored in |
| `Common.KeyKeepsUuid` | app/actions/reservations.ts:65-71 | a text is a uuid exactly when its key is, so the key of a uuid is a uuid in stored spelling |
| `Common.LowerKeepsUuidChars` | app/admin/operations/users/actions.ts:9 | lower-casing keeps a character a hyphen or hexadecimal digit exactly when it was one |
| `Common.NonUuidNamesNoStoredId` | app/admin/operations/users/actions.ts:37-40 | the key of a text that is no uuid is never a stored id |
| `Reservations.DuplicateWhateverStatus` | app/actions/reservations.ts:31-41 | a signed-in user asking again for the (schedule, date) of any of their rows, cancelled or not, with the ids in any letter case, is refused as a duplicate |
| `Reservations.FullWhateverStatus` | app/actions/reservations.ts:54-62 | when the rows of (schedule, date), counted across all statuses, reach total_seats and the count is known, the request is refused as sold out |
| `Reservations.AppendKeepsKeys` | app/actions/reservations.ts:65-71 | appending a row with a fresh id and a fresh qr keeps ids and qr tokens unique |
| `Reservations.AppendKeepsStoredIds` | app/actions/reservations.ts:65-71 | inserting a row of stored uuids keeps every stored id a uuid in stored spelling |
| `Reservations.AppendKeepsOnePerTriple` | app/actions/reservations.ts:31-71 | appending a row that passed the duplicate check keeps one row per triple |
| `Reservations.AppendKeepsCapacity` | app/actions/reservations.ts:54-71 | appending a row to a (schedule, date) below its total_seats keeps every (schedule, date) within its total_seats |
| `Reservations.CreatePreservesInvariants` | app/actions/reservations.ts:31-71 | from a table with one row per triple and every (schedule, date) within total_seats, a create whose checks pass with a known count yields a table with both properties |
| `Reservations.CancelKeepsKeys` | app/actions/reservations.ts:112-115 | the cancel update keeps ids and qr tokens unique |
| `Reservations.CancelOnlyTarget` | app/actions/reservations.ts:112-115 | cancel changes only the status of the row the id names, and no other field or row |
| `Reservations.CancelIdempotent` | app/actions/reservations.ts:112-115 | cancelling the same id twice gives the same table as cancelling once |
| `Reservations.CancelKeepsCounts` | app/actions/reservations.ts:112-115 | cancelling leaves both counts used by create unchanged, so it frees no seat and unblocks no triple |
| `Reservations.CancelKeepsInvariants` | app/actions/reservations.ts:112-115 | cancelling keeps one row per triple and every (schedule, date) within total_seats |
| `Reservations.RebookAfterCancelRejected` | app/actions/reservations.ts:31-41 | after a successful create and a cancel of the created row, the same user's create for the same schedule and date is refused as a duplicate |
| `Middleware.Decide` | middleware.ts:35-72 | a redirect happens only on a path under /admin or a protected prefix, and a sign-in redirect only when there is no user; PassIff gives the whole decision |
| `Middleware.IsProtected` | middleware.ts:66-67 | the path starts with /my-reservations, /my-rewards, /ticket or /reservations/new |
| `Middleware.AdminNeedsUser` | middleware.ts:38-41 | a path starting with /admin and no session user redirects to the sign-in page |
| `Middleware.OperationsNeedsOperationsAdmin` | middleware.ts:52-54 | a signed-in user passes a path starting with /admin/operations iff their role is operations_admin |
| `Middleware.CompanyNeedsCompanyAdmin` | middleware.ts:56-58 | a signed-in user passes a path starting with /admin/company iff their role is company_admin |
| `Middleware.AdminNeedsAdminRole` | middleware.ts:60-62 | any /admin path passes only for a signed-in operations_admin or company_admin |
| `Middleware.ProtectedNeedsUser` | middleware.ts:66-69 | a path starting with /my-reservations, /my-rewards, /ticket or /reservations/new redirects to sign-in when there is no user |
| `Middleware.OtherPathsPass` | middleware.ts:72 | every path outside /admin and the protected prefixes passes, whatever the user and role |
| `Middleware.PassIff` | middleware.ts:35-72 | the whole decision as pass-iff: under /admin, signed in, with the role each prefix demands and an admin role; elsewhere, signed in or not protected |
| `Middleware.OperationsPrefixIsRaw` | middleware.ts:52-54 | matching is by raw prefix: /admin/operationsX is under the operations rule |
| `Middleware.AdminNotProtected` | middleware.ts:66 | no /admin path starts with one of the protected prefixes |
| `MyReservations.Today` | app/my-reservations/page.tsx:76 | today is the prefix of the ISO string before its first 'T', or the whole string when it has none |
| `MyReservations.Upcoming` | app/my-reservations/page.tsx:78-80 | the confirmed bookings dated today or later, sorted by date; UpcomingMembers and UpcomingAscending state what it holds and in which order |
| `MyReservations.IsUpcoming` | app/my-reservations/page.tsx:79 | a booking is upcoming iff it is confirmed and dated today or later (`>=` on the date strings) |
| `MyReservations.IsPast` | app/my-reservations/page.tsx:83 | a booking is past iff it is not upcoming: the test of line 83 is the exact complement of line 79 |
| `MyReservations.DateAtMost` | app/my-reservations/page.tsx:80 | the `localeCompare` comparator is at most zero iff the first date is at most the second |
| `MyReservations.DateAtLeast` | app/my-reservations/page.tsx:39 | the descending query order by reservation_date: the first date is at least the second |
| `MyReservations.Past` | app/my-reservations/page.tsx:82-83 | the other bookings in the query order; PastMembers and PastKeepsQueryOrder state what it holds and in which order |
| `MyReservations.UpcomingXorPast` | app/my-reservations/page.tsx:79-83 | each booking satisfies exactly one of the upcoming and past tests |
| `MyReservations.UpcomingMembers` | app/my-reservations/page.tsx:78-80 | a booking is upcoming iff it is in the input, confirmed, and its date string is at least today |
| `MyReservations.PastMembers` | app/my-reservations/page.tsx:82-83 | a booking is past iff it is in the input and its date is before today or it is not confirmed |
| `MyReservations.ListsPartitionInput` | app/my-reservations/page.tsx:78-83 | the two lists together are a permutation of the input |
| `MyReservations.UpcomingAscending` | app/my-reservations/page.tsx:80 | the upcoming list is in ascending date order |
| `MyReservations.PastKeepsQueryOrder` | app/my-reservations/page.tsx:82-83 | the past list keeps the input order, so rows in the descending date order of the query (line 39) stay descending |
| `MyReservations.DateOrderIsTotalPreorder` | app/my-reservations/page.tsx:80 | comparing bookings by date string is total and transitive |
| `Strings.LessIrreflexive` | app/my-reservations/page.tsx:79 | no string is below itself |
| `Strings.StartsWith` | middleware.ts:38 | `s.startsWith(p)` holds iff p is no longer than s and equals the prefix of s of its own length |
| `Strings.Less` | app/my-reservations/page.tsx:79 | JavaScript `<` on strings: a proper prefix sorts first, and no string is below itself |
| `Strings.Compare` | app/routes/page.tsx:34 | `localeCompare` on the fixed-width strings the store returns is negative, zero or positive exactly when the first sorts before, equals or sorts after the second |
| `Strings.LessAsymmetric` | app/my-reservations/page.tsx:79 | two strings are never each below the other |
| `Strings.LessTransitive` | app/my-reservations/page.tsx:79 | string order is transitive |
| `Strings.LessTrichotomy` | app/my-reservations/page.tsx:79 | of two strings, one is below the other or they are equal |
| `Strings.AtMostTotal` | app/my-reservations/page.tsx:80 | any two strings are comparable by at-most |
| `Strings.AtMostTransitive` | app/my-reservations/page.tsx:80 | at-most on strings is transitive |
| `Sorting.SortBy` | app/routes/page.tsx:33-34 | the stable sort `Array.prototype.sort` computes for a consistent comparator; it keeps the length, and SortByPermutes and SortBySorted state that it is a sorted permutation |
| `Sorting.InsertPermutes` | app/routes/page.tsx:33-34 | inserting x adds exactly x to the multiset of elements |
| `Sorting.SortByPermutes` | app/routes/page.tsx:33-34 | the stable sort neither adds nor drops an element, and keeps the length |
| `Sorting.InsertSorted` | app/routes/page.tsx:33-34 | for a total, transitive comparison, inserting into a sorted sequence keeps it sorted |
| `Sorting.SortBySorted` | app/routes/page.tsx:33-34 | for a total, transitive comparison, the stable sort's result is sorted |
| `Sorting.InsertAt` | app/routes/page.tsx:33-34 | where the in-place insertion loop stops, the reference insertion puts the element |
| `Sorting.InsertInPlace` | app/routes/page.tsx:33-34 | one in-place insertion step turns the sorted prefix plus the next element into the reference insertion and leaves the rest of the array alone |
| `Sorting.SortInPlace` | app/routes/page.tsx:33-34 | sorting the array in place leaves it equal to the stable sort of its old contents |
| `Sorting.Filter` | app/my-reservations/page.tsx:78-83 | `Array.prototype.filter`: never longer than its input; FilterMembership, FilterSplits and FilterKeepsOrder state what it keeps and in which order |
| `Sorting.FilterSplits` | app/my-reservations/page.tsx:78-83 | filtering by a test and by its negation splits the input's multiset between the two results |
| `Sorting.FilterMembership` | app/my-reservations/page.tsx:78-83 | an element is kept iff it occurs in the input and passes the test |
| `Sorting.FilterKeepsOrder` | app/my-reservations/page.tsx:82-83 | a filter of a sorted sequence is sorted |
| `RoutesPage.SortListings` | app/routes/page.tsx:32-35 | after getRoutes' loop, each route's stops are the stable sort by stop_order and its schedules the stable sort by departure_time, each sorted and a permutation of what it held; the route list is untouched |
| `RoutesPage.SortEach` | app/routes/page.tsx:32-35 | the forEach loop leaves every route's stops and schedules as the stable sorts of what they held, one route after another |
| `RoutesPage.SortRoute` | app/routes/page.tsx:33-34 | one route's stops become the stable sort by stop_order and its schedules the stable sort by departure_time |
| `RoutesPage.ListingSorted` | app/routes/page.tsx:33-34 | both sorts of a route's rows are sorted by their key and are permutations of the rows |
| `RoutesPage.StopOrderIsTotalPreorder` | app/routes/page.tsx:33 | comparing stops by stop_order is total and transitive |
| `RoutesPage.StopOrderLe` | app/routes/page.tsx:33 | the comparator `a.stop_order - b.stop_order` is at most zero: a sorts no later than b |
| `RoutesPage.DepartureLe` | app/routes/page.tsx:34 | the `localeCompare` comparator on departure_time is at most zero iff a's time is at most b's |
| `RoutesPage.DepartureIsTotalPreorder` | app/routes/page.tsx:34 | comparing schedules by departure_time is total and transitive |
| `RoutesPage.StopPreview` | app/routes/page.tsx:75-76 | a card shows the first min(5, n) stops, and adds a remainder count exactly when n > 5, shown plus remainder being n |
| `RouteActions.RouteErrors` | app/admin/operations/routes/actions.ts:7-11 | RouteSchema reports no field iff the id is undefined or a string, the name a non-empty string, and the description undefined or a string |
| `RouteActions.StopErrors` | app/admin/operations/routes/actions.ts:87-91 | StopSchema reports no field iff route_id is a uuid, the name is non-empty, and stop_order coerces to an integer of at least 0 |
| `RouteActions.IntegerAtLeast` | app/admin/operations/routes/actions.ts:90 | `z.coerce.number().int().min(lo)`: a missing field never passes, and a null one passes iff lo is at most 0 |
| `RouteActions.ScheduleErrors` | app/admin/operations/routes/actions.ts:93-97 | ScheduleSchema reports no field iff route_id is a uuid, departure_time is HH:MM, and total_seats coerces to an integer of at least 1 |
| `RouteActions.CreateRoute` | app/admin/operations/routes/actions.ts:13-35 | createRoute writes iff the name is non-empty and the description is not null; a failure returns non-empty field errors and no write |
| `RouteActions.UpdateRoute` | app/admin/operations/routes/actions.ts:37-68 | updateRoute returns field errors iff the schema fails, "ID required" iff the schema passes with an empty id, and otherwise writes the update for that id |
| `RouteActions.DeleteRoute` | app/admin/operations/routes/actions.ts:70-75 | deleteRoute returns "ID required" and writes nothing iff the id is empty |
| `RouteActions.AddStop` | app/admin/operations/routes/actions.ts:100-121 | addStopToRoute inserts iff StopSchema passes, with the coerced stop_order; otherwise non-empty field errors and no write |
| `RouteActions.AddSchedule` | app/admin/operations/routes/actions.ts:136-157 | addScheduleToRoute inserts iff ScheduleSchema passes, with the coerced total_seats; otherwise non-empty field errors and no write |
| `RouteActions.Coerce` | app/admin/operations/routes/actions.ts:90 | `z.coerce.number()` followed by the integer test: undefined is rejected, null and a blank string read as 0; CoerceDecimal, FractionalEntryRejected and ForeignCharacterRejected state the rest |
| `RouteActions.IsTime` | app/admin/operations/routes/actions.ts:95 | the departure_time regex; TimeIff states what it accepts |
| `Common.IsUuid` | app/admin/operations/routes/actions.ts:88 | `z.string().uuid()`, the 8-4-4-4-12 hexadecimal form in either letter case |
| `RouteActions.TimeIff` | app/admin/operations/routes/actions.ts:95 | the departure_time regex accepts exactly five characters HH:MM with hours 00-23 and minutes 00-59 |
| `RouteActions.TimeStringAccepted` | app/admin/operations/routes/actions.ts:95 | every time of day written HH:MM is accepted |
| `RouteActions.CoerceDecimal` | app/admin/operations/routes/actions.ts:90 | number coercion reads back the decimal numeral of every integer, as long as a double holds it exactly |
| `RouteActions.NumeralBounds` | app/admin/operations/routes/actions.ts:90-96 | a numeral is accepted as total_seats iff it is at least 1, and as stop_order iff it is at least 0 |
| `RouteActions.EmptyNumberIsZero` | app/admin/operations/routes/actions.ts:90-96 | a missing or empty number field coerces to 0, so stop_order accepts it and total_seats rejects it |
| `RouteActions.FractionalEntryRejected` | app/admin/operations/routes/actions.ts:90-96 | every decimal numeral, signed or not, whose fraction has a non-zero digit is rejected by both number fields, as long as a double holds it exactly |
| `RouteActions.ForeignCharacterRejected` | app/admin/operations/routes/actions.ts:90-96 | every entry that, once trimmed, holds a character no JavaScript numeric literal can contain is rejected by both number fields |
| `RouteActions.FractionRejected` | app/admin/operations/routes/actions.ts:90 | a numeral with a non-zero fraction digit is not an integer |
| `RouteActions.DecimalValue` | app/admin/operations/routes/actions.ts:90 | the digits of a decimal numeral read back its value |
| `UserAdmin.NormalizeCompanyId` | app/admin/operations/users/actions.ts:16-20 | company_id becomes null iff it is missing, 'null' or ''; any other value is passed on unchanged |
| `UserAdmin.ParseRole` | app/admin/operations/users/actions.ts:8 | a role parses iff it is one of 'employee', 'company_admin', 'operations_admin' |
| `UserAdmin.ParseUpdate` | app/admin/operations/users/actions.ts:16-27 | the form parses iff the role is in the enum and the normalised company_id is null or a uuid; is_approved is true iff the field is exactly 'true' |
| `UserAdmin.Lookup` | app/admin/company/employees/actions.ts:26-30 | the single-row lookup by a stored id returns a row with that id, or none exactly when no row has it |
| `UserAdmin.UserTable.UpdateUser` | app/admin/operations/users/actions.ts:13-48 | the result is UpdateCheck with the corrected self-edit guard (see Findings): invalid data, a refused self-edit, a write failure, or success; failures change nothing; success sets role, company_id and is_approved of the row with the uuid the id spells, and keeps unique ids and stored spellings |
| `UserAdmin.UpdateCheck` | app/admin/operations/users/actions.ts:16-44 | the update passes iff the form parses, the guard allows it and the write succeeds; invalid data iff the form does not parse |
| `UserAdmin.SelfEditAllowedAsWritten` | app/admin/operations/users/actions.ts:30-35 | the guard as written: it allows anything unless the caller's id and the requested id are the same string, and then only operations_admin with approval |
| `UserAdmin.SelfEditAllowed` | app/admin/operations/users/actions.ts:29 | the corrected guard: it allows anything when nobody is signed in, and it allows nothing the guard as written refuses |
| `UserAdmin.SetProfile` | app/admin/operations/users/actions.ts:37-40 | `.update(parsed.data).eq('id', userId)`; SetProfileOnlyTarget states what it changes |
| `UserAdmin.SetProfileOnlyTarget` | app/admin/operations/users/actions.ts:37-40 | the update changes only role, company_id and is_approved of the row with the uuid the id spells, stores the company id in its own spelling, and keeps ids unique |
| `UserAdmin.SelfEditOnlyKeepsAdmin` | app/admin/operations/users/actions.ts:29-34 | with the corrected guard, an edit of one's own row, the id written in any letter case, is allowed iff the role stays operations_admin and is_approved is 'true' |
| `UserAdmin.OwnRowKeepsAdmin` | app/admin/operations/users/actions.ts:29-40 | with the corrected guard, an update that passes leaves the caller's own row unchanged or with operations_admin and approval |
| `UserAdmin.SelfEditGuardBypassed` | app/admin/operations/users/actions.ts:31-40 | the guard as written passes an operations admin's upper-case own id with role employee, and the update then demotes and un-approves the caller's own row; the corrected guard refuses it |
| `UserAdmin.SampleSpellings` | app/admin/operations/users/actions.ts:31 | the lower-case and upper-case spellings of the sample uuid differ as strings, so `===` tells them apart, yet share one key, so the store matches both to the same row |
| `UserAdmin.UnknownRoleRefused` | app/admin/operations/users/actions.ts:8 | a role outside the enum is refused whatever the other fields |
| `UserAdmin.NonUuidMatchesNothing` | app/admin/operations/users/actions.ts:37-40 | a filter text that is no uuid names no stored user, so the lookup finds nothing |
| `UserAdmin.NonUuidUpdatesNothing` | app/admin/operations/users/actions.ts:37-40 | an update whose id is no uuid changes no row |
| `CompanyApproval.VerifyCompanyAdmin` | app/admin/company/actions.ts:6-20 | passes iff the caller is signed in and the row with the caller's uuid is a company_admin whose company_id is the given company id as a string; otherwise an auth or permission error |
| `CompanyApproval.ApproveEmployee` | app/admin/company/actions.ts:22-45 | an empty employee or company id fails before any check; then the admin check, a write failure, or success; failures change nothing; success approves the rows matching both uuids, the employee id in any letter case |
| `CompanyApproval.ApproveInCompany` | app/admin/company/actions.ts:32-36 | the update filtered on both uuids; ApproveOnlyInCompany states what it changes |
| `CompanyApproval.ApproveKeepsIds` | app/admin/company/actions.ts:32-36 | the approval update keeps ids unique |
| `CompanyApproval.ApproveOnlyInCompany` | app/admin/company/actions.ts:32-36 | only is_approved changes, and only on a row with both the employee's uuid and the company's; an employee of another company is unchanged |
| `CompanyApproval.ApproveIdempotent` | app/admin/company/actions.ts:34 | approving twice gives the same table as approving once |
| `CompanyApproval.NonUuidApprovesNothing` | app/admin/company/actions.ts:32-36 | an employee id that is no uuid approves no row |
| `EmployeeApproval.ApprovalCheck` | app/admin/company/employees/actions.ts:10-35 | passes iff the caller is signed in, the row with the caller's uuid is a company_admin with a non-empty company_id, and the row with the target's uuid, the id in any letter case, has that same company_id; login required iff there is no user |
| `EmployeeApproval.ApproveEmployee` | app/admin/company/employees/actions.ts:7-49 | the result is the check's error, a write failure, or success; failures change nothing; success sets is_approved on the row with the target's uuid |
| `EmployeeApproval.ApproveById` | app/admin/company/employees/actions.ts:38-41 | the update filtered on the target's uuid; ApproveOnlyTarget states what it changes |
| `EmployeeApproval.ApproveKeepsIds` | app/admin/company/employees/actions.ts:38-41 | the approval update keeps ids unique |
| `EmployeeApproval.OtherCompanyRefused` | app/admin/company/employees/actions.ts:26-35 | a target whose uuid names a row of another company, or names no row, is refused |
| `EmployeeApproval.ApproveOnlyTarget` | app/admin/company/employees/actions.ts:38-41 | only the is_approved of the row with the target's uuid becomes true; nothing else changes, and a second approval changes nothing |
| `EmployeeApproval.NonUuidTargetRefused` | app/admin/company/employees/actions.ts:26-35 | a target id that is no uuid finds no profile, so the approval is refused and no row would change |

## Left out

- Supabase calls, sessions and cookies, `revalidatePath`, `redirect` and
  `notFound` are I/O. Tables are in-memory sequences, and results are values.
- Thrown errors are returned as `Fail` values. cancelReservation throws on
  each of its failures (app/actions/reservations.ts:86, 93, 104, 108, 119),
  and verifyCompanyAdmin throws (app/admin/company/actions.ts:9, 18), an error
  approveEmployee catches and returns; the model returns them all.
- The race between the seat count and the insert in createReservation is
  left out. The model is sequential, so the capacity property is proved only
  for one request at a time; the code gives no guarantee under concurrent
  requests.
- Reservations.Ledger.CreateReservation: capacity is preserved only when
  the count came back. A null count skips the check, as in the code, and can
  then overfill a schedule.
- Random ids and `crypto.randomUUID()`: the model requires the fresh row id
  and qr token not to occur in the table, standing for the uniqueness of
  random UUIDs.
- `created_at`, `phone_number`, coordinates and the columns used only for
  display are not modelled.
- RouteActions.Coerce models `Number()` for null, empty or blank strings
  and decimal numerals, trimming all the white space `Number()` trims. Other numeral forms
  read as not-a-number here, though JavaScript reads them as numbers:
  exponents, hexadecimal, binary or octal prefixes, `Infinity`. Floating-point
  rounding of very long numerals is not modelled.
- Common.IsUuid uses zod's 8-4-4-4-12 hexadecimal pattern. The zod
  version in use is not part of this model, and other versions also check
  version digits.
- RouteActions: the store writes, and their failure messages, are returned
  as `Command` values and not performed. `removeStopFromRoute` and
  `deleteSchedule` run no check at all and are pure I/O.
- UserAdmin.UserTable.UpdateUser: the code does not require a signed-in
  user. Without one the self-edit guard does not apply, and only row-level
  security (not part of this model) could stop the update.
- Reservations.Ledger.CreateReservation: reservation_date is compared and
  stored as the text the form sends. A date column compares dates by value,
  so another spelling of a stored date (`2025-6-1` for `2025-06-01`) finds
  that row in the store but not in the model. The model assumes dates arrive
  as `YYYY-MM-DD`; the booking form is not part of this model.
- Reservations.CreateCheck: the same date assumption as CreateReservation.
- Common.UuidKey models uuid equality for the hyphenated text form only. The
  store also accepts other spellings (braces, missing hyphens), which are
  not modelled. A filter value that is no uuid at all makes the store report
  an error. Every stored id is a uuid, so in the model such a value matches
  no row (`Reservations.NonUuidMatchesNothing`,
  `UserAdmin.NonUuidMatchesNothing`). That gives the code's answer after
  each lookup, but not in the two updates that no lookup precedes (next two
  lines).
- UserAdmin.UserTable.UpdateUser: an id that is no uuid gives success with
  no row changed (`UserAdmin.NonUuidUpdatesNothing`), where the store
  reports a write error.
- CompanyApproval.ApproveEmployee: an employee id that is no uuid gives
  success with no row changed (`CompanyApproval.NonUuidApprovesNothing`),
  where the store reports a write error.
- String order is Unicode code-point order. JavaScript compares UTF-16 code
  units; the two differ only for characters outside the Basic Multilingual
  Plane.
- RoutesPage.SortListings requires that no two routes share an array.
  That holds for a freshly built query result.
- The reward-issuer function, the stats pages, the companies CRUD, the admin
  layout (which repeats the middleware's admin check), and all React
  components are outside the modelled core.
- Boarding-pass validity (app/ticket/[id]/page.tsx:55) is outside the
  modelled core. It compares a `Date` parsed from the reservation date with
  the start of the local day, and modelling that needs a clock and time
  zones.

## Findings

| source | as written | input that shows it | evidently intended | confidence | as-written member | corrected member |
|---|---|---|---|---|---|---|
| app/admin/operations/users/actions.ts:31 | the self-edit guard compares `currentUser?.id === userId` as strings, while the update at lines 37-40 matches the row by uuid value | an operations admin sends their own id in upper case with role `employee`: the guard does not apply and the update demotes and un-approves their own row | the guard applies whenever the updated row is the caller's own, as the comment at line 29 says | medium: not executed; relies on `gsb_users.id` being a uuid column; the schema is not part of this model | `UserAdmin.SelfEditGuardBypassed` (guard `SelfEditAllowedAsWritten`) | `UserAdmin.SelfEditAllowed`, used by `UserAdmin.UserTable.UpdateUser`, with `UserAdmin.SelfEditOnlyKeepsAdmin` and `UserAdmin.OwnRowKeepsAdmin` |
