/** The reservation ledger of app/actions/reservations.ts: the
    gsb_reservations table held in memory, the total_seats of every schedule,
    and the two server actions that change the table, createReservation and
    cancelReservation, with their checks in the order the code makes them. */
module Reservations {
  import opened Common

  /** One row of gsb_reservations (created_at is left out). */
  datatype Reservation = Reservation(
    id: string,
    userId: string,
    scheduleId: string,
    date: string,
    status: ReservationStatus,
    qr: string)

  datatype CreateError =
    | LoginRequired     // no signed-in user
    | MissingFields     // schedule_id or reservation_date empty or absent
    | AlreadyReserved   // a row exists for (user, schedule, date)
    | InvalidSchedule   // no schedule with that id
    | SoldOut           // the rows for (schedule, date) reach total_seats
    | InsertFailed      // the store refused the insert

  datatype CancelError =
    | MissingId         // empty reservation id
    | AuthRequired      // no signed-in user
    | NotFound          // no row with that id
    | NotOwner          // the row belongs to another user
    | UpdateFailed      // the store refused the update

  /** The rows for (user, schedule, date), whatever their status: what the
      duplicate query at lines 31-37 selects. `user` and `schedule` are
      stored spellings (the keys of the filter text); the date is compared
      as the text the form sends. */
  function TripleCount(rows: seq<Reservation>, user: string, schedule: string, date: string): (n: nat)
    ensures n <= Booked(rows, schedule, date)
  {
    if |rows| == 0 then 0
    else TripleCount(rows[..|rows| - 1], user, schedule, date)
         + (if SameTriple(rows[|rows| - 1], user, schedule, date) then 1 else 0)
  }

  predicate SameTriple(r: Reservation, user: string, schedule: string, date: string) {
    r.userId == user && r.scheduleId == schedule && r.date == date
  }

  /** The rows for (schedule, date), whatever their status: what the count
      query at lines 54-58 counts. */
  function Booked(rows: seq<Reservation>, schedule: string, date: string): (n: nat)
    ensures n <= |rows|
  {
    if |rows| == 0 then 0
    else Booked(rows[..|rows| - 1], schedule, date)
         + (if rows[|rows| - 1].scheduleId == schedule && rows[|rows| - 1].date == date then 1 else 0)
  }

  function Ids(rows: seq<Reservation>): set<string> {
    set r | r in rows :: r.id
  }

  function Qrs(rows: seq<Reservation>): set<string> {
    set r | r in rows :: r.qr
  }

  /** The uuid columns hold uuids in their stored spelling, and so do the
      keys of the schedule table. */
  ghost predicate StoredUuids(rows: seq<Reservation>, seats: map<string, int>) {
    (forall i :: 0 <= i < |rows| ==>
       StoredId(rows[i].id) && StoredId(rows[i].userId) && StoredId(rows[i].scheduleId)) &&
    (forall s :: s in seats ==> StoredId(s))
  }

  /** Row ids are a primary key and qr tokens are unique. */
  ghost predicate DistinctKeys(rows: seq<Reservation>) {
    forall i, j :: 0 <= i < j < |rows| ==> rows[i].id != rows[j].id && rows[i].qr != rows[j].qr
  }

  /** At most one row per (user, schedule, date). */
  ghost predicate OnePerTriple(rows: seq<Reservation>) {
    forall i, j :: 0 <= i < j < |rows| ==>
      !SameTriple(rows[j], rows[i].userId, rows[i].scheduleId, rows[i].date)
  }

  /** No (schedule, date) holds more rows than the schedule's total_seats. */
  ghost predicate WithinCapacity(rows: seq<Reservation>, seats: map<string, int>) {
    forall i :: 0 <= i < |rows| && rows[i].scheduleId in seats ==>
      Booked(rows, rows[i].scheduleId, rows[i].date) <= seats[rows[i].scheduleId]
  }

  /** The checks of createReservation, lines 15-62, in the order the code
      makes them. `countKnown` is false when the count query returned null,
      which skips the capacity check (line 60). The duplicate query uses
      maybeSingle, whose data is null when more than one row matches, so only
      exactly one matching row is reported as a duplicate. The user and
      schedule ids reach the store through `.eq` filters on uuid columns and
      are compared by their keys. */
  function CreateCheck(rows: seq<Reservation>, seats: map<string, int>, user: Option<string>,
                       schedule: FormValue, date: FormValue, countKnown: bool): (r: Outcome<CreateError>)
    ensures r.Pass? <==>
      user.Some? && Truthy(schedule) && Truthy(date) &&
      TripleCount(rows, UuidKey(user.value), UuidKey(schedule.text), date.text) != 1 &&
      UuidKey(schedule.text) in seats &&
      (countKnown ==> Booked(rows, UuidKey(schedule.text), date.text) < seats[UuidKey(schedule.text)])
    ensures r == Fail(LoginRequired) <==> user.None?
    ensures r == Fail(MissingFields) <==> user.Some? && !(Truthy(schedule) && Truthy(date))
  {
    if user.None? then Fail(LoginRequired)
    else if !Truthy(schedule) || !Truthy(date) then Fail(MissingFields)
    else
      var s := UuidKey(schedule.text);
      if TripleCount(rows, UuidKey(user.value), s, date.text) == 1 then Fail(AlreadyReserved)
      else if s !in seats then Fail(InvalidSchedule)
      else if countKnown && Booked(rows, s, date.text) >= seats[s] then Fail(SoldOut)
      else Pass
  }

  /** The row a create that passes inserts: the store keeps the key of each
      uuid it is given. */
  function NewRow(id: string, user: string, schedule: string, date: string, qr: string): (r: Reservation)
    ensures r.status == Confirmed && SameTriple(r, UuidKey(user), UuidKey(schedule), date)
    ensures Canonical(r.userId) && Canonical(r.scheduleId)
    ensures IsUuid(user) && IsUuid(schedule) ==> StoredId(r.userId) && StoredId(r.scheduleId)
  {
    KeyKeepsUuid(user);
    KeyKeepsUuid(schedule);
    Reservation(id, UuidKey(user), UuidKey(schedule), date, Confirmed, qr)
  }

  /** The table after `update({status: 'cancelled'}).eq('id', id)`: the rows
      whose id is the key of `id` become cancelled, and nothing else changes. */
  function CancelRows(rows: seq<Reservation>, id: string): (r: seq<Reservation>)
    ensures |r| == |rows|
    ensures forall i :: 0 <= i < |rows| ==>
      r[i] == rows[i].(status := r[i].status) &&
      r[i].status == (if rows[i].id == UuidKey(id) then Cancelled else rows[i].status)
  {
    seq(|rows|, i requires 0 <= i < |rows| =>
      if rows[i].id == UuidKey(id) then rows[i].(status := Cancelled) else rows[i])
  }

  /** The position of the row with this id, if any. */
  function Find(rows: seq<Reservation>, id: string): (k: Option<nat>)
    ensures k.Some? ==> k.value < |rows| && rows[k.value].id == id
    ensures k.None? ==> forall i :: 0 <= i < |rows| ==> rows[i].id != id
  {
    if |rows| == 0 then None
    else if rows[0].id == id then Some(0)
    else match Find(rows[1..], id)
      case None => None
      case Some(k) => Some(k + 1)
  }

  /** The checks of cancelReservation, lines 85-109, in the code's order:
      the row is looked up by the key of `id` (line 100), and its owner is
      compared with the signed-in user's id as strings (line 107). */
  function CancelCheck(rows: seq<Reservation>, id: string, user: Option<string>): (r: Outcome<CancelError>)
    requires DistinctKeys(rows)
    ensures r.Pass? <==> (id != "" && user.Some? &&
      exists i :: 0 <= i < |rows| && rows[i].id == UuidKey(id) && rows[i].userId == user.value)
    ensures r == Fail(NotFound) <==> (id != "" && user.Some? &&
      forall i :: 0 <= i < |rows| ==> rows[i].id != UuidKey(id))
  {
    if id == "" then Fail(MissingId)
    else if user.None? then Fail(AuthRequired)
    else match Find(rows, UuidKey(id))
      case None => Fail(NotFound)
      case Some(k) => if rows[k].userId != user.value then Fail(NotOwner) else Pass
  }

  class Ledger {
    /** gsb_reservations */
    var rows: seq<Reservation>
    /** total_seats of each schedule in gsb_schedules, by schedule id */
    const seats: map<string, int>

    ghost predicate Valid()
      reads this
    {
      DistinctKeys(rows) && StoredUuids(rows, seats)
    }

    constructor (seats: map<string, int>, rows: seq<Reservation>)
      requires DistinctKeys(rows) && StoredUuids(rows, seats)
      ensures Valid()
      ensures this.seats == seats && this.rows == rows
    {
      this.seats := seats;
      this.rows := rows;
    }

    /** createReservation. The fresh `id` and `qr` stand for the database's
        generated id and crypto.randomUUID(); `countKnown` is false when the
        count query returned null; `insertOk` is the store's answer to the
        insert. The signed-in user's id comes from the auth service, which
        issues uuids. */
    method CreateReservation(user: Option<string>, schedule: FormValue, date: FormValue,
                             id: string, qr: string, countKnown: bool, insertOk: bool)
      returns (result: Outcome<CreateError>)
      requires Valid()
      requires StoredId(id) && id !in Ids(rows) && qr !in Qrs(rows)
      requires user.Some? ==> IsUuid(user.value)
      modifies this
      ensures Valid()
      ensures var check := CreateCheck(old(rows), seats, user, schedule, date, countKnown);
        result == if check.Pass? && !insertOk then Fail(InsertFailed) else check
      ensures result.Fail? ==> rows == old(rows)
      ensures result.Pass? ==>
        rows == old(rows) + [NewRow(id, user.value, schedule.text, date.text, qr)]
      ensures result.Pass? && old(OnePerTriple(rows)) ==> OnePerTriple(rows)
      ensures result.Pass? && countKnown && old(WithinCapacity(rows, seats)) ==> WithinCapacity(rows, seats)
    {
      if user.None? {
        return Fail(LoginRequired);
      }
      if !Truthy(schedule) || !Truthy(date) {
        return Fail(MissingFields);
      }
      var s := UuidKey(schedule.text);
      var existing := TripleCount(rows, UuidKey(user.value), s, date.text) == 1;
      if existing {
        return Fail(AlreadyReserved);
      }
      if s !in seats {
        return Fail(InvalidSchedule);
      }
      var count := Booked(rows, s, date.text);
      if countKnown && count >= seats[s] {
        return Fail(SoldOut);
      }
      if !insertOk {
        return Fail(InsertFailed);
      }
      var row := NewRow(id, user.value, schedule.text, date.text, qr);
      KeyKeepsUuid(user.value);
      AppendKeepsStoredIds(rows, seats, row);
      AppendKeepsKeys(rows, row);
      if OnePerTriple(rows) {
        AppendKeepsOnePerTriple(rows, row);
      }
      if countKnown && WithinCapacity(rows, seats) {
        AppendKeepsCapacity(rows, seats, row);
      }
      rows := rows + [row];
      result := Pass;
    }

    /** cancelReservation; `updateOk` is the store's answer to the update. */
    method CancelReservation(id: string, user: Option<string>, updateOk: bool)
      returns (result: Outcome<CancelError>)
      requires Valid()
      modifies this
      ensures Valid()
      ensures var check := CancelCheck(old(rows), id, user);
        result == if check.Pass? && !updateOk then Fail(UpdateFailed) else check
      ensures result.Fail? ==> rows == old(rows)
      ensures result.Pass? ==> rows == CancelRows(old(rows), id)
      ensures old(OnePerTriple(rows)) ==> OnePerTriple(rows)
      ensures old(WithinCapacity(rows, seats)) ==> WithinCapacity(rows, seats)
    {
      if id == "" {
        return Fail(MissingId);
      }
      if user.None? {
        return Fail(AuthRequired);
      }
      var k := Find(rows, UuidKey(id));
      if k.None? {
        return Fail(NotFound);
      }
      if rows[k.value].userId != user.value {
        return Fail(NotOwner);
      }
      if !updateOk {
        return Fail(UpdateFailed);
      }
      CancelKeepsKeys(rows, id);
      CancelKeepsInvariants(rows, seats, id);
      rows := CancelRows(rows, id);
      result := Pass;
    }
  }

  // ---------------------------------------------------------------------
  // Counting

  lemma {:induction false} TripleCountAppend(rows: seq<Reservation>, r: Reservation,
                                             user: string, schedule: string, date: string)
    ensures TripleCount(rows + [r], user, schedule, date)
         == TripleCount(rows, user, schedule, date) + (if SameTriple(r, user, schedule, date) then 1 else 0)
  {
    assert (rows + [r])[..|rows|] == rows;
  }

  lemma {:induction false} BookedAppend(rows: seq<Reservation>, r: Reservation, schedule: string, date: string)
    ensures Booked(rows + [r], schedule, date)
         == Booked(rows, schedule, date) + (if r.scheduleId == schedule && r.date == date then 1 else 0)
  {
    assert (rows + [r])[..|rows|] == rows;
  }

  /** No matching row is counted iff no row has the triple. */
  lemma {:induction false} TripleCountZero(rows: seq<Reservation>, user: string, schedule: string, date: string)
    ensures TripleCount(rows, user, schedule, date) == 0 <==>
            forall i :: 0 <= i < |rows| ==> !SameTriple(rows[i], user, schedule, date)
  {
    if |rows| > 0 {
      var init := rows[..|rows| - 1];
      TripleCountZero(init, user, schedule, date);
      assert forall i :: 0 <= i < |init| ==> init[i] == rows[i];
    }
  }

  /** Under OnePerTriple a triple is counted at most once, so the maybeSingle
      query reports a duplicate exactly when some row has the triple. */
  lemma {:induction false} TripleCountAtMostOne(rows: seq<Reservation>, user: string, schedule: string, date: string)
    requires OnePerTriple(rows)
    ensures TripleCount(rows, user, schedule, date) <= 1
    ensures TripleCount(rows, user, schedule, date) == 1 <==>
            exists i :: 0 <= i < |rows| && SameTriple(rows[i], user, schedule, date)
  {
    TripleCountZero(rows, user, schedule, date);
    if |rows| > 0 {
      var init := rows[..|rows| - 1];
      var last := rows[|rows| - 1];
      assert OnePerTriple(init);
      TripleCountAtMostOne(init, user, schedule, date);
      if SameTriple(last, user, schedule, date) {
        forall i | 0 <= i < |init|
          ensures !SameTriple(init[i], user, schedule, date)
        {
          assert init[i] == rows[i];
        }
        TripleCountZero(init, user, schedule, date);
      }
    }
  }

  // ---------------------------------------------------------------------
  // What a successful create keeps

  lemma AppendKeepsKeys(rows: seq<Reservation>, r: Reservation)
    requires DistinctKeys(rows)
    requires r.id !in Ids(rows) && r.qr !in Qrs(rows)
    ensures DistinctKeys(rows + [r])
  {
    var t := rows + [r];
    forall i, j | 0 <= i < j < |t|
      ensures t[i].id != t[j].id && t[i].qr != t[j].qr
    {
      if j == |rows| {
        assert t[i] in rows;
      }
    }
  }

  /** Appending a row of stored ids keeps the stored ids. */
  lemma AppendKeepsStoredIds(rows: seq<Reservation>, seats: map<string, int>, r: Reservation)
    requires StoredUuids(rows, seats)
    requires StoredId(r.id) && StoredId(r.userId) && StoredId(r.scheduleId)
    ensures StoredUuids(rows + [r], seats)
  {
    var t := rows + [r];
    assert forall i :: 0 <= i < |rows| ==> t[i] == rows[i];
  }

  /** Appending a row whose triple no row has keeps one row per triple. */
  lemma AppendKeepsOnePerTriple(rows: seq<Reservation>, r: Reservation)
    requires OnePerTriple(rows)
    requires TripleCount(rows, r.userId, r.scheduleId, r.date) != 1
    ensures OnePerTriple(rows + [r])
  {
    TripleCountAtMostOne(rows, r.userId, r.scheduleId, r.date);
    TripleCountZero(rows, r.userId, r.scheduleId, r.date);
    var t := rows + [r];
    forall i, j | 0 <= i < j < |t|
      ensures !SameTriple(t[j], t[i].userId, t[i].scheduleId, t[i].date)
    {
      if j == |rows| {
        assert !SameTriple(rows[i], r.userId, r.scheduleId, r.date);
      }
    }
  }

  /** Appending a row to a (schedule, date) below its total_seats keeps every
      (schedule, date) within its total_seats. */
  lemma AppendKeepsCapacity(rows: seq<Reservation>, seats: map<string, int>, r: Reservation)
    requires WithinCapacity(rows, seats)
    requires r.scheduleId in seats && Booked(rows, r.scheduleId, r.date) < seats[r.scheduleId]
    ensures WithinCapacity(rows + [r], seats)
  {
    var t := rows + [r];
    forall i | 0 <= i < |t| && t[i].scheduleId in seats
      ensures Booked(t, t[i].scheduleId, t[i].date) <= seats[t[i].scheduleId]
    {
      BookedAppend(rows, r, t[i].scheduleId, t[i].date);
      if i < |rows| {
        assert t[i] == rows[i];
      }
    }
  }

  /** Starting from a table with one row per triple and every (schedule,
      date) within total_seats, a create whose checks pass (the count being
      known) appends one confirmed row and keeps both properties. */
  lemma CreatePreservesInvariants(rows: seq<Reservation>, seats: map<string, int>,
                                  user: Option<string>, schedule: FormValue, date: FormValue,
                                  id: string, qr: string)
    requires OnePerTriple(rows) && WithinCapacity(rows, seats)
    requires CreateCheck(rows, seats, user, schedule, date, true).Pass?
    ensures user.Some? && schedule.Str? && date.Str?
    ensures var r := NewRow(id, user.value, schedule.text, date.text, qr);
      OnePerTriple(rows + [r]) && WithinCapacity(rows + [r], seats)
  {
    var r := NewRow(id, user.value, schedule.text, date.text, qr);
    AppendKeepsOnePerTriple(rows, r);
    AppendKeepsCapacity(rows, seats, r);
  }

  /** The duplicate check ignores status: a row for the triple blocks a new
      create even when that row is cancelled, and whatever the letter case
      in which the user and schedule ids are written. */
  lemma DuplicateWhateverStatus(rows: seq<Reservation>, seats: map<string, int>, k: nat,
                                user: string, schedule: string, date: string, countKnown: bool)
    requires OnePerTriple(rows)
    requires k < |rows| && SameTriple(rows[k], UuidKey(user), UuidKey(schedule), date)
    requires schedule != "" && date != ""
    ensures CreateCheck(rows, seats, Some(user), Str(schedule), Str(date), countKnown) == Fail(AlreadyReserved)
  {
    TripleCountAtMostOne(rows, UuidKey(user), UuidKey(schedule), date);
  }

  /** The capacity count ignores status: a (schedule, date) whose rows reach
      total_seats is full even when some of those rows are cancelled. */
  lemma FullWhateverStatus(rows: seq<Reservation>, seats: map<string, int>, user: string,
                           schedule: string, date: string)
    requires schedule != "" && date != ""
    requires TripleCount(rows, UuidKey(user), UuidKey(schedule), date) != 1
    requires UuidKey(schedule) in seats && Booked(rows, UuidKey(schedule), date) >= seats[UuidKey(schedule)]
    ensures CreateCheck(rows, seats, Some(user), Str(schedule), Str(date), true) == Fail(SoldOut)
  {
  }

  // ---------------------------------------------------------------------
  // What a successful cancel keeps

  lemma CancelKeepsKeys(rows: seq<Reservation>, id: string)
    requires DistinctKeys(rows)
    ensures DistinctKeys(CancelRows(rows, id))
  {
  }

  /** Cancel changes the status of the row the id names and nothing else. */
  lemma CancelOnlyTarget(rows: seq<Reservation>, id: string, k: nat)
    requires DistinctKeys(rows)
    requires k < |rows| && rows[k].id == UuidKey(id)
    ensures CancelRows(rows, id) == rows[k := rows[k].(status := Cancelled)]
  {
  }

  /** Cancel keeps one row per triple, every (schedule, date) within
      total_seats and the stored ids: it changes no triple and no id, and
      every count stays as it was. */
  lemma CancelKeepsInvariants(rows: seq<Reservation>, seats: map<string, int>, id: string)
    ensures OnePerTriple(rows) ==> OnePerTriple(CancelRows(rows, id))
    ensures WithinCapacity(rows, seats) ==> WithinCapacity(CancelRows(rows, id), seats)
    ensures StoredUuids(rows, seats) ==> StoredUuids(CancelRows(rows, id), seats)
  {
    var after := CancelRows(rows, id);
    forall i | 0 <= i < |rows|
      ensures Booked(after, after[i].scheduleId, after[i].date) == Booked(rows, rows[i].scheduleId, rows[i].date)
    {
      CancelKeepsCounts(rows, id, rows[i].userId, rows[i].scheduleId, rows[i].date);
    }
  }

  /** Cancel does not look at the status first, so a second cancel leaves the
      same table as the first. */
  lemma CancelIdempotent(rows: seq<Reservation>, id: string)
    ensures CancelRows(CancelRows(rows, id), id) == CancelRows(rows, id)
  {
  }

  /** Cancel keeps every count the create checks use: a cancelled row still
      takes its seat and still blocks its triple. */
  lemma {:induction false} CancelKeepsCounts(rows: seq<Reservation>, id: string,
                                             user: string, schedule: string, date: string)
    ensures Booked(CancelRows(rows, id), schedule, date) == Booked(rows, schedule, date)
    ensures TripleCount(CancelRows(rows, id), user, schedule, date) == TripleCount(rows, user, schedule, date)
  {
    if |rows| > 0 {
      var init := rows[..|rows| - 1];
      CancelKeepsCounts(init, id, user, schedule, date);
      assert CancelRows(rows, id)[..|rows| - 1] == CancelRows(init, id);
    }
  }

  /** After a create and a cancel of the created row, the same user cannot
      book the same schedule and date again. */
  lemma RebookAfterCancelRejected(rows: seq<Reservation>, seats: map<string, int>, user: string,
                                  schedule: string, date: string, id: string, qr: string, countKnown: bool)
    requires OnePerTriple(rows)
    requires CreateCheck(rows, seats, Some(user), Str(schedule), Str(date), countKnown).Pass?
    ensures var after := CancelRows(rows + [NewRow(id, user, schedule, date, qr)], id);
      CreateCheck(after, seats, Some(user), Str(schedule), Str(date), countKnown) == Fail(AlreadyReserved)
  {
    var r := NewRow(id, user, schedule, date, qr);
    var u, s := UuidKey(user), UuidKey(schedule);
    TripleCountAtMostOne(rows, u, s, date);
    TripleCountAppend(rows, r, u, s, date);
    CancelKeepsCounts(rows + [r], id, u, s, date);
  }

  /** The store, not the code, decides which row an id names: two spellings
      of one uuid cancel the same row with the same outcome. */
  lemma CancelAnySpelling(rows: seq<Reservation>, a: string, b: string, user: Option<string>)
    requires DistinctKeys(rows)
    requires a != "" && b != "" && UuidKey(a) == UuidKey(b)
    ensures CancelCheck(rows, a, user) == CancelCheck(rows, b, user)
    ensures CancelRows(rows, a) == CancelRows(rows, b)
  {
  }

  // ---------------------------------------------------------------------
  // The remaining refusals

  /** A schedule id that names no schedule is refused as invalid, unless the
      caller already holds exactly one row for it (lines 44-52). */
  lemma UnknownScheduleInvalid(rows: seq<Reservation>, seats: map<string, int>, user: string,
                               schedule: string, date: string, countKnown: bool)
    requires schedule != "" && date != ""
    requires TripleCount(rows, UuidKey(user), UuidKey(schedule), date) != 1
    requires UuidKey(schedule) !in seats
    ensures CreateCheck(rows, seats, Some(user), Str(schedule), Str(date), countKnown) == Fail(InvalidSchedule)
  {
  }

  /** A reservation whose owner is another user is not cancelled (line 107). */
  lemma OtherUsersRowNotOwner(rows: seq<Reservation>, id: string, user: string, k: nat)
    requires DistinctKeys(rows)
    requires id != "" && k < |rows| && rows[k].id == UuidKey(id) && rows[k].userId != user
    ensures CancelCheck(rows, id, Some(user)) == Fail(NotOwner)
  {
  }

  /** A filter text that is no uuid names no stored row and no schedule. */
  lemma NonUuidMatchesNothing(rows: seq<Reservation>, seats: map<string, int>, f: string)
    requires StoredUuids(rows, seats) && !IsUuid(f)
    ensures Find(rows, UuidKey(f)).None? && UuidKey(f) !in seats
    ensures forall i :: 0 <= i < |rows| ==> rows[i].scheduleId != UuidKey(f)
  {
    KeyKeepsUuid(f);
  }

  /** A schedule id that is no uuid makes both lookups of lines 31-48 come
      back empty in the store, so the create is refused as an invalid
      schedule, as in the model. */
  lemma NonUuidScheduleInvalid(rows: seq<Reservation>, seats: map<string, int>, user: string,
                               schedule: string, date: string, countKnown: bool)
    requires StoredUuids(rows, seats)
    requires schedule != "" && date != "" && !IsUuid(schedule)
    ensures CreateCheck(rows, seats, Some(user), Str(schedule), Str(date), countKnown) == Fail(InvalidSchedule)
  {
    NonUuidMatchesNothing(rows, seats, schedule);
    TripleCountZero(rows, UuidKey(user), UuidKey(schedule), date);
  }

  /** A reservation id that is no uuid finds no row, which the code reports
      as not found (lines 97-105). */
  lemma NonUuidCancelNotFound(rows: seq<Reservation>, seats: map<string, int>, id: string, user: string)
    requires DistinctKeys(rows) && StoredUuids(rows, seats)
    requires id != "" && !IsUuid(id)
    ensures CancelCheck(rows, id, Some(user)) == Fail(NotFound)
  {
    NonUuidMatchesNothing(rows, seats, id);
  }
}
