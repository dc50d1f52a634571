/** The gsb_users table and the updateUser action of
    app/admin/operations/users/actions.ts: normalise the form, validate it
    against userUpdateSchema, refuse a self-edit that would drop the
    caller's own operations_admin role or approval, then update role,
    company_id and is_approved of the row with that id.

    The guard as written compares the caller's id and the requested id as
    strings, while the update matches the row by uuid value; the model keeps
    that guard as `SelfEditAllowedAsWritten`, shows the self-edit it lets
    through, and uses `SelfEditAllowed`, which compares keys. */
module UserAdmin {
  import opened Common

  /** A row of gsb_users (created_at and phone_number are left out). */
  datatype UserRow = UserRow(
    id: string,
    role: UserRole,
    companyId: Option<string>,
    isApproved: bool,
    fullName: Option<string>,
    email: Option<string>)

  /** user ids are the table's primary key */
  ghost predicate DistinctIds(rows: seq<UserRow>) {
    forall i, j :: 0 <= i < j < |rows| ==> rows[i].id != rows[j].id
  }

  /** The uuid columns id and company_id hold uuids in their stored
      spelling. */
  ghost predicate StoredUuids(rows: seq<UserRow>) {
    forall i :: 0 <= i < |rows| ==>
      StoredId(rows[i].id) && (rows[i].companyId.Some? ==> StoredId(rows[i].companyId.value))
  }

  /** `.from('gsb_users').select(...).eq('id', id).single()` */
  function Lookup(rows: seq<UserRow>, id: string): (r: Option<UserRow>)
    ensures r.Some? ==> r.value in rows && r.value.id == id
    ensures r.None? ==> forall i :: 0 <= i < |rows| ==> rows[i].id != id
  {
    if |rows| == 0 then None
    else if rows[0].id == id then Some(rows[0])
    else Lookup(rows[1..], id)
  }

  /** The parsed form: the three columns updateUser writes. */
  datatype UserUpdate = UserUpdate(role: UserRole, companyId: Option<string>, isApproved: bool)

  datatype UpdateError = InvalidData | SelfEdit | WriteFailed

  /** Line 20: 'null' and '' become null, anything else is passed on. */
  function NormalizeCompanyId(v: FormValue): (c: FormValue)
    ensures c.Null? <==> v.Null? || v == Str("null") || v == Str("")
    ensures !c.Null? ==> c == v
  {
    if v == Str("null") || v == Str("") then Null else v
  }

  /** z.enum(['employee', 'company_admin', 'operations_admin']) */
  function ParseRole(v: FormValue): (r: Option<UserRole>)
    ensures r.Some? <==> v in {Str("employee"), Str("company_admin"), Str("operations_admin")}
  {
    match v
    case Str("employee") => Some(Employee)
    case Str("company_admin") => Some(CompanyAdmin)
    case Str("operations_admin") => Some(OperationsAdmin)
    case _ => None
  }

  /** z.string().uuid().nullable() */
  predicate NullableUuid(v: FormValue) {
    v.Null? || (v.Str? && IsUuid(v.text))
  }

  /** Lines 16-27: the normalised form, if it passes userUpdateSchema. */
  function ParseUpdate(role: FormValue, companyId: FormValue, approved: FormValue): (u: Option<UserUpdate>)
    ensures u.Some? <==> ParseRole(role).Some? && NullableUuid(NormalizeCompanyId(companyId))
    ensures u.Some? ==> u.value.role == ParseRole(role).value
    ensures u.Some? ==> (u.value.isApproved <==> approved == Str("true"))
    ensures u.Some? ==> (u.value.companyId.None? <==> NormalizeCompanyId(companyId).Null?)
    ensures u.Some? && u.value.companyId.Some? ==> companyId == Str(u.value.companyId.value)
    ensures u.Some? && u.value.companyId.Some? ==> IsUuid(u.value.companyId.value)
  {
    var c := NormalizeCompanyId(companyId);
    match ParseRole(role)
    case None => None
    case Some(r) =>
      if !NullableUuid(c) then None
      else Some(UserUpdate(r, if c.Str? then Some(c.text) else None, approved == Str("true")))
  }

  /** Lines 30-35 as written: the guard applies when the caller's id and the
      requested id are the same string (`===`). When no user is signed in the
      guard does not apply. */
  function SelfEditAllowedAsWritten(caller: Option<string>, userId: string, u: UserUpdate): (r: bool)
    ensures caller.None? || caller.value != userId ==> r
    ensures caller == Some(userId) ==> (r <==> u.role == OperationsAdmin && u.isApproved)
  {
    caller == Some(userId) ==> u.role == OperationsAdmin && u.isApproved
  }

  /** The guard as line 29 states its purpose: whenever the row the update
      writes is the caller's own, that is, whenever the requested id and the
      caller's id are the same uuid, the update must keep operations_admin and
      the approval. */
  function SelfEditAllowed(caller: Option<string>, userId: string, u: UserUpdate): (r: bool)
    ensures caller.None? ==> r
    ensures r ==> SelfEditAllowedAsWritten(caller, userId, u)
  {
    caller.Some? && UuidKey(userId) == UuidKey(caller.value) ==> u.role == OperationsAdmin && u.isApproved
  }

  datatype Guard = AsWritten | Corrected

  predicate GuardAllows(guard: Guard, caller: Option<string>, userId: string, u: UserUpdate) {
    match guard
    case AsWritten => SelfEditAllowedAsWritten(caller, userId, u)
    case Corrected => SelfEditAllowed(caller, userId, u)
  }

  /** The outcome of updateUser, lines 16-44, with the self-edit guard as
      written or corrected; `writeOk` is the store's answer to the update. */
  function UpdateCheck(guard: Guard, caller: Option<string>, userId: string,
                       role: FormValue, companyId: FormValue, approved: FormValue, writeOk: bool): (r: Outcome<UpdateError>)
    ensures r.Pass? <==> (ParseUpdate(role, companyId, approved).Some? && writeOk &&
      GuardAllows(guard, caller, userId, ParseUpdate(role, companyId, approved).value))
    ensures r == Fail(InvalidData) <==> ParseUpdate(role, companyId, approved).None?
  {
    var u := ParseUpdate(role, companyId, approved);
    if u.None? then Fail(InvalidData)
    else if !GuardAllows(guard, caller, userId, u.value) then Fail(SelfEdit)
    else if !writeOk then Fail(WriteFailed)
    else Pass
  }

  /** `.update(parsed.data).eq('id', userId)`: the row whose id is the key of
      `userId` gets the three parsed columns, the store keeping the key of
      the company uuid. */
  function SetProfile(rows: seq<UserRow>, userId: string, u: UserUpdate): seq<UserRow>
  {
    seq(|rows|, i requires 0 <= i < |rows| =>
      if rows[i].id == UuidKey(userId)
      then rows[i].(role := u.role, companyId := StoredCompany(u.companyId), isApproved := u.isApproved)
      else rows[i])
  }

  function StoredCompany(c: Option<string>): Option<string> {
    if c.Some? then Some(UuidKey(c.value)) else None
  }

  class UserTable {
    /** gsb_users */
    var rows: seq<UserRow>

    ghost predicate Valid()
      reads this
    {
      DistinctIds(rows) && StoredUuids(rows)
    }

    constructor (rows: seq<UserRow>)
      requires DistinctIds(rows) && StoredUuids(rows)
      ensures Valid() && this.rows == rows
    {
      this.rows := rows;
    }

    /** updateUser; `caller` is the signed-in user's id, `writeOk` the
        store's answer to the update. */
    method UpdateUser(caller: Option<string>, userId: string,
                      role: FormValue, companyId: FormValue, approved: FormValue, writeOk: bool)
      returns (result: Outcome<UpdateError>)
      requires Valid()
      modifies this
      ensures Valid()
      ensures result == UpdateCheck(Corrected, caller, userId, role, companyId, approved, writeOk)
      ensures result.Fail? ==> rows == old(rows)
      ensures result.Pass? ==> rows == SetProfile(old(rows), userId, ParseUpdate(role, companyId, approved).value)
    {
      var parsed := ParseUpdate(role, companyId, approved);
      if parsed.None? {
        return Fail(InvalidData);
      }
      if caller.Some? && UuidKey(userId) == UuidKey(caller.value) {
        if parsed.value.role != OperationsAdmin || !parsed.value.isApproved {
          return Fail(SelfEdit);
        }
      }
      if !writeOk {
        return Fail(WriteFailed);
      }
      SetProfileOnlyTarget(rows, userId, parsed.value);
      rows := SetProfile(rows, userId, parsed.value);
      result := Pass;
    }
  }

  /** A successful update changes role, company_id and is_approved of the
      row the id names and nothing else, in that row or any other, and keeps
      the table's ids and stored spellings. */
  lemma SetProfileOnlyTarget(rows: seq<UserRow>, userId: string, u: UserUpdate)
    requires DistinctIds(rows) && StoredUuids(rows)
    requires u.companyId.Some? ==> IsUuid(u.companyId.value)
    ensures DistinctIds(SetProfile(rows, userId, u)) && StoredUuids(SetProfile(rows, userId, u))
    ensures |SetProfile(rows, userId, u)| == |rows|
    ensures forall i :: 0 <= i < |rows| ==>
      var r := SetProfile(rows, userId, u)[i];
      r.id == rows[i].id && r.fullName == rows[i].fullName && r.email == rows[i].email &&
      (rows[i].id != UuidKey(userId) ==> r == rows[i]) &&
      (rows[i].id == UuidKey(userId) ==>
         r.role == u.role && r.companyId == StoredCompany(u.companyId) && r.isApproved == u.isApproved)
  {
    if u.companyId.Some? {
      KeyKeepsUuid(u.companyId.value);
    }
  }

  /** Whatever spelling of their own id the caller sends, they may give their
      own row only the operations_admin role and approval; any other value is
      refused. */
  lemma SelfEditOnlyKeepsAdmin(caller: string, userId: string, role: FormValue, companyId: FormValue, approved: FormValue)
    requires UuidKey(userId) == UuidKey(caller)
    requires ParseUpdate(role, companyId, approved).Some?
    ensures SelfEditAllowed(Some(caller), userId, ParseUpdate(role, companyId, approved).value) <==>
      role == Str("operations_admin") && approved == Str("true")
  {
  }

  /** With the corrected guard, an update that passes leaves the caller's own
      row either as it was or with operations_admin and approval. */
  lemma OwnRowKeepsAdmin(rows: seq<UserRow>, caller: string, userId: string,
                         role: FormValue, companyId: FormValue, approved: FormValue)
    requires UpdateCheck(Corrected, Some(caller), userId, role, companyId, approved, true).Pass?
    ensures var after := SetProfile(rows, userId, ParseUpdate(role, companyId, approved).value);
      forall i :: 0 <= i < |rows| && rows[i].id == UuidKey(caller) ==>
        after[i] == rows[i] || (after[i].role == OperationsAdmin && after[i].isApproved)
  {
  }

  /** The guard as written lets an operations admin demote and un-approve
      their own row: the capitalised spelling of their own id is a different
      string, so the guard does not apply, yet the store matches the same
      row. */
  lemma SelfEditGuardBypassed()
    ensures var caller := "a1b2c3d4-0000-4000-8000-00000000000e";
      var userId := "A1B2C3D4-0000-4000-8000-00000000000E";
      var rows := [UserRow(caller, OperationsAdmin, None, true, None, None)];
      var role, companyId, approved := Str("employee"), Str(""), Str("false");
      UpdateCheck(AsWritten, Some(caller), userId, role, companyId, approved, true) == Pass &&
      UpdateCheck(Corrected, Some(caller), userId, role, companyId, approved, true) == Fail(SelfEdit) &&
      SetProfile(rows, userId, ParseUpdate(role, companyId, approved).value)[0] ==
        UserRow(caller, Employee, None, false, None, None)
  {
    SampleSpellings("a1b2c3d4-0000-4000-8000-00000000000e", "A1B2C3D4-0000-4000-8000-00000000000E");
  }

  /** The two spellings of the uuid used above share the lower-case key. */
  lemma SampleSpellings(lower: string, upper: string)
    requires lower == "a1b2c3d4-0000-4000-8000-00000000000e"
    requires upper == "A1B2C3D4-0000-4000-8000-00000000000E"
    ensures lower != upper && UuidKey(upper) == lower && UuidKey(lower) == lower
  {
    assert lower[0] != upper[0];
    assert UuidKey(upper) == lower;
    assert UuidKey(lower) == lower;
  }

  /** A filter text that is no uuid names no stored user. */
  lemma NonUuidMatchesNothing(rows: seq<UserRow>, f: string)
    requires StoredUuids(rows) && !IsUuid(f)
    ensures Lookup(rows, UuidKey(f)).None?
    ensures forall i :: 0 <= i < |rows| ==> rows[i].id != UuidKey(f)
  {
    KeyKeepsUuid(f);
  }

  /** An update whose id is no uuid changes no row. */
  lemma NonUuidUpdatesNothing(rows: seq<UserRow>, f: string, u: UserUpdate)
    requires StoredUuids(rows) && !IsUuid(f)
    ensures SetProfile(rows, f, u) == rows
  {
    NonUuidMatchesNothing(rows, f);
  }

  /** A role outside the enum is refused whatever the other fields. */
  lemma UnknownRoleRefused(role: FormValue, companyId: FormValue, approved: FormValue)
    requires role !in {Str("employee"), Str("company_admin"), Str("operations_admin")}
    ensures ParseUpdate(role, companyId, approved).None?
  {
  }
}
