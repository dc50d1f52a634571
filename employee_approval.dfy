/** app/admin/company/employees/actions.ts: approveEmployee checks that the
    signed-in admin is a company_admin with a company, that the target user
    belongs to that same company, and then sets the target's is_approved. */
module EmployeeApproval {
  import opened Common
  import opened UserAdmin

  datatype ApproveError = LoginRequired | Forbidden | OtherCompany | StoreError

  /** The checks of lines 10-35, in the code's order. Both profiles are
      looked up by uuid; their company_ids, as returned by the store, are then
      compared as strings. A target that does not exist has an undefined
      company_id, which differs from the admin's. */
  function ApprovalCheck(rows: seq<UserRow>, caller: Option<string>, userId: string): (r: Outcome<ApproveError>)
    requires DistinctIds(rows)
    ensures r.Pass? <==> (caller.Some? &&
      exists a, e :: 0 <= a < |rows| && 0 <= e < |rows| &&
        rows[a].id == UuidKey(caller.value) && rows[a].role == CompanyAdmin &&
        rows[a].companyId.Some? && rows[a].companyId.value != "" &&
        rows[e].id == UuidKey(userId) && rows[e].companyId == rows[a].companyId)
    ensures r == Fail(LoginRequired) <==> caller.None?
  {
    if caller.None? then Fail(LoginRequired)
    else
      var admin := Lookup(rows, UuidKey(caller.value));
      if admin.None? || admin.value.role != CompanyAdmin || admin.value.companyId.None? || admin.value.companyId.value == ""
      then Fail(Forbidden)
      else
        var target := Lookup(rows, UuidKey(userId));
        if target.None? || target.value.companyId != admin.value.companyId then Fail(OtherCompany)
        else Pass
  }

  /** `.update({is_approved: true}).eq('id', userId)` */
  function ApproveById(rows: seq<UserRow>, userId: string): seq<UserRow>
  {
    seq(|rows|, i requires 0 <= i < |rows| =>
      if rows[i].id == UuidKey(userId) then rows[i].(isApproved := true) else rows[i])
  }

  /** approveEmployee; `writeOk` is the store's answer to the update. */
  method ApproveEmployee(t: UserTable, caller: Option<string>, userId: string, writeOk: bool)
    returns (result: Outcome<ApproveError>)
    requires t.Valid()
    modifies t
    ensures t.Valid()
    ensures var check := ApprovalCheck(old(t.rows), caller, userId);
      result == if check.Pass? && !writeOk then Fail(StoreError) else check
    ensures result.Fail? ==> t.rows == old(t.rows)
    ensures result.Pass? ==> t.rows == ApproveById(old(t.rows), userId)
  {
    if caller.None? {
      return Fail(LoginRequired);
    }
    var admin := Lookup(t.rows, UuidKey(caller.value));
    if admin.None? || admin.value.role != CompanyAdmin || admin.value.companyId.None? || admin.value.companyId.value == "" {
      return Fail(Forbidden);
    }
    var target := Lookup(t.rows, UuidKey(userId));
    if target.None? || target.value.companyId != admin.value.companyId {
      return Fail(OtherCompany);
    }
    if !writeOk {
      return Fail(StoreError);
    }
    ApproveKeepsIds(t.rows, userId);
    t.rows := ApproveById(t.rows, userId);
    result := Pass;
  }

  lemma ApproveKeepsIds(rows: seq<UserRow>, userId: string)
    requires DistinctIds(rows) && StoredUuids(rows)
    ensures DistinctIds(ApproveById(rows, userId)) && StoredUuids(ApproveById(rows, userId))
  {
  }

  /** A user of another company, or a user the id names no row for, is
      never approved. */
  lemma OtherCompanyRefused(rows: seq<UserRow>, caller: string, userId: string, k: nat)
    requires DistinctIds(rows)
    requires k < |rows| && rows[k].id == UuidKey(caller)
    requires forall e :: 0 <= e < |rows| && rows[e].id == UuidKey(userId) ==> rows[e].companyId != rows[k].companyId
    ensures ApprovalCheck(rows, Some(caller), userId).Fail?
  {
  }

  /** On success only the target's is_approved becomes true; no other field
      or row changes, and a second approval changes nothing more. */
  lemma ApproveOnlyTarget(rows: seq<UserRow>, userId: string)
    ensures |ApproveById(rows, userId)| == |rows|
    ensures forall i :: 0 <= i < |rows| ==>
      ApproveById(rows, userId)[i] ==
        if rows[i].id == UuidKey(userId) then rows[i].(isApproved := true) else rows[i]
    ensures ApproveById(ApproveById(rows, userId), userId) == ApproveById(rows, userId)
  {
  }

  /** A target id that is no uuid finds no profile, whose undefined
      company_id differs from the admin's (line 33), so nothing is approved. */
  lemma NonUuidTargetRefused(rows: seq<UserRow>, caller: string, userId: string)
    requires DistinctIds(rows) && StoredUuids(rows) && !IsUuid(userId)
    ensures ApprovalCheck(rows, Some(caller), userId).Fail?
    ensures ApproveById(rows, userId) == rows
  {
    NonUuidMatchesNothing(rows, userId);
  }
}
