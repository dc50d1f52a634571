/** app/admin/company/actions.ts: verifyCompanyAdmin, and approveEmployee,
    which sets is_approved on the row matching both the employee id and the
    company id. */
module CompanyApproval {
  import opened Common
  import opened UserAdmin

  datatype ApproveError = MissingInfo | AuthRequired | Forbidden | StoreError

  /** verifyCompanyAdmin: the caller must be signed in and have a profile
      (looked up by uuid, line 14) with role company_admin whose stored
      company_id is the given company id as a string (`!==`, line 17). */
  function VerifyCompanyAdmin(rows: seq<UserRow>, caller: Option<string>, companyId: string): (r: Outcome<ApproveError>)
    requires DistinctIds(rows)
    ensures r.Pass? <==> (caller.Some? &&
      exists i :: 0 <= i < |rows| && rows[i].id == UuidKey(caller.value) &&
        rows[i].role == CompanyAdmin && rows[i].companyId == Some(companyId))
    ensures r.Fail? ==> r.error == (if caller.None? then AuthRequired else Forbidden)
  {
    if caller.None? then Fail(AuthRequired)
    else
      var profile := Lookup(rows, UuidKey(caller.value));
      if profile.None? || profile.value.role != CompanyAdmin || profile.value.companyId != Some(companyId)
      then Fail(Forbidden)
      else Pass
  }

  /** `.update({is_approved: true}).eq('id', employeeId).eq('company_id', companyId)`,
      both filters on uuid columns. */
  function ApproveInCompany(rows: seq<UserRow>, employeeId: string, companyId: string): seq<UserRow>
  {
    seq(|rows|, i requires 0 <= i < |rows| =>
      if rows[i].id == UuidKey(employeeId) && rows[i].companyId == Some(UuidKey(companyId))
      then rows[i].(isApproved := true)
      else rows[i])
  }

  /** approveEmployee; `writeOk` is the store's answer to the update. */
  method ApproveEmployee(t: UserTable, caller: Option<string>, employeeId: string, companyId: string, writeOk: bool)
    returns (result: Outcome<ApproveError>)
    requires t.Valid()
    modifies t
    ensures t.Valid()
    ensures result == if employeeId == "" || companyId == "" then Fail(MissingInfo)
                      else if VerifyCompanyAdmin(old(t.rows), caller, companyId).Fail?
                      then VerifyCompanyAdmin(old(t.rows), caller, companyId)
                      else if !writeOk then Fail(StoreError)
                      else Pass
    ensures result.Fail? ==> t.rows == old(t.rows)
    ensures result.Pass? ==> t.rows == ApproveInCompany(old(t.rows), employeeId, companyId)
  {
    if employeeId == "" || companyId == "" {
      return Fail(MissingInfo);
    }
    var verified := VerifyCompanyAdmin(t.rows, caller, companyId);
    if verified.Fail? {
      return verified;
    }
    if !writeOk {
      return Fail(StoreError);
    }
    ApproveKeepsIds(t.rows, employeeId, companyId);
    t.rows := ApproveInCompany(t.rows, employeeId, companyId);
    result := Pass;
  }

  lemma ApproveKeepsIds(rows: seq<UserRow>, employeeId: string, companyId: string)
    requires DistinctIds(rows) && StoredUuids(rows)
    ensures DistinctIds(ApproveInCompany(rows, employeeId, companyId))
    ensures StoredUuids(ApproveInCompany(rows, employeeId, companyId))
  {
  }

  /** Only is_approved of a row with both the id and the company changes; an
      employee of another company is left as it was. */
  lemma ApproveOnlyInCompany(rows: seq<UserRow>, employeeId: string, companyId: string)
    ensures |ApproveInCompany(rows, employeeId, companyId)| == |rows|
    ensures forall i :: 0 <= i < |rows| ==>
      var r := ApproveInCompany(rows, employeeId, companyId)[i];
      r == rows[i].(isApproved := r.isApproved) &&
      (r.isApproved <==> (rows[i].isApproved ||
         (rows[i].id == UuidKey(employeeId) && rows[i].companyId == Some(UuidKey(companyId)))))
  {
  }

  /** Approving twice leaves the table as approving once. */
  lemma ApproveIdempotent(rows: seq<UserRow>, employeeId: string, companyId: string)
    ensures ApproveInCompany(ApproveInCompany(rows, employeeId, companyId), employeeId, companyId)
         == ApproveInCompany(rows, employeeId, companyId)
  {
  }

  /** An employee id that is no uuid approves no row. */
  lemma NonUuidApprovesNothing(rows: seq<UserRow>, employeeId: string, companyId: string)
    requires StoredUuids(rows) && !IsUuid(employeeId)
    ensures ApproveInCompany(rows, employeeId, companyId) == rows
  {
    NonUuidMatchesNothing(rows, employeeId);
  }
}
