/** The access-control decision of middleware.ts, lines 35-72: from the
    request path, whether a session user exists, and the role on that user's
    profile (None when there is no profile), decide whether the request
    passes or is redirected. Every test is a raw `startsWith`. */
module Middleware {
  import opened Common
  import opened Strings

  /** Where a redirect goes: the sign-in page, or the home page with one of
      three "no permission" messages. */
  datatype Target = SignIn | NotOperationsAdmin | NotCompanyAdmin | NotAdmin

  datatype Decision = Next | Redirect(target: Target)

  /** The paths, besides /admin, that need a signed-in user (line 66). */
  const Protected: seq<string> := ["/my-reservations", "/my-rewards", "/ticket", "/reservations/new"]

  /** Line 66: the path starts with one of the protected prefixes. */
  function IsProtected(path: string): (r: bool)
    ensures r <==> StartsWith(path, "/my-reservations") || StartsWith(path, "/my-rewards") ||
                   StartsWith(path, "/ticket") || StartsWith(path, "/reservations/new")
  {
    assert Protected[0] == "/my-reservations" && Protected[1] == "/my-rewards" &&
      Protected[2] == "/ticket" && Protected[3] == "/reservations/new";
    exists i :: 0 <= i < |Protected| && StartsWith(path, Protected[i])
  }

  /** The redirects of lines 35-72: only a guarded path is redirected, and
      only a request without a user is sent to sign in. */
  function Decide(path: string, signedIn: bool, role: Option<UserRole>): (d: Decision)
    ensures d.Redirect? ==> StartsWith(path, "/admin") || IsProtected(path)
    ensures d == Redirect(SignIn) ==> !signedIn
  {
    if StartsWith(path, "/admin") && !signedIn then Redirect(SignIn)
    else if StartsWith(path, "/admin") && StartsWith(path, "/admin/operations") && role != Some(OperationsAdmin)
    then Redirect(NotOperationsAdmin)
    else if StartsWith(path, "/admin") && StartsWith(path, "/admin/company") && role != Some(CompanyAdmin)
    then Redirect(NotCompanyAdmin)
    else if StartsWith(path, "/admin") && role != Some(OperationsAdmin) && role != Some(CompanyAdmin)
    then Redirect(NotAdmin)
    else if IsProtected(path) && !signedIn then Redirect(SignIn)
    else Next
  }

  lemma AdminNeedsUser(path: string, role: Option<UserRole>)
    requires StartsWith(path, "/admin")
    ensures Decide(path, false, role) == Redirect(SignIn)
  {
  }

  lemma OperationsNeedsOperationsAdmin(path: string, role: Option<UserRole>)
    requires StartsWith(path, "/admin/operations")
    ensures Decide(path, true, role).Next? <==> role == Some(OperationsAdmin)
  {
    assert StartsWith(path, "/admin") by { PrefixOfPrefix("/admin", "/admin/operations", path); }
    assert !StartsWith(path, "/admin/company") by {
      assert path[7] == "/admin/operations"[7] == 'o';
    }
  }

  lemma CompanyNeedsCompanyAdmin(path: string, role: Option<UserRole>)
    requires StartsWith(path, "/admin/company")
    ensures Decide(path, true, role).Next? <==> role == Some(CompanyAdmin)
  {
    assert StartsWith(path, "/admin") by { PrefixOfPrefix("/admin", "/admin/company", path); }
    assert !StartsWith(path, "/admin/operations") by {
      assert path[7] == "/admin/company"[7] == 'c';
    }
    assert !IsProtected(path) by { AdminNotProtected(path); }
  }

  /** Every other /admin path passes only for one of the two admin roles. */
  lemma AdminNeedsAdminRole(path: string, signedIn: bool, role: Option<UserRole>)
    requires StartsWith(path, "/admin")
    ensures Decide(path, signedIn, role).Next? ==>
      signedIn && (role == Some(OperationsAdmin) || role == Some(CompanyAdmin))
  {
  }

  lemma ProtectedNeedsUser(path: string, role: Option<UserRole>)
    requires IsProtected(path)
    ensures Decide(path, false, role) == Redirect(SignIn)
  {
  }

  /** A path that is neither under /admin nor protected always passes. */
  lemma {:induction false} OtherPathsPass(path: string, signedIn: bool, role: Option<UserRole>)
    requires !StartsWith(path, "/admin") && !IsProtected(path)
    ensures Decide(path, signedIn, role) == Next
  {
  }

  /** The whole decision as "pass iff": a signed-out user passes exactly the
      unguarded paths; a signed-in user passes everything outside /admin, and
      under /admin what the role allows. */
  lemma {:induction false} PassIff(path: string, signedIn: bool, role: Option<UserRole>)
    ensures Decide(path, signedIn, role).Next? <==>
      if StartsWith(path, "/admin") then
        signedIn &&
        (StartsWith(path, "/admin/operations") ==> role == Some(OperationsAdmin)) &&
        (StartsWith(path, "/admin/company") ==> role == Some(CompanyAdmin)) &&
        (role == Some(OperationsAdmin) || role == Some(CompanyAdmin))
      else signedIn || !IsProtected(path)
  {
    if StartsWith(path, "/admin") {
      AdminNotProtected(path);
    }
  }

  /** Matching is by raw prefix: /admin/operationsX falls under the
      operations rule. */
  lemma OperationsPrefixIsRaw(role: Option<UserRole>)
    ensures Decide("/admin/operationsX", true, role).Next? <==> role == Some(OperationsAdmin)
  {
    OperationsNeedsOperationsAdmin("/admin/operationsX", role);
  }

  lemma PrefixOfPrefix(a: string, b: string, s: string)
    requires StartsWith(b, a) && StartsWith(s, b)
    ensures StartsWith(s, a)
  {
  }

  /** No /admin path is one of the protected paths. */
  lemma AdminNotProtected(path: string)
    requires StartsWith(path, "/admin")
    ensures !IsProtected(path)
  {
    forall i | 0 <= i < |Protected|
      ensures !StartsWith(path, Protected[i])
    {
      assert path[1] == 'a';
      assert Protected[i][1] != 'a';
    }
  }
}
