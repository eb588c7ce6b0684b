/**
 * `isAdminEmail` (lib/auth/admin.ts). The `ADMIN_EMAIL` variable is a
 * parameter; `None` stands for an unset variable.
 */
module AdminAuth {
  import opened Wrappers
  import opened JsStrings
  import opened EmailList

  /** `isAdminEmail(email)` with `process.env.ADMIN_EMAIL` passed in. */
  function IsAdminEmail(email: Option<string>, adminEmailVar: Option<string>): (ok: bool)
    ensures ok <==> email.Some? && email.value != "" && Listed(email.value, adminEmailVar.GetOr(""))
  {
    if email.None? || email.value == "" then false
    else
      var list := ParseList(adminEmailVar.GetOr(""));
      if |list| == 0 then false
      else ToLower(email.value) in list
  }

  /** A missing or empty address is never an admin. */
  lemma NoEmailNoAdmin(email: Option<string>, adminEmailVar: Option<string>)
    requires email.None? || email == Some("")
    ensures !IsAdminEmail(email, adminEmailVar)
  {
  }

  /** With the variable unset, nobody is an admin. */
  lemma UnsetVariableNoAdmin(email: Option<string>)
    ensures !IsAdminEmail(email, None)
  {
    EmptyRawEmptyList();
  }

  /** Letter case of the address does not matter. */
  lemma AdminIgnoresCase(e1: string, e2: string, adminEmailVar: Option<string>)
    requires ToLower(e1) == ToLower(e2)
    ensures IsAdminEmail(Some(e1), adminEmailVar) == IsAdminEmail(Some(e2), adminEmailVar)
  {
  }

  /** Every entry of the variable, in whatever case and with whatever padding, is an admin. */
  lemma ListedEntryIsAdmin(email: string, adminEmailVar: string)
    requires email != ""
    requires exists p :: p in Split(adminEmailVar, ',') && NormalizeEntry(p) == ToLower(email)
    ensures IsAdminEmail(Some(email), Some(adminEmailVar))
  {
    ToLowerKeepsShape(email);
  }
}
