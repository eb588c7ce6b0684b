/**
 * `isEmailAllowed` (lib/auth/allowlist.ts). The `ADMIN_EMAIL_ALLOWLIST`
 * variable is a parameter; `None` stands for an unset variable.
 */
module Allowlist {
  import opened Wrappers
  import opened JsStrings
  import opened EmailList
  import AdminAuth

  /** `isEmailAllowed(email)` with `process.env.ADMIN_EMAIL_ALLOWLIST` passed in. */
  function IsEmailAllowed(email: Option<string>, allowlistVar: Option<string>): (ok: bool)
    ensures ok <==> email.Some? && email.value != "" && Listed(email.value, allowlistVar.GetOr(""))
  {
    if email.None? || email.value == "" then false
    else
      var allowlist := ParseList(allowlistVar.GetOr(""));
      if |allowlist| == 0 then false
      else ToLower(email.value) in allowlist
  }

  /** An empty parsed list lets nobody in. */
  lemma EmptyAllowlistRejects(email: Option<string>, allowlistVar: Option<string>)
    requires ParseList(allowlistVar.GetOr("")) == []
    ensures !IsEmailAllowed(email, allowlistVar)
  {
  }

  /** The allow-list check is the admin check applied to the other variable. */
  lemma SameAsAdminCheck(email: Option<string>, raw: Option<string>)
    ensures IsEmailAllowed(email, raw) == AdminAuth.IsAdminEmail(email, raw)
  {
  }
}
