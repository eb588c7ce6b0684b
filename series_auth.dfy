/**
 * Who may manage a series (lib/auth/series.ts): a platform admin, the
 * series' owner, or one of its managers, comparing addresses without regard
 * to letter case.
 */
module SeriesAuth {
  import opened Wrappers
  import opened Types
  import opened JsStrings

  /** The managers list, a missing one read as empty. */
  function ManagersOf(series: Series): seq<string> {
    series.managers.GetOr([])
  }

  /** `managers.map(m => m.toLowerCase())` */
  function LowerAll(xs: seq<string>): (r: seq<string>)
    ensures |r| == |xs|
    ensures forall i :: 0 <= i < |r| ==> r[i] == ToLower(xs[i])
  {
    seq(|xs|, i requires 0 <= i < |xs| => ToLower(xs[i]))
  }

  /** A case-insensitive match of `email` with one of `xs`. */
  ghost predicate ListedIgnoringCase(email: string, xs: seq<string>) {
    exists m :: m in xs && ToLower(m) == ToLower(email)
  }

  /** `canManageSeries({ email, series, isAdmin })` */
  function CanManageSeries(email: string, series: Series, isAdmin: bool): (ok: bool)
    ensures isAdmin ==> ok
    ensures ok <==>
              isAdmin || ToLower(series.createdBy) == ToLower(email) ||
              ListedIgnoringCase(email, ManagersOf(series))
  {
    if isAdmin then true
    else
      var e := ToLower(email);
      if ToLower(series.createdBy) == e then true
      else
        var managers := LowerAll(ManagersOf(series));
        assert e in managers <==> ListedIgnoringCase(email, ManagersOf(series)) by {
          if e in managers {
            var i :| 0 <= i < |managers| && managers[i] == e;
            assert ManagersOf(series)[i] in ManagersOf(series);
          }
        }
        e in managers
  }

  /** Two addresses that differ only in letter case get the same answer. */
  lemma EmailCaseIrrelevant(e1: string, e2: string, series: Series, isAdmin: bool)
    requires ToLower(e1) == ToLower(e2)
    ensures CanManageSeries(e1, series, isAdmin) == CanManageSeries(e2, series, isAdmin)
  {
  }

  /** The owner, written in any letter case, may manage. */
  lemma OwnerMayManage(email: string, series: Series, isAdmin: bool)
    requires ToLower(email) == ToLower(series.createdBy)
    ensures CanManageSeries(email, series, isAdmin)
  {
  }

  /** A listed manager, written in any letter case, may manage. */
  lemma ManagerMayManage(email: string, series: Series, isAdmin: bool, k: int)
    requires series.managers.Some? && 0 <= k < |series.managers.value|
    requires ToLower(series.managers.value[k]) == ToLower(email)
    ensures CanManageSeries(email, series, isAdmin)
  {
    assert series.managers.value[k] in ManagersOf(series);
  }

  /** Without admin rights, a series with no managers list is managed by its owner alone. */
  lemma NoManagersMeansOwnerOnly(email: string, series: Series)
    requires series.managers.None?
    ensures CanManageSeries(email, series, false) <==> ToLower(email) == ToLower(series.createdBy)
  {
  }

  /**
   * The answer depends only on the lower-cased owner and the set of
   * lower-cased managers: re-casing or reordering them changes nothing.
   */
  lemma DependsOnlyOnLowerCasedRoster(email: string, s1: Series, s2: Series, isAdmin: bool)
    requires ToLower(s1.createdBy) == ToLower(s2.createdBy)
    requires (set m | m in ManagersOf(s1) :: ToLower(m)) == (set m | m in ManagersOf(s2) :: ToLower(m))
    ensures CanManageSeries(email, s1, isAdmin) == CanManageSeries(email, s2, isAdmin)
  {
    var l1 := set m | m in ManagersOf(s1) :: ToLower(m);
    var l2 := set m | m in ManagersOf(s2) :: ToLower(m);
    assert ListedIgnoringCase(email, ManagersOf(s1)) <==> ToLower(email) in l1;
    assert ListedIgnoringCase(email, ManagersOf(s2)) <==> ToLower(email) in l2;
  }

  /** Owner a@x.com with manager b@x.com: a and b may manage, c only as an admin. */
  lemma Example(series: Series)
    requires series.createdBy == "a@x.com" && series.managers == Some(["b@x.com"])
    ensures CanManageSeries("a@x.com", series, false)
    ensures CanManageSeries("b@x.com", series, false)
    ensures !CanManageSeries("c@x.com", series, false)
    ensures CanManageSeries("c@x.com", series, true)
  {
    assert ToLower("a@x.com") == "a@x.com";
    assert ToLower("b@x.com") == "b@x.com";
    assert ToLower("c@x.com") == "c@x.com";
    assert ManagersOf(series) == ["b@x.com"];
    assert forall m :: m in ManagersOf(series) ==> m == "b@x.com";
  }
}
