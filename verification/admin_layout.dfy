/** The path decisions of `src/components/layouts/AdminLayout.tsx`: which
    sidebar entry is highlighted, the page title, and the theme class put
    on the document body after each navigation. */
module AdminLayout {
  import opened Options
  import opened Strings

  const DashboardPath := "/admin/dashboard"
  const RenewalsPath := "/admin/renewals"
  const UsersPath := "/admin/users"
  const NotificationsPath := "/admin/notifications"
  const RemindersPath := "/admin/reminders"
  const SettingsPath := "/admin/settings"

  /** `isActivePath(path)`: the current path is the entry's path or lies
      below it. */
  function IsActivePath(pathname: string, path: string): (r: bool)
    ensures r <==> (pathname == path ||
      (|path| < |pathname| && pathname[..|path|] == path && pathname[|path|] == '/'))
  {
    pathname == path || StartsWith(pathname, path + "/")
  }

  /** A path that merely extends the entry's name is not below it. */
  lemma RenewalsXNotActive()
    ensures !IsActivePath("/admin/renewalsX", RenewalsPath)
    ensures IsActivePath("/admin/renewals/42", RenewalsPath)
  {
    assert "/admin/renewalsX"[15] == 'X';
    assert "/admin/renewals/42"[..15] == RenewalsPath;
  }

  /** Every page below an entry highlights it. */
  lemma BelowIsActive(path: string, rest: string)
    ensures IsActivePath(path + "/" + rest, path)
  {
    assert (path + "/" + rest)[..|path|] == path;
    assert (path + "/" + rest)[|path|] == '/';
  }

  /** `path ? isActivePath(path) : false`: an entry without a path, or with
      the empty one, is not highlighted. */
  function SidebarActive(pathname: string, path: Option<string>): (r: bool)
    ensures r ==> path.Some? && path.value != ""
    ensures path.Some? && path.value != "" ==> (r <==> IsActivePath(pathname, path.value))
  {
    match path
    case None => false
    case Some(p) => p != "" && IsActivePath(pathname, p)
  }

  /** The guard matters: `isActivePath('')` holds on every absolute path,
      yet an entry with the empty path is never highlighted. */
  lemma EmptyPathGuarded(pathname: string)
    requires |pathname| > 0 && pathname[0] == '/'
    ensures IsActivePath(pathname, "")
    ensures !SidebarActive(pathname, Some(""))
  {
  }

  /** How a title or theme rule tests the path. */
  datatype Rule = Exact(path: string) | Includes(part: string)
  {
    predicate Hits(pathname: string)
    {
      match this
      case Exact(p) => pathname == p
      case Includes(p) => Contains(pathname, p)
    }
  }

  const TitleFallback := "Renewal Management System"

  /** The title rules in the order they are tried. */
  const TitleRules: seq<(Rule, string)> := [
    (Exact(DashboardPath), "Admin Dashboard"),
    (Includes(RenewalsPath), "Renewals Management"),
    (Includes(UsersPath), "Users Management"),
    (Includes(NotificationsPath), "Notifications"),
    (Includes(RemindersPath), "Reminders"),
    (Includes(SettingsPath), "Settings")]

  /** The answer of the first rule that hits, or `fallback`. */
  function FirstHit<T>(rules: seq<(Rule, T)>, pathname: string, fallback: T): (r: T)
    ensures r == fallback || exists i :: 0 <= i < |rules| && rules[i].0.Hits(pathname) && r == rules[i].1
    ensures (forall i :: 0 <= i < |rules| ==> !rules[i].0.Hits(pathname)) ==> r == fallback
    ensures |rules| > 0 && rules[0].0.Hits(pathname) ==> r == rules[0].1
  {
    if |rules| == 0 then fallback
    else if rules[0].0.Hits(pathname) then rules[0].1
    else
      var r := FirstHit(rules[1..], pathname, fallback);
      assert forall i :: 0 <= i < |rules| - 1 ==> rules[1..][i] == rules[i + 1];
      r
  }

  /** For any table, the answer is the value of the earliest rule that
      hits the path. */
  lemma {:induction false} FirstHitIsFirst<T>(rules: seq<(Rule, T)>, pathname: string, fallback: T, i: nat)
    requires i < |rules| && rules[i].0.Hits(pathname)
    requires forall j :: 0 <= j < i ==> !rules[j].0.Hits(pathname)
    ensures FirstHit(rules, pathname, fallback) == rules[i].1
  {
    if i > 0 {
      assert forall j :: 0 <= j < i - 1 ==> rules[1..][j] == rules[j + 1];
      FirstHitIsFirst(rules[1..], pathname, fallback, i - 1);
    }
  }

  /** `getPageTitle()`, in the order the source tests the path. */
  function GetPageTitle(pathname: string): (r: string)
    // Only the exact dashboard path is titled after it; pages below it are not.
    ensures r == "Admin Dashboard" <==> pathname == DashboardPath
  {
    if pathname == DashboardPath then "Admin Dashboard"
    else if Contains(pathname, RenewalsPath) then "Renewals Management"
    else if Contains(pathname, UsersPath) then "Users Management"
    else if Contains(pathname, NotificationsPath) then "Notifications"
    else if Contains(pathname, RemindersPath) then "Reminders"
    else if Contains(pathname, SettingsPath) then "Settings"
    else TitleFallback
  }

  /** `getPageTitle` is the first hit in the rule table. */
  lemma GetPageTitleFollowsTable(pathname: string)
    ensures GetPageTitle(pathname) == FirstHit(TitleRules, pathname, TitleFallback)
  {
    FirstHitUnfold(TitleRules, pathname, TitleFallback);
  }

  /** Unfolds `FirstHit` over a table of six rules. */
  lemma FirstHitUnfold<T>(rules: seq<(Rule, T)>, pathname: string, fallback: T)
    requires |rules| == 6
    ensures FirstHit(rules, pathname, fallback) ==
      if rules[0].0.Hits(pathname) then rules[0].1
      else if rules[1].0.Hits(pathname) then rules[1].1
      else if rules[2].0.Hits(pathname) then rules[2].1
      else if rules[3].0.Hits(pathname) then rules[3].1
      else if rules[4].0.Hits(pathname) then rules[4].1
      else if rules[5].0.Hits(pathname) then rules[5].1
      else fallback
  {
    var t := rules;
    assert FirstHit(t, pathname, fallback) == if t[0].0.Hits(pathname) then t[0].1 else FirstHit(t[1..], pathname, fallback);
    t := t[1..];
    assert FirstHit(t, pathname, fallback) == if t[0].0.Hits(pathname) then t[0].1 else FirstHit(t[1..], pathname, fallback);
    t := t[1..];
    assert FirstHit(t, pathname, fallback) == if t[0].0.Hits(pathname) then t[0].1 else FirstHit(t[1..], pathname, fallback);
    t := t[1..];
    assert FirstHit(t, pathname, fallback) == if t[0].0.Hits(pathname) then t[0].1 else FirstHit(t[1..], pathname, fallback);
    t := t[1..];
    assert FirstHit(t, pathname, fallback) == if t[0].0.Hits(pathname) then t[0].1 else FirstHit(t[1..], pathname, fallback);
    t := t[1..];
    assert FirstHit(t, pathname, fallback) == if t[0].0.Hits(pathname) then t[0].1 else FirstHit(t[1..], pathname, fallback);
    assert |t[1..]| == 0;
  }

  lemma ContainsTail(a: string, t: string)
    ensures Contains(a + t, t)
  {
    assert (a + t)[|a|..][..|t|] == t;
    PositionContains(a + t, t, |a|);
  }

  /** Every page below the renewals entry is titled "Renewals Management". */
  lemma BelowRenewalsTitle(pathname: string)
    requires IsActivePath(pathname, RenewalsPath)
    ensures GetPageTitle(pathname) == "Renewals Management"
  {
    assert pathname != DashboardPath by {
      assert pathname[..|RenewalsPath|] == RenewalsPath;
      assert pathname[7] == 'r' && DashboardPath[7] == 'd';
    }
    assert StartsWith(pathname, RenewalsPath);
  }

  /** The first rule wins: a page below the users entry whose path also
      mentions the renewals page is titled after the renewals page. */
  lemma FirstHitWins(rest: string)
    ensures IsActivePath(UsersPath + "/" + rest + RenewalsPath, UsersPath)
    ensures GetPageTitle(UsersPath + "/" + rest + RenewalsPath) == "Renewals Management"
  {
    var p := UsersPath + "/" + rest + RenewalsPath;
    assert p == UsersPath + "/" + (rest + RenewalsPath);
    BelowIsActive(UsersPath, rest + RenewalsPath);
    ContainsTail(UsersPath + "/" + rest, RenewalsPath);
    assert p != DashboardPath by {
      assert p[7] == 'u' && DashboardPath[7] == 'd';
    }
  }

  /** The four theme classes. */
  const AdminDashboardTheme := "theme-admin-dashboard"
  const AdminRenewalsTheme := "theme-admin-renewals"
  const UserDashboardTheme := "theme-user-dashboard"
  const LoginTheme := "theme-login"
  const Themes: set<string> := {AdminDashboardTheme, AdminRenewalsTheme, UserDashboardTheme, LoginTheme}

  const ThemeRules: seq<(Rule, Option<string>)> := [
    (Exact(DashboardPath), Some(AdminDashboardTheme)),
    (Includes(RenewalsPath), Some(AdminRenewalsTheme)),
    (Includes("/user/dashboard"), Some(UserDashboardTheme)),
    (Includes("/login"), Some(LoginTheme))]

  /** The class the theme effect adds for a path, if any. */
  function ThemeFor(pathname: string): (r: Option<string>)
    ensures r.Some? ==> r.value in Themes
  {
    if pathname == DashboardPath then Some(AdminDashboardTheme)
    else if Contains(pathname, RenewalsPath) then Some(AdminRenewalsTheme)
    else if Contains(pathname, "/user/dashboard") then Some(UserDashboardTheme)
    else if Contains(pathname, "/login") then Some(LoginTheme)
    else None
  }

  /** The theme effect is the first hit in its rule table. */
  lemma ThemeFollowsTable(pathname: string)
    ensures ThemeFor(pathname) == FirstHit(ThemeRules, pathname, None)
  {
    var t := ThemeRules;
    assert FirstHit(t, pathname, None) == if t[0].0.Hits(pathname) then t[0].1 else FirstHit(t[1..], pathname, None);
    t := t[1..];
    assert FirstHit(t, pathname, None) == if t[0].0.Hits(pathname) then t[0].1 else FirstHit(t[1..], pathname, None);
    t := t[1..];
    assert FirstHit(t, pathname, None) == if t[0].0.Hits(pathname) then t[0].1 else FirstHit(t[1..], pathname, None);
    t := t[1..];
    assert FirstHit(t, pathname, None) == if t[0].0.Hits(pathname) then t[0].1 else FirstHit(t[1..], pathname, None);
    assert |t[1..]| == 0;
  }

  /** The body's classes after the theme effect runs for `pathname`: all
      four theme classes go, then at most one comes back. */
  function ApplyTheme(body: set<string>, pathname: string): (r: set<string>)
    ensures r - Themes == body - Themes
    ensures ThemeFor(pathname).None? ==> r * Themes == {}
    ensures ThemeFor(pathname).Some? ==> r * Themes == {ThemeFor(pathname).value}
  {
    var cleared := body - Themes;
    match ThemeFor(pathname)
    case None => cleared
    case Some(c) => cleared + {c}
  }

  /** At most one theme class is ever on the body, and the classes depend
      on the current path only, not on where the user came from. */
  lemma ThemeForgetsHistory(body: set<string>, before: string, pathname: string)
    ensures |ApplyTheme(body, pathname) * Themes| <= 1
    ensures ApplyTheme(ApplyTheme(body, before), pathname) == ApplyTheme(body, pathname)
  {
    var once := ApplyTheme(body, before);
    var twice := ApplyTheme(once, pathname);
    var direct := ApplyTheme(body, pathname);
    assert twice - Themes == direct - Themes;
    assert twice * Themes == direct * Themes;
    assert twice == (twice - Themes) + (twice * Themes);
    assert direct == (direct - Themes) + (direct * Themes);
  }

  /** The theme and the title agree on the two admin pages they both name. */
  lemma ThemeMatchesTitle(pathname: string)
    ensures ThemeFor(pathname) == Some(AdminDashboardTheme) <==> GetPageTitle(pathname) == "Admin Dashboard"
    ensures ThemeFor(pathname) == Some(AdminRenewalsTheme) <==> GetPageTitle(pathname) == "Renewals Management"
  {
  }
}
