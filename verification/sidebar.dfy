/** The side menu: which item is highlighted for the current path, and
    where clicking an item navigates. */
module Sidebar {
  import opened Common
  import Session
  import Routes

  const Dashboard := "dashboard"
  const Projects := "projects"

  /** The menu's item keys, top to bottom. */
  const MenuKeys: seq<string> := ["dashboard", "projects", "employees", "assignments", "history"]

  /** The index of the first slash in `s`, or `|s|` when there is none. */
  function FirstSlash(s: string): (i: nat)
    ensures i <= |s|
    ensures i < |s| ==> s[i] == '/'
    ensures forall k :: 0 <= k < i ==> s[k] != '/'
  {
    if s == [] then 0
    else if s[0] == '/' then 0
    else 1 + FirstSlash(s[1..])
  }

  /** `s.replace('/', '')`: the first slash removed, wherever it is. */
  function RemoveFirstSlash(s: string): (r: string)
    ensures FirstSlash(s) == |s| ==> r == s
    ensures FirstSlash(s) < |s| ==> r == s[..FirstSlash(s)] + s[FirstSlash(s) + 1..]
  {
    if s == [] then []
    else if s[0] == '/' then s[1..]
    else
      var tail := s[1..];
      var rest := RemoveFirstSlash(tail);
      var i := FirstSlash(tail);
      assert FirstSlash(s) == i + 1;
      assert i < |tail| ==> tail[..i] == s[1..i + 1] && tail[i + 1..] == s[i + 2..] && [s[0]] + s[1..i + 1] == s[..i + 1];
      assert i == |tail| ==> [s[0]] + tail == s;
      [s[0]] + rest
  }

  /** The highlighted key for a path: `dashboard` at the root, otherwise
      the path with its first slash removed. */
  function SelectedKey(pathname: string): (key: string)
    ensures pathname == "/" ==> key == Dashboard
    ensures pathname != "/" && pathname != [] && pathname[0] == '/' ==> key == pathname[1..]
    ensures pathname != "/" ==> |key| == |pathname| || |key| == |pathname| - 1
  {
    if pathname == "/" then Dashboard else RemoveFirstSlash(pathname)
  }

  /** Where clicking the item `key` navigates. */
  function Navigate(key: string, user: Option<UserInfo>): (path: string)
    ensures key == Dashboard ==> path == "/home"
    ensures key == Projects && IsProjectManager(user) ==> path == "/pm-projects"
    ensures key != Dashboard && !(key == Projects && IsProjectManager(user)) ==> path == "/" + key
    ensures |path| >= 1 && path[0] == '/'
  {
    if key == Dashboard then "/home"
    else if key == Projects && IsProjectManager(user) then "/pm-projects"
    else "/" + key
  }

  /** Clicking an item that navigates to its own key's path highlights
      that item again. */
  lemma SelectedKeyAfterNavigate(key: string, user: Option<UserInfo>)
    requires key != "" && key != Dashboard && !(key == Projects && IsProjectManager(user))
    ensures SelectedKey(Navigate(key, user)) == key
  {
    var path := Navigate(key, user);
    assert path == "/" + key && path[0] == '/' && path[..0] == [];
    assert path[1..] == key;
  }

  /** The round trip holds for every menu item other than dashboard and,
      for a project manager, projects. */
  lemma MenuRoundTrip(user: Option<UserInfo>)
    ensures forall i :: 1 <= i < |MenuKeys| && !(MenuKeys[i] == Projects && IsProjectManager(user)) ==>
      SelectedKey(Navigate(MenuKeys[i], user)) == MenuKeys[i]
  {
    forall i | 1 <= i < |MenuKeys| && !(MenuKeys[i] == Projects && IsProjectManager(user))
      ensures SelectedKey(Navigate(MenuKeys[i], user)) == MenuKeys[i]
    {
      SelectedKeyAfterNavigate(MenuKeys[i], user);
    }
  }

  /** The paths the other menu items open are not in the route table:
      every one of them redirects to `/login`, whatever the store, so the
      round trip above is a property of the menu's own code only. */
  lemma MenuTargetsAreUnrouted(user: Option<UserInfo>, store: Session.Store)
    ensures forall i :: 1 <= i < |MenuKeys| ==>
      Routes.Resolve(Navigate(MenuKeys[i], user), store) == Routes.Redirect(Routes.LoginPath)
  {
    forall i | 1 <= i < |MenuKeys|
      ensures Routes.Resolve(Navigate(MenuKeys[i], user), store) == Routes.Redirect(Routes.LoginPath)
    {
      var path := Navigate(MenuKeys[i], user);
      assert path != Routes.HomePath && path != Routes.RootPath && path != Routes.LoginPath;
    }
  }

  /** Clicking dashboard opens `/home`, whose key `home` names no menu
      item, so no item is highlighted afterwards; clicking projects as a
      project manager likewise selects `pm-projects`. */
  lemma DashboardAndPmProjectsLoseHighlight(user: Option<UserInfo>)
    ensures SelectedKey(Navigate(Dashboard, user)) == "home" && "home" !in MenuKeys
    ensures IsProjectManager(user) ==> SelectedKey(Navigate(Projects, user)) == "pm-projects" && "pm-projects" !in MenuKeys
  {
    assert SelectedKey("/home") == "home";
    assert SelectedKey("/pm-projects") == "pm-projects";
  }

  /** The root path highlights dashboard, and an empty key would navigate
      to the root: the one key the round trip cannot return. */
  lemma EmptyKeyReturnsDashboard(user: Option<UserInfo>)
    ensures SelectedKey(Navigate("", user)) == Dashboard
  {
  }
}
