/** The navigation sidebar: which links are highlighted, when the admin section
    is shown, and the signed-in user's initials and role label. */
module Sidebar {

  import opened Common
  import opened Types
  import Utils

  /** A link of the sidebar; every link is a top-level page, `/` + `page`. */
  datatype NavItem = NavItem(name: string, page: string) {
    function href(): string { "/" + page }
  }

  const Navigation: seq<NavItem> := [
    NavItem("Главная", "dashboard"),
    NavItem("База знаний", "knowledge"),
    NavItem("Документы", "documents"),
    NavItem("Обучение", "courses"),
    NavItem("Чек-листы", "checklists"),
    NavItem("Задачи", "tasks"),
    NavItem("Новости", "news"),
    NavItem("Чат", "chat"),
    NavItem("Контакты", "contacts")]

  const AdminNavigation: seq<NavItem> := [NavItem("Админка", "admin")]

  /** The signed-in user as the sidebar sees it; `fullName` may be missing. */
  datatype SidebarUser = SidebarUser(role: Role, fullName: Option<string>)

  /** A link is highlighted on its own page and on every page below it. */
  predicate IsActive(pathname: string, href: string) {
    pathname == href || StartsWith(pathname, href + "/")
  }

  /** An active link's path is the page itself or continues with a `/` right after
      the link: a mere textual prefix is not enough. */
  lemma ActiveMeansSegment(pathname: string, href: string)
    ensures IsActive(pathname, href) <==>
      (StartsWith(pathname, href) && (|pathname| == |href| || pathname[|href|] == '/'))
  {
    if StartsWith(pathname, href) && |pathname| > |href| && pathname[|href|] == '/' {
      assert pathname[..|href| + 1] == href + "/";
    }
  }

  lemma ActiveExamples()
    ensures IsActive("/tasks/1", "/tasks")
    ensures !IsActive("/tasksX", "/tasks")
    ensures IsActive("/tasks", "/tasks")
  {
    assert "/tasks/1"[..7] == "/tasks/";
    assert "/tasksX"[6] == 'X';
  }

  /** Both links are active only if one is the other followed by further path
      segments (or they are the same link). */
  lemma {:induction false} ActiveNested(pathname: string, a: string, b: string)
    requires IsActive(pathname, a) && IsActive(pathname, b) && |a| <= |b|
    ensures StartsWith(b + "/", a + "/")
  {
    var p := pathname + "/";
    assert StartsWith(p, a + "/") by {
      if pathname == a {
      } else {
        assert p[..|a| + 1] == pathname[..|a| + 1];
      }
    }
    assert StartsWith(p, b + "/") by {
      if pathname == b {
      } else {
        assert p[..|b| + 1] == pathname[..|b| + 1];
      }
    }
    assert (b + "/")[..|a| + 1] == p[..|a| + 1];
  }

  /** A one-segment path: `/` followed by a name without further slashes. */
  predicate OneSegment(href: string) {
    |href| >= 2 && href[0] == '/' && '/' !in href[1..]
  }

  /** Of two one-segment links, one is active below the other only if they are
      the same link. */
  lemma OneSegmentNotNested(a: string, b: string)
    requires OneSegment(a) && OneSegment(b) && |a| <= |b|
    requires StartsWith(b + "/", a + "/")
    ensures a == b
  {
    assert (b + "/")[|a|] == (a + "/")[|a|] == '/';
    assert a == (a + "/")[..|a|] == (b + "/")[..|a|] == b;
  }

  lemma NavigationOneSegment(x: NavItem)
    requires x in Navigation
    ensures OneSegment(x.href())
  {
    assert '/' !in x.page;
    assert x.href()[1..] == x.page;
  }

  /** No main navigation link is a path prefix of another, so at most one of them
      is highlighted on any page. */
  lemma AtMostOneActive(pathname: string, x: NavItem, y: NavItem)
    requires x in Navigation && y in Navigation
    requires IsActive(pathname, x.href()) && IsActive(pathname, y.href())
    ensures x.href() == y.href()
  {
    NavigationOneSegment(x);
    NavigationOneSegment(y);
    if |x.href()| <= |y.href()| {
      ActiveNested(pathname, x.href(), y.href());
      OneSegmentNotNested(x.href(), y.href());
    } else {
      ActiveNested(pathname, y.href(), x.href());
      OneSegmentNotNested(y.href(), x.href());
    }
  }

  /** The administration section is shown to IT admins and directors only. */
  predicate IsAdmin(user: Option<SidebarUser>) {
    user.Some? && (user.value.role == ItAdmin || user.value.role == Director)
  }

  /** The links the sidebar renders for a user. */
  function VisibleItems(user: Option<SidebarUser>): (r: seq<NavItem>)
    ensures |r| == |Navigation| + (if IsAdmin(user) then |AdminNavigation| else 0)
    ensures r[..|Navigation|] == Navigation
  {
    Navigation + (if IsAdmin(user) then AdminNavigation else [])
  }

  /** The admin link is rendered exactly for the roles the gate admits. */
  lemma AdminLinkIffAdmin(user: Option<SidebarUser>)
    ensures (exists k :: 0 <= k < |VisibleItems(user)| && VisibleItems(user)[k].href() == "/admin")
            <==> user.Some? && user.value.role in {ItAdmin, Director}
  {
    var r := VisibleItems(user);
    if IsAdmin(user) {
      assert r[|Navigation|].href() == "/admin";
    } else {
      assert r == Navigation;
      forall k | 0 <= k < |r| ensures r[k].href() != "/admin" {
        assert r[k].page != "admin";
        assert r[k].href()[1..] == r[k].page;
      }
    }
  }

  /** The sidebar's own role table. */
  const SidebarRoleLabels: map<string, string> := map[
    "agent" := "Сотрудник точки",
    "branch_manager" := "Старший точки",
    "ops_manager" := "Операционный руководитель",
    "director" := "Директор",
    "security" := "Безопасность",
    "accountant" := "Бухгалтерия",
    "it_admin" := "IT-администратор",
    "hr" := "HR"]

  /** The sidebar's `getRoleLabel`: a fixed label for each of the eight roles, the
      raw value otherwise. */
  function SidebarRoleLabel(role: string): (r: string)
    ensures role in SidebarRoleLabels ==> r == SidebarRoleLabels[role]
    ensures role !in SidebarRoleLabels ==> r == role
  {
    Utils.LabelOr(SidebarRoleLabels, role)
  }

  /** The sidebar's table is the shared one: both give every string the same label. */
  lemma SidebarRoleLabelAgrees(role: string)
    ensures SidebarRoleLabel(role) == Utils.RoleLabel(role)
  {
    assert SidebarRoleLabels == Utils.RoleLabels;
  }

  /** Every role has a fixed label in the sidebar table. */
  lemma SidebarLabelsAllRoles(role: Role)
    ensures RoleName(role) in SidebarRoleLabels
    ensures SidebarRoleLabel(RoleName(role)) != ""
  {
  }

  /** The avatar initials: the upper-cased word starts of the full name, with no
      length cap, or `??` when there is no name or it has no word. */
  function SidebarInitials(user: Option<SidebarUser>): (r: string)
    ensures r != ""
    ensures user.None? || user.value.fullName.None? ==> r == "??"
    ensures user.Some? && user.value.fullName.Some? ==>
      var starts := Utils.WordStarts(user.value.fullName.value, true);
      r == if starts == "" then "??" else Upper(starts)
  {
    if user.None? || user.value.fullName.None? then "??"
    else
      var name := user.value.fullName.value;
      Utils.InitialsOfSplit(name, true);
      var joined := Upper(Utils.Initials(Split(name, ' ')));
      if joined == "" then "??" else joined
  }

  /** The shared `generateInitials` is the sidebar's initials cut to two characters. */
  lemma InitialsCapped(role: Role, name: string)
    requires Utils.WordStarts(name, true) != ""
    ensures Utils.GenerateInitials(name) == Take(SidebarInitials(Some(SidebarUser(role, Some(name)))), 2)
  {
  }

  /** Unlike `generateInitials`, the sidebar keeps every word's letter. */
  lemma SidebarInitialsUncapped()
    ensures SidebarInitials(Some(SidebarUser(Agent, Some("а б в")))) == "АБВ"
    ensures Utils.GenerateInitials("а б в") == "АБ"
  {
    assert Utils.WordStarts("а б в", true) == "абв";
  }
}
