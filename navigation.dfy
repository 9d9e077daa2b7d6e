/** The role-filtered navigation of the dashboard shell (App.tsx): the
    declared list of views, the items a role may see, the "Viewing:" caption
    and the "next phase" button that steps through the visible views and
    wraps back to the dashboard. */
module Navigation {

  datatype ViewType =
    | DashboardView | InsightsView | IntelligenceView | ProgressView
    | ActionsView | TeacherView | ParentView

  datatype UserRole = StudentRole | TeacherRole | ParentRole

  datatype NavItem = NavItem(title: string, id: ViewType, roles: seq<UserRole>)

  /** The roles the item of each view is declared for. */
  function RolesOf(view: ViewType): seq<UserRole>
  {
    match view
    case DashboardView => [StudentRole, TeacherRole, ParentRole]
    case InsightsView => [StudentRole, TeacherRole]
    case IntelligenceView => [StudentRole, TeacherRole, ParentRole]
    case ProgressView => [StudentRole, TeacherRole, ParentRole]
    case TeacherView => [TeacherRole]
    case ParentView => [ParentRole, TeacherRole]
    case ActionsView => [TeacherRole]
  }

  /** The title of the item of each view. */
  function TitleOf(view: ViewType): string
  {
    match view
    case DashboardView => "Dashboard"
    case InsightsView => "Insights"
    case IntelligenceView => "Intelligence"
    case ProgressView => "Progress"
    case TeacherView => "Teacher Log"
    case ParentView => "Parent Portal"
    case ActionsView => "System Actions"
  }

  /** The views of `allNavItems`, in declaration order. */
  const DeclaredViews: seq<ViewType> :=
    [DashboardView, InsightsView, IntelligenceView, ProgressView, TeacherView, ParentView, ActionsView]

  /** `allNavItems`: one item per declared view, with its title and roles. */
  function AllNavItems(): (items: seq<NavItem>)
    ensures |items| == 7 && items[0].id == DashboardView
    ensures forall k :: 0 <= k < |items| ==> items[k].title == TitleOf(items[k].id) && items[k].roles == RolesOf(items[k].id)
  {
    seq(|DeclaredViews|, k requires 0 <= k < |DeclaredViews| =>
      NavItem(TitleOf(DeclaredViews[k]), DeclaredViews[k], RolesOf(DeclaredViews[k])))
  }

  /** The views of a list of items, in order. */
  function Ids(items: seq<NavItem>): seq<ViewType>
  {
    seq(|items|, i requires 0 <= i < |items| => items[i].id)
  }

  /** No two items of the list are for the same view. */
  predicate DistinctIds(items: seq<NavItem>)
  {
    forall i, j :: 0 <= i < j < |items| ==> items[i].id != items[j].id
  }

  /** `items.filter(item => item.roles.includes(role))`. */
  function FilterByRole(items: seq<NavItem>, role: UserRole): seq<NavItem>
  {
    if items == [] then []
    else (if role in items[0].roles then [items[0]] else []) + FilterByRole(items[1..], role)
  }

  /** `visibleNavItems`. */
  function VisibleNavItems(role: UserRole): seq<NavItem>
  {
    FilterByRole(AllNavItems(), role)
  }

  /** The role may see the view: the view's item lists the role. */
  predicate ViewIsVisible(role: UserRole, view: ViewType)
  {
    role in RolesOf(view)
  }

  /** The filter keeps exactly the items that list the role. */
  lemma {:induction false} FilterMembers(items: seq<NavItem>, role: UserRole)
    ensures forall x :: x in FilterByRole(items, role) <==> x in items && role in x.roles
  {
    if items != [] {
      FilterMembers(items[1..], role);
      assert items == [items[0]] + items[1..];
    }
  }

  /** `a` keeps some of the elements of `b`, in the order `b` has them. */
  predicate IsSubsequence(a: seq<NavItem>, b: seq<NavItem>)
    decreases |b|
  {
    if a == [] then true
    else if b == [] then false
    else if a[0] == b[0] then IsSubsequence(a[1..], b[1..])
    else IsSubsequence(a, b[1..])
  }

  /** Filtering keeps declaration order. */
  lemma {:induction false} FilterKeepsOrder(items: seq<NavItem>, role: UserRole)
    ensures IsSubsequence(FilterByRole(items, role), items)
  {
    if items != [] {
      FilterKeepsOrder(items[1..], role);
      var rest := FilterByRole(items[1..], role);
      if role in items[0].roles {
        assert ([items[0]] + rest)[1..] == rest;
      } else {
        FilterMembers(items[1..], role);
        assert FilterByRole(items, role) == rest;
        assert rest != [] ==> rest[0] in rest && rest[0] != items[0];
      }
    }
  }

  /** Filtering a list without a repeated view gives one without a
      repeated view. */
  lemma {:induction false} FilterKeepsDistinctIds(items: seq<NavItem>, role: UserRole)
    requires DistinctIds(items)
    ensures DistinctIds(FilterByRole(items, role))
  {
    if items != [] {
      var rest := items[1..];
      assert DistinctIds(rest) by {
        assert forall k :: 0 <= k < |rest| ==> rest[k] == items[k + 1];
      }
      FilterKeepsDistinctIds(rest, role);
      var tail := FilterByRole(rest, role);
      if role in items[0].roles {
        FilterMembers(rest, role);
        forall j | 0 <= j < |tail|
          ensures tail[j].id != items[0].id
        {
          assert tail[j] in rest;
          var m :| 0 <= m < |rest| && rest[m] == tail[j];
          assert rest[m] == items[m + 1];
        }
        var r := FilterByRole(items, role);
        assert r == [items[0]] + tail;
        assert forall k :: 1 <= k < |r| ==> r[k] == tail[k - 1];
      } else {
        assert FilterByRole(items, role) == tail;
      }
    }
  }

  /** The declared list names each view once, and each item carries the
      roles declared for its view. */
  lemma AllNavItemsDistinct()
    ensures DistinctIds(AllNavItems())
    ensures forall k :: 0 <= k < |AllNavItems()| ==> AllNavItems()[k].roles == RolesOf(AllNavItems()[k].id)
  {
  }

  /** Every view has an item in the declared list. */
  lemma EveryViewDeclared(view: ViewType)
    ensures exists k :: 0 <= k < |AllNavItems()| && AllNavItems()[k].id == view
  {
    var k := match view
      case DashboardView => 0
      case InsightsView => 1
      case IntelligenceView => 2
      case ProgressView => 3
      case TeacherView => 4
      case ParentView => 5
      case ActionsView => 6;
    assert AllNavItems()[k].id == DeclaredViews[k] == view;
  }

  /** Over a list whose items carry the roles declared for their views and
      which holds a given view, a role finds that view among its filtered
      items exactly when the view is declared for the role. */
  lemma ListedIffDeclared(items: seq<NavItem>, role: UserRole, view: ViewType)
    requires forall k :: 0 <= k < |items| ==> items[k].roles == RolesOf(items[k].id)
    requires exists k :: 0 <= k < |items| && items[k].id == view
    ensures role in RolesOf(view) <==> view in Ids(FilterByRole(items, role))
  {
    var v := FilterByRole(items, role);
    FilterMembers(items, role);
    if role in RolesOf(view) {
      var k :| 0 <= k < |items| && items[k].id == view;
      assert items[k] in v;
      var m :| 0 <= m < |v| && v[m] == items[k];
      assert Ids(v)[m] == view;
    }
    if view in Ids(v) {
      var m :| 0 <= m < |v| && Ids(v)[m] == view;
      assert v[m] in items;
    }
  }

  /** A role sees a view exactly when the view is among its filtered items. */
  lemma VisibleIffListed(role: UserRole, view: ViewType)
    ensures ViewIsVisible(role, view) <==> view in Ids(VisibleNavItems(role))
  {
    AllNavItemsDistinct();
    EveryViewDeclared(view);
    ListedIffDeclared(AllNavItems(), role, view);
  }

  /** Every role sees a non-empty list that starts at the dashboard and
      names each view at most once. */
  lemma VisibleNavItemsShape(role: UserRole)
    ensures |VisibleNavItems(role)| > 0
    ensures VisibleNavItems(role)[0].id == DashboardView
    ensures DistinctIds(VisibleNavItems(role))
  {
    var a := AllNavItems();
    assert role in a[0].roles;
    assert FilterByRole(a, role) == [a[0]] + FilterByRole(a[1..], role);
    AllNavItemsDistinct();
    FilterKeepsDistinctIds(a, role);
  }

  /** The views each role sees, in declaration order. */
  function ExpectedViews(role: UserRole): seq<ViewType>
  {
    match role
    case StudentRole => [DashboardView, InsightsView, IntelligenceView, ProgressView]
    case TeacherRole => [DashboardView, InsightsView, IntelligenceView, ProgressView, TeacherView, ParentView, ActionsView]
    case ParentRole => [DashboardView, IntelligenceView, ProgressView, ParentView]
  }

  /** The views each role sees: a student the dashboard, insights,
      intelligence and progress; a teacher every view; a parent the
      dashboard, intelligence, progress and the parent portal. This states
      the set of views only; the ordered list `ExpectedViews(role)` follows
      together with `FilterKeepsOrder` (declaration order is kept) and
      `VisibleNavItemsShape` (no view is listed twice). */
  lemma VisibleNavItemsByRole(role: UserRole)
    ensures forall view :: view in Ids(VisibleNavItems(role)) <==> view in ExpectedViews(role)
  {
    forall view
      ensures view in Ids(VisibleNavItems(role)) <==> view in ExpectedViews(role)
    {
      VisibleIffListed(role, view);
      ExpectedViewsDeclared(role, view);
    }
  }

  /** The expected lists agree with the declared roles of each view. */
  lemma ExpectedViewsDeclared(role: UserRole, view: ViewType)
    ensures view in ExpectedViews(role) <==> role in RolesOf(view)
  {
    match role
    case StudentRole =>
    case TeacherRole =>
    case ParentRole =>
  }

  /** The dashboard and the intelligence view are open to every role, and
      the dashboard's role-guarded shortcuts (the teacher's "Manage Profile",
      the parent's "Sync Report") lead to views those roles see. */
  lemma ShortcutViewsVisible(role: UserRole)
    ensures ViewIsVisible(role, DashboardView) && ViewIsVisible(role, IntelligenceView)
    ensures role == TeacherRole ==> ViewIsVisible(role, TeacherView)
    ensures role == ParentRole ==> ViewIsVisible(role, ParentView)
  {
  }

  /** `items.findIndex(item => item.id === view)`: the first index holding
      the view, or -1. */
  function FindIndex(items: seq<NavItem>, view: ViewType): (i: int)
    ensures -1 <= i < |items|
    ensures i >= 0 ==> items[i].id == view
    ensures forall k :: 0 <= k < |items| && (i == -1 || k < i) ==> items[k].id != view
  {
    if items == [] then -1
    else if items[0].id == view then 0
    else
      var r := FindIndex(items[1..], view);
      if r == -1 then -1 else r + 1
  }

  /** `handleNextView` over a list of items. */
  function NextIn(items: seq<NavItem>, current: ViewType): (next: ViewType)
    ensures next == DashboardView || exists k :: 0 <= k < |items| && items[k].id == next
  {
    var i := FindIndex(items, current);
    if i < |items| - 1 then items[i + 1].id else DashboardView
  }

  /** The view the "next phase" button moves a role to. */
  function NextView(role: UserRole, current: ViewType): ViewType
  {
    NextIn(VisibleNavItems(role), current)
  }

  /** `findIndex` finds a view exactly when the list holds it. */
  lemma FindIndexFinds(items: seq<NavItem>, view: ViewType)
    ensures FindIndex(items, view) != -1 <==> view in Ids(items)
  {
    var i := FindIndex(items, view);
    if i != -1 {
      assert Ids(items)[i] == view;
    } else {
      assert forall k :: 0 <= k < |Ids(items)| ==> Ids(items)[k] != view;
    }
  }

  /** `handleNextView` over any list that starts at the dashboard and names
      each view once: the k-th view steps to the (k+1)-th, the last one and
      any view not in the list step to the dashboard. */
  lemma NextInSteps(items: seq<NavItem>, current: ViewType)
    requires |items| > 0 && items[0].id == DashboardView && DistinctIds(items)
    ensures forall k :: 0 <= k < |items| - 1 && items[k].id == current ==> NextIn(items, current) == items[k + 1].id
    ensures items[|items| - 1].id == current ==> NextIn(items, current) == DashboardView
    ensures current !in Ids(items) ==> NextIn(items, current) == DashboardView
  {
    var i := FindIndex(items, current);
    forall k | 0 <= k < |items| && items[k].id == current
      ensures i == k
    {
      assert 0 <= i <= k;
    }
    FindIndexFinds(items, current);
  }

  /** The button moves from the k-th visible view to the (k+1)-th, from the
      last one back to the dashboard, and from a view the role cannot see
      (which the shell never leaves it on) to the dashboard as well. */
  lemma NextViewSteps(role: UserRole, current: ViewType)
    ensures var v := VisibleNavItems(role);
            forall k :: 0 <= k < |v| - 1 && v[k].id == current ==> NextView(role, current) == v[k + 1].id
    ensures var v := VisibleNavItems(role);
            v[|v| - 1].id == current ==> NextView(role, current) == DashboardView
    ensures !ViewIsVisible(role, current) ==> NextView(role, current) == DashboardView
  {
    VisibleNavItemsShape(role);
    VisibleIffListed(role, current);
    NextInSteps(VisibleNavItems(role), current);
  }

  /** Over a list that starts at the dashboard (where the button wraps to),
      the next view is always one of the list's views. */
  lemma NextInListed(items: seq<NavItem>, current: ViewType)
    requires |items| > 0 && items[0].id == DashboardView
    ensures NextIn(items, current) in Ids(items)
  {
    var i := FindIndex(items, current);
    if i < |items| - 1 {
      assert Ids(items)[i + 1] == items[i + 1].id;
    } else {
      assert Ids(items)[0] == items[0].id;
    }
  }

  /** The button never leads to a view the role cannot see. */
  lemma NextViewIsVisible(role: UserRole, current: ViewType)
    ensures ViewIsVisible(role, NextView(role, current))
  {
    VisibleNavItemsShape(role);
    NextInListed(VisibleNavItems(role), current);
    VisibleIffListed(role, NextView(role, current));
  }

  /** The view reached from `from` after `steps` presses over a list of items. */
  function WalkIn(items: seq<NavItem>, steps: nat, from: ViewType): ViewType
  {
    if steps == 0 then from else NextIn(items, WalkIn(items, steps - 1, from))
  }

  /** The view a role reaches after pressing the button `steps` times. */
  function Walk(role: UserRole, steps: nat, from: ViewType): ViewType
  {
    WalkIn(VisibleNavItems(role), steps, from)
  }

  /** Over a list that starts at the dashboard and names each view once,
      k presses from the dashboard reach the k-th item, and one press past
      the last returns to the dashboard. */
  lemma {:induction false} WalkInFromDashboard(items: seq<NavItem>, k: nat)
    requires |items| > 0 && items[0].id == DashboardView && DistinctIds(items)
    requires k <= |items|
    ensures k < |items| ==> WalkIn(items, k, DashboardView) == items[k].id
    ensures k == |items| ==> WalkIn(items, k, DashboardView) == DashboardView
  {
    if k > 0 {
      WalkInFromDashboard(items, k - 1);
      NextInSteps(items, items[k - 1].id);
    }
  }

  /** From the dashboard, k presses visit the visible views in order, and
      one press past the last returns to the dashboard: the button cycles. */
  lemma WalkFromDashboard(role: UserRole, k: nat)
    requires k <= |VisibleNavItems(role)|
    ensures k < |VisibleNavItems(role)| ==> Walk(role, k, DashboardView) == VisibleNavItems(role)[k].id
    ensures k == |VisibleNavItems(role)| ==> Walk(role, k, DashboardView) == DashboardView
  {
    VisibleNavItemsShape(role);
    WalkInFromDashboard(VisibleNavItems(role), k);
  }

  /** The "Viewing:" caption: the title of the current view among the
      visible items, or "Overview" when it is not one of them. */
  function ViewingCaption(role: UserRole, current: ViewType): (caption: string)
    ensures caption == TitleOf(current) || caption == "Overview"
  {
    var v := VisibleNavItems(role);
    FilterMembers(AllNavItems(), role);
    var i := FindIndex(v, current);
    if i == -1 then "Overview" else v[i].title
  }

  /** A visible view is captioned with its own item's title, any other
      view with "Overview". */
  lemma ViewingCaptionOfVisible(role: UserRole, current: ViewType)
    ensures ViewIsVisible(role, current) ==>
            exists k :: 0 <= k < |VisibleNavItems(role)| && VisibleNavItems(role)[k].id == current
                        && ViewingCaption(role, current) == VisibleNavItems(role)[k].title
    ensures ViewIsVisible(role, current) ==> ViewingCaption(role, current) == TitleOf(current)
    ensures !ViewIsVisible(role, current) ==> ViewingCaption(role, current) == "Overview"
  {
    var v := VisibleNavItems(role);
    VisibleIffListed(role, current);
    FindIndexFinds(v, current);
    var i := FindIndex(v, current);
    if i != -1 {
      FilterMembers(AllNavItems(), role);
      assert v[i] in AllNavItems();
      assert v[i].title == TitleOf(current);
    }
  }
}
