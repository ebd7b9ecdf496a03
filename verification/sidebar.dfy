/** The dashboard sidebar: an open/collapsed flag, seven expandable menu
    groups, a hover flyout and an icon tooltip for the collapsed sidebar, and
    the links whose exact path match marks them active. */
module Sidebar {
  import opened Records

  datatype Group = Finance | Secretariat | Ecrav | Cmi | Pod | Pr | Management

  datatype State = State(
    open: bool,                  // `isSidebarOpen`
    expanded: set<Group>,        // the groups whose flag in `expandedGroups` is true
    hovered: Option<Group>,      // `hoveredGroup`
    tooltip: Option<string>)     // `tooltipInfo`: the text while `show` is true

  /** The sidebar opens expanded-out with every group folded. */
  function Init(): (s: State)
    ensures s.open && s.expanded == {} && Invariant(s)
  {
    State(true, {}, None, None)
  }

  /** A collapsed sidebar has no unfolded group. */
  predicate Invariant(s: State) {
    !s.open ==> s.expanded == {}
  }

  /** `toggleGroup`: flips exactly the named group, and only while open. */
  function ToggleGroup(s: State, g: Group): (r: State)
    ensures s.open ==> (g in r.expanded <==> g !in s.expanded)
    ensures s.open ==> forall h :: h != g ==> (h in r.expanded <==> h in s.expanded)
    ensures !s.open ==> r == s
    ensures r.(expanded := s.expanded) == s
  {
    if !s.open then s
    else if g in s.expanded then s.(expanded := s.expanded - {g})
    else s.(expanded := s.expanded + {g})
  }

  /** The menu button, followed by the effect that runs when the flag
      changes: collapsing folds every group; opening unfolds none. */
  function ToggleSidebar(s: State): (r: State)
    ensures r.open == !s.open
    ensures !r.open ==> r.expanded == {}
    ensures r.open ==> r.expanded == s.expanded
    ensures r.hovered == s.hovered && r.tooltip == s.tooltip
  {
    if s.open then s.(open := false, expanded := {}) else s.(open := true)
  }

  /** A group's submenu is shown inline when the sidebar is open and the group
      is unfolded. */
  predicate SubmenuVisible(s: State, g: Group) {
    s.open && g in s.expanded
  }

  /** Group hover, once its delay has passed: only a collapsed sidebar
      remembers the hovered group. */
  function GroupMouseEnter(s: State, g: Group): (r: State)
    ensures s.open ==> r == s
    ensures !s.open ==> r == s.(hovered := Some(g))
  {
    if s.open then s else s.(hovered := Some(g))
  }

  function GroupMouseLeave(s: State): (r: State)
    ensures s.open ==> r == s
    ensures !s.open ==> r == s.(hovered := None)
  {
    if s.open then s else s.(hovered := None)
  }

  /** Leaving the flyout, or following one of its links, forgets the hover
      whatever the sidebar's state. */
  function DropdownMouseLeave(s: State): (r: State)
    ensures r.hovered.None? && r.(hovered := s.hovered) == s
  {
    s.(hovered := None)
  }

  /** The flyout of a group floats beside a collapsed sidebar while that group
      is hovered. */
  predicate FlyoutVisible(s: State, g: Group) {
    !s.open && s.hovered == Some(g)
  }

  /** Hovering a dashboard icon of the collapsed sidebar names it in a tooltip. */
  /** The collapsed sidebar shows the hovered icon's name beside it. */
  predicate TooltipVisible(s: State) {
    !s.open && s.tooltip.Some?
  }

  function IconMouseEnter(s: State, name: string): (r: State)
    ensures TooltipVisible(r) <==> !s.open
    ensures TooltipVisible(r) ==> r.tooltip == Some(name)
    ensures s.open ==> r == s
    ensures !s.open ==> r == s.(tooltip := Some(name))
  {
    if s.open then s else s.(tooltip := Some(name))
  }

  function IconMouseLeave(s: State): (r: State)
    ensures !TooltipVisible(r)
    ensures r.tooltip.None? && r.(tooltip := s.tooltip) == s
  {
    s.(tooltip := None)
  }

  /** One user action on the sidebar. */
  datatype Event =
    | ClickGroup(g: Group)
    | ClickMenu
    | EnterGroup(g: Group)
    | LeaveGroup
    | LeaveDropdown
    | EnterIcon(name: string)
    | LeaveIcon

  function Step(s: State, e: Event): State {
    match e
    case ClickGroup(g) => ToggleGroup(s, g)
    case ClickMenu => ToggleSidebar(s)
    case EnterGroup(g) => GroupMouseEnter(s, g)
    case LeaveGroup => GroupMouseLeave(s)
    case LeaveDropdown => DropdownMouseLeave(s)
    case EnterIcon(name) => IconMouseEnter(s, name)
    case LeaveIcon => IconMouseLeave(s)
  }

  /** Every action keeps a collapsed sidebar fully folded, and an inline
      submenu and a flyout are never shown together. */
  lemma StepPreservesInvariant(s: State, e: Event)
    requires Invariant(s)
    ensures Invariant(Step(s, e))
    ensures forall g, h :: !(SubmenuVisible(Step(s, e), g) && FlyoutVisible(Step(s, e), h))
  {
  }

  function Run(s: State, es: seq<Event>): State
    decreases |es|
  {
    if es == [] then s else Run(Step(s, es[0]), es[1..])
  }

  /** No sequence of actions leads from a state with the invariant to a
      collapsed sidebar with a group unfolded; in particular none does from
      the initial state. */
  lemma {:induction false} RunPreservesInvariant(s: State, es: seq<Event>)
    requires Invariant(s)
    ensures Invariant(Run(s, es))
    ensures Invariant(Run(Init(), es))
    decreases |es|
  {
    if es != [] {
      StepPreservesInvariant(s, es[0]);
      RunPreservesInvariant(Step(s, es[0]), es[1..]);
      StepPreservesInvariant(Init(), es[0]);
      RunPreservesInvariant(Step(Init(), es[0]), es[1..]);
    }
  }

  /** Folding and unfolding the sidebar again leaves every group folded. */
  lemma ReopenedSidebarIsFolded(s: State)
    requires s.open
    ensures var r := ToggleSidebar(ToggleSidebar(s));
      r.open && forall g :: !SubmenuVisible(r, g)
  {
  }

  // ---------------------------------------------------------------------
  // Links

  const DashboardLinks: seq<string> := ["/", "/analytics", "/calendar"]

  /** The links of each group, in menu order. */
  function Items(g: Group): seq<string> {
    match g
    case Finance => ["/finance", "/finance/transactions", "/finance/reports"]
    case Secretariat => ["/secretariat/incoming", "/secretariat/outgoing", "/secretariat/archive",
                         "/secretariat/templates", "/secretariat/disposition"]
    case Ecrav => ["/ecrav/products", "/ecrav/sales", "/ecrav/orders", "/ecrav/inventory"]
    case Cmi => ["/cmi/social-analytics", "/cmi/instagram", "/cmi/youtube",
                 "/cmi/content-calendar", "/cmi/campaigns"]
    case Pod => ["/pod/students", "/pod/attendance", "/pod/programs"]
    case Pr => ["/pr/sponsors", "/pr/events", "/pr/partnerships", "/pr/media"]
    case Management => ["/management/members", "/management/roles", "/settings"]
  }

  /** The place of a group in the menu, from 0 at the top. */
  function Position(g: Group): (k: nat)
    ensures k <= 6
  {
    match g
    case Finance => 0
    case Secretariat => 1
    case Ecrav => 2
    case Cmi => 3
    case Pod => 4
    case Pr => 5
    case Management => 6
  }

  /** The links of group `g` and of the groups after it, in menu order. */
  function LinksFrom(g: Group): seq<string>
    decreases 6 - Position(g)
  {
    match g
    case Finance => Items(Finance) + LinksFrom(Secretariat)
    case Secretariat => Items(Secretariat) + LinksFrom(Ecrav)
    case Ecrav => Items(Ecrav) + LinksFrom(Cmi)
    case Cmi => Items(Cmi) + LinksFrom(Pod)
    case Pod => Items(Pod) + LinksFrom(Pr)
    case Pr => Items(Pr) + LinksFrom(Management)
    case Management => Items(Management)
  }

  /** Every link of the sidebar, dashboard links first, then the groups in order. */
  function AllLinks(): seq<string> {
    DashboardLinks + LinksFrom(Finance)
  }

  /** A link is highlighted when the current path is exactly its target. */
  predicate IsActive(path: string, href: string) {
    path == href
  }

  predicate Distinct(s: seq<string>) {
    forall i, j :: 0 <= i < j < |s| ==> s[i] != s[j]
  }

  /** In a list without repeats, at most one position holds a given value. */
  lemma AtMostOneMatch(s: seq<string>, path: string)
    requires Distinct(s)
    ensures forall i, j :: 0 <= i < |s| && 0 <= j < |s| && IsActive(path, s[i]) && IsActive(path, s[j]) ==> i == j
  {
  }

  /** Whatever the path, at most one link of the sidebar is active, and
      every link appears in the list exactly once. */
  lemma AtMostOneActive(path: string)
    ensures |AllLinks()| == 30
    ensures Distinct(AllLinks())
    ensures forall i, j :: (0 <= i < |AllLinks()| && 0 <= j < |AllLinks()| &&
      IsActive(path, AllLinks()[i]) && IsActive(path, AllLinks()[j])) ==> i == j
  {
    AllLinksDistinct();
    AtMostOneMatch(AllLinks(), path);
  }

  predicate Disjoint(a: seq<string>, b: seq<string>) {
    forall i, j :: 0 <= i < |a| && 0 <= j < |b| ==> a[i] != b[j]
  }

  /** Joining two lists without repeats and without common values gives a
      list without repeats. */
  lemma DistinctConcat(a: seq<string>, b: seq<string>)
    requires Distinct(a) && Distinct(b) && Disjoint(a, b)
    ensures Distinct(a + b)
  {
  }

  // The links from each group on have no repeats, shown one group at a time.

  lemma DistinctFromManagement() ensures Distinct(LinksFrom(Management)) {}

  lemma DistinctFromPr() ensures Distinct(LinksFrom(Pr)) {
    DistinctFromManagement();
    DistinctConcat(Items(Pr), LinksFrom(Management));
  }

  lemma DistinctFromPod() ensures Distinct(LinksFrom(Pod)) {
    DistinctFromPr();
    DistinctConcat(Items(Pod), LinksFrom(Pr));
  }

  lemma DistinctFromCmi() ensures Distinct(LinksFrom(Cmi)) {
    DistinctFromPod();
    DistinctConcat(Items(Cmi), LinksFrom(Pod));
  }

  lemma DistinctFromEcrav() ensures Distinct(LinksFrom(Ecrav)) {
    DistinctFromCmi();
    DistinctConcat(Items(Ecrav), LinksFrom(Cmi));
  }

  lemma DistinctFromSecretariat() ensures Distinct(LinksFrom(Secretariat)) {
    DistinctFromEcrav();
    DistinctConcat(Items(Secretariat), LinksFrom(Ecrav));
  }

  lemma DistinctFromFinance() ensures Distinct(LinksFrom(Finance)) {
    DistinctFromSecretariat();
    DistinctConcat(Items(Finance), LinksFrom(Secretariat));
  }

  lemma AllLinksDistinct()
    ensures Distinct(AllLinks())
  {
    DistinctFromFinance();
    DistinctConcat(DashboardLinks, LinksFrom(Finance));
  }
}
