/**
 * The navigation bar: the tabs a user is offered, with the dashboard tab
 * put in front for administrators.
 */
module Navbar {
  import opened Types
  import opened Access

  datatype Tab = DashboardTab | ReportsTab | RewardsTab | EducationTab

  /** The view name a tab switches to. */
  function TabId(tab: Tab): string
  {
    match tab
    case DashboardTab => "dashboard"
    case ReportsTab => "reports"
    case RewardsTab => "rewards"
    case EducationTab => "education"
  }

  datatype NavItem = NavItem(tab: Tab, caption: string)

  /** The items everybody gets, in this order. */
  const BaseItems: seq<NavItem> :=
    [NavItem(ReportsTab, "Reportes"), NavItem(RewardsTab, "Recompensas"), NavItem(EducationTab, "Educación")]

  const DashboardItem: NavItem := NavItem(DashboardTab, "Panel")

  /** No two items share a view name, so the rendered buttons have distinct keys. */
  ghost predicate DistinctIds(items: seq<NavItem>)
  {
    forall i, j :: 0 <= i < j < |items| ==> TabId(items[i].tab) != TabId(items[j].tab)
  }

  /**
   * `navItems`: the base list, and for an administrator the dashboard item
   * `unshift`ed in front of it.
   */
  method NavItems(profile: Option<Profile>) returns (items: seq<NavItem>)
    ensures IsAdmin(profile) ==> |items| == 4 && items[0] == DashboardItem && items[1..] == BaseItems
    ensures !IsAdmin(profile) ==> items == BaseItems
    ensures DashboardItem in items <==> IsAdmin(profile)
    ensures DistinctIds(items)
  {
    items := BaseItems;
    if IsAdmin(profile) {
      items := [DashboardItem] + items;
    }
  }
}
