/**
 * The floating navigation menu: the fixed list of menu items, the ones the user's
 * permissions let through, and the open/closed state of the menu.
 */
module FloatingNavigation {
  import opened Wrappers
  import opened Seqs

  /** A menu entry; a `None` permission means everyone sees it. The caption is the source's `label`; icons are not modelled. */
  datatype MenuItem = MenuItem(id: string, caption: string, permission: Option<string>)

  const MenuItems: seq<MenuItem> := [
    MenuItem("dashboard", "Dashboard", Some("dashboard_view")),
    MenuItem("personal-dashboard", "My Dashboard", None),
    MenuItem("profiles", "Profiles", Some("employees_view")),
    MenuItem("clients", "Clients", Some("clients_view")),
    MenuItem("projects", "Projects", Some("projects_view")),
    MenuItem("working-hours", "Working Hours", Some("working_hours_view")),
    MenuItem("roster", "Roster", Some("roster_view")),
    MenuItem("payroll", "Payroll", Some("payroll_view")),
    MenuItem("salary", "Salary Management", Some("payroll_view")),
    MenuItem("notifications", "Notifications", Some("notifications_view")),
    MenuItem("reports", "Reports", Some("reports_view")),
    MenuItem("bank-balance", "Bank Balance", Some("bank_balance_view")),
    MenuItem("permissions", "Permissions", Some("employees_manage"))
  ]

  /** The filter's test: no permission needed, or `hasPermission` grants it. */
  predicate Allowed(hasPermission: string -> bool, item: MenuItem)
  {
    item.permission.None? || hasPermission(item.permission.value)
  }

  /** `visibleMenuItems`: the allowed items, in menu order. */
  function VisibleMenuItems(hasPermission: string -> bool): (r: seq<MenuItem>)
    ensures |r| <= |MenuItems|
    ensures forall item :: item in r <==> item in MenuItems && Allowed(hasPermission, item)
    ensures IsSubsequence(r, MenuItems)
  {
    var r := Filter(MenuItems, item => Allowed(hasPermission, item));
    forall item ensures item in r <==> item in MenuItems && Allowed(hasPermission, item) {
      FilterMember(MenuItems, item => Allowed(hasPermission, item), item);
    }
    FilterIsSubsequence(MenuItems, item => Allowed(hasPermission, item));
    r
  }

  /** "My Dashboard" needs no permission, so every user sees it. */
  lemma PersonalDashboardAlwaysVisible(hasPermission: string -> bool)
    ensures MenuItem("personal-dashboard", "My Dashboard", None) in VisibleMenuItems(hasPermission)
  {
    assert MenuItems[1] == MenuItem("personal-dashboard", "My Dashboard", None);
  }

  /** Payroll and Salary Management share a permission: both are shown or neither is. */
  lemma PayrollAndSalaryTogether(hasPermission: string -> bool)
    ensures var visible := VisibleMenuItems(hasPermission);
      MenuItems[7] in visible <==> MenuItems[8] in visible
    ensures MenuItems[7].id == "payroll" && MenuItems[8].id == "salary"
  {
  }

  predicate DistinctIds(items: seq<MenuItem>)
  {
    forall i, j :: 0 <= i < j < |items| ==> items[i].id != items[j].id
  }

  lemma MenuIdsDistinct()
    ensures DistinctIds(MenuItems)
  {
  }

  /** Filtering keeps ids distinct. */
  lemma {:induction false} FilterKeepsIdsDistinct(items: seq<MenuItem>, p: MenuItem -> bool)
    requires DistinctIds(items)
    ensures DistinctIds(Filter(items, p))
  {
    if items != [] {
      FilterKeepsIdsDistinct(items[1..], p);
      if p(items[0]) {
        var rest := Filter(items[1..], p);
        forall k | 0 <= k < |rest| ensures rest[k].id != items[0].id {
          FilterMember(items[1..], p, rest[k]);
          var m :| 0 <= m < |items[1..]| && items[1..][m] == rest[k];
          assert items[m + 1] == rest[k];
        }
        var r := Filter(items, p);
        assert r == [items[0]] + rest;
        forall i, j | 0 <= i < j < |r| ensures r[i].id != r[j].id {
          if i > 0 {
            assert r[i] == rest[i - 1] && r[j] == rest[j - 1];
          } else {
            assert r[j] == rest[j - 1];
          }
        }
      }
    }
  }

  /** A button is highlighted when its id is the active tab. */
  predicate IsActive(activeTab: string, item: MenuItem)
  {
    activeTab == item.id
  }

  /** Menu ids are distinct, so at most one visible button is highlighted. */
  lemma AtMostOneActive(hasPermission: string -> bool, activeTab: string)
    ensures var visible := VisibleMenuItems(hasPermission);
      forall i, j ::
        (0 <= i < |visible| && 0 <= j < |visible| && IsActive(activeTab, visible[i]) && IsActive(activeTab, visible[j]))
        ==> i == j
  {
    MenuIdsDistinct();
    FilterKeepsIdsDistinct(MenuItems, item => Allowed(hasPermission, item));
  }

  /** The menu's open/closed state. */
  class Navigation {
    var isOpen: bool

    constructor ()
      ensures !isOpen
    {
      isOpen := false;
    }

    /** `handleTabChange`: reports the chosen tab to the parent and closes the menu. */
    method HandleTabChange(tab: string) returns (selected: string)
      modifies this
      ensures selected == tab && !isOpen
    {
      selected := tab;
      isOpen := false;
    }

    /** The floating button flips the menu. */
    method Toggle()
      modifies this
      ensures isOpen == !old(isOpen)
    {
      isOpen := !isOpen;
    }

    /** A click on the overlay closes the menu. */
    method CloseOverlay()
      modifies this
      ensures !isOpen
    {
      isOpen := false;
    }
  }
}
