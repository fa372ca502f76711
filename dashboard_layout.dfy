/**
  The dashboard layout: the sidebar's five navigation items, which one is
  highlighted for the current path, the header title, and the four-item mobile bar.
*/
module DashboardLayout {
  import opened Wrappers

  datatype NavItem = NavItem(name: string, href: string)

  const NavItems: seq<NavItem> := [
    NavItem("Profile", "/dashboard/profile"),
    NavItem("All Listings", "/dashboard/listings"),
    NavItem("Create Listing", "/dashboard/create-listing"),
    NavItem("My Listings", "/dashboard/my-listings"),
    NavItem("Settings", "/dashboard/profile/edit")
  ]

  /** An item is highlighted when its href is exactly the current path (no prefix match). */
  predicate IsActive(pathname: string, item: NavItem)
  {
    pathname == item.href
  }

  ghost predicate HrefsDistinct(items: seq<NavItem>)
  {
    forall i, j :: 0 <= i < j < |items| ==> items[i].href != items[j].href
  }

  /** The position of the first item whose href is the path. */
  function FindIndex(items: seq<NavItem>, pathname: string): (r: Option<nat>)
    ensures r == None <==> forall i :: 0 <= i < |items| ==> !IsActive(pathname, items[i])
    ensures r != None ==> r.value < |items| && IsActive(pathname, items[r.value])
    ensures r != None ==> forall j :: 0 <= j < r.value ==> !IsActive(pathname, items[j])
  {
    if items == [] then None
    else if IsActive(pathname, items[0]) then Some(0)
    else
      match FindIndex(items[1..], pathname)
      case None => None
      case Some(k) => Some(k + 1)
  }

  /** The first item whose href is exactly the path, if any. */
  function Find(items: seq<NavItem>, pathname: string): (r: Option<NavItem>)
    ensures r == None <==> forall i :: 0 <= i < |items| ==> !IsActive(pathname, items[i])
    ensures r != None ==> exists k :: 0 <= k < |items| && items[k] == r.value && IsActive(pathname, items[k]) &&
                                      forall j :: 0 <= j < k ==> !IsActive(pathname, items[j])
  {
    match FindIndex(items, pathname)
    case None => None
    case Some(k) => Some(items[k])
  }

  /**
    The header title: the name of the first item whose href is the path, or
    'Dashboard' when no item matches or the matching item's name is empty.
  */
  function HeaderTitle(items: seq<NavItem>, pathname: string): (title: string)
    ensures title != ""
    ensures (forall i :: 0 <= i < |items| ==> !IsActive(pathname, items[i])) ==> title == "Dashboard"
    ensures forall k :: 0 <= k < |items| && IsActive(pathname, items[k]) &&
                        (forall j :: 0 <= j < k ==> !IsActive(pathname, items[j])) ==>
                        title == (if items[k].name != "" then items[k].name else "Dashboard")
  {
    match Find(items, pathname)
    case None => "Dashboard"
    case Some(item) => if item.name != "" then item.name else "Dashboard"
  }

  /** With distinct hrefs, each item's own path shows that item's name as the title. */
  lemma TitleOfItem(items: seq<NavItem>, k: nat)
    requires HrefsDistinct(items) && k < |items| && items[k].name != ""
    ensures HeaderTitle(items, items[k].href) == items[k].name
  {
    var r := FindIndex(items, items[k].href);
    assert r != None;
    assert r.value == k;
  }

  /** A path no item links to gets the title 'Dashboard'. */
  lemma TitleFallback(items: seq<NavItem>, pathname: string)
    requires forall i :: 0 <= i < |items| ==> items[i].href != pathname
    ensures HeaderTitle(items, pathname) == "Dashboard"
  {
  }

  /** With distinct hrefs at most one item is highlighted. */
  lemma AtMostOneActive(items: seq<NavItem>, pathname: string)
    requires HrefsDistinct(items)
    ensures forall i, j :: 0 <= i < |items| && 0 <= j < |items| && IsActive(pathname, items[i]) && IsActive(pathname, items[j]) ==> i == j
  {
  }

  lemma NavHrefsDistinct()
    ensures HrefsDistinct(NavItems)
  {
  }

  /** The mobile bar: the first four navigation items. */
  function MobileItems(): (items: seq<NavItem>)
    ensures |items| == 4
    ensures forall i :: 0 <= i < 4 ==> items[i] == NavItems[i]
    ensures forall i :: 0 <= i < |items| ==> items[i].name != "Settings"
  {
    NavItems[..4]
  }

  /**
    On the settings path the title is 'Settings' and 'Profile' is not highlighted,
    although the settings path extends the profile path.
  */
  lemma SettingsPath()
    ensures HeaderTitle(NavItems, "/dashboard/profile/edit") == "Settings"
    ensures !IsActive("/dashboard/profile/edit", NavItems[0])
  {
    NavHrefsDistinct();
    TitleOfItem(NavItems, 4);
  }
}
