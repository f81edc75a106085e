/**
  The dashboard shell: which sidebar entries are highlighted for the current
  path, and the avatar text in the profile box.
*/
module Layout {
  import opened Wrappers
  import opened Seqs
  import opened Text
  import opened Utils

  datatype NavItem = NavItem(name: string, href: string)

  const NavigationItems: seq<NavItem> := [
    NavItem("Dashboard", "/dashboard"),
    NavItem("Subscriptions", "/dashboard/subscriptions"),
    NavItem("Notifications", "/dashboard/notifications"),
    NavItem("Settings", "/dashboard/settings")
  ]

  /** An entry is highlighted on its own page and on every page below it; with no path, never. */
  predicate IsActive(pathname: Option<string>, href: string)
  {
    pathname == Some(href) || (pathname.Some? && href + "/" <= pathname.value)
  }

  /** Highlighting respects path-segment boundaries: after the entry's path comes nothing or a '/'. */
  lemma IsActiveAtSegmentBoundary(path: string, href: string)
    ensures IsActive(Some(path), href) <==>
      path == href || (|path| > |href| && path[..|href|] == href && path[|href|] == '/')
  {
    if |path| > |href| && path[..|href|] == href && path[|href|] == '/' {
      assert path[..|href| + 1] == href + "/";
    }
    if href + "/" <= path {
      assert path[..|href|] == (href + "/")[..|href|];
    }
  }

  lemma NoPathNoHighlight(href: string)
    ensures !IsActive(None, href)
  {
  }

  /** A path that merely continues the entry's last segment does not highlight it. */
  lemma BarePrefixNotActive()
    ensures !IsActive(Some("/dashboard/subscriptionsX"), "/dashboard/subscriptions")
    ensures IsActive(Some("/dashboard/subscriptionsX"), "/dashboard")
  {
    IsActiveAtSegmentBoundary("/dashboard/subscriptionsX", "/dashboard/subscriptions");
    IsActiveAtSegmentBoundary("/dashboard/subscriptionsX", "/dashboard");
  }

  /** When an entry is highlighted, so is every entry whose page lies above it. */
  lemma AncestorActive(pathname: Option<string>, parent: string, child: string)
    requires IsActive(pathname, child)
    requires parent + "/" <= child
    ensures IsActive(pathname, parent)
  {
    var p := parent + "/";
    assert child[..|p|] == p;
    assert pathname.value[..|p|] == child[..|p|];
  }

  function ItemName(item: NavItem): string
  {
    item.name
  }

  /** The highlight test for one sidebar entry on the given path. */
  function HighlightedOn(pathname: Option<string>): NavItem -> bool
  {
    (item: NavItem) => IsActive(pathname, item.href)
  }

  /** The names of the highlighted entries, in sidebar order. */
  function ActiveItems(pathname: Option<string>): (r: seq<string>)
    ensures forall i :: 0 <= i < |NavigationItems| ==>
      (NavigationItems[i].name in r <==> IsActive(pathname, NavigationItems[i].href))
    ensures IsSubsequence(r, Map(NavigationItems, ItemName))
    ensures pathname.None? ==> r == []
  {
    ActiveNamesMembers(pathname);
    Map(Filter(NavigationItems, HighlightedOn(pathname)), ItemName)
  }

  lemma ActiveNamesMembers(pathname: Option<string>)
    ensures var r := Map(Filter(NavigationItems, HighlightedOn(pathname)), ItemName);
      (forall i :: 0 <= i < |NavigationItems| ==>
        (NavigationItems[i].name in r <==> IsActive(pathname, NavigationItems[i].href)))
      && IsSubsequence(r, Map(NavigationItems, ItemName))
      && (pathname.None? ==> r == [])
  {
    var p := HighlightedOn(pathname);
    FilterIsSubsequence(NavigationItems, p);
    MapSubsequence(Filter(NavigationItems, p), NavigationItems, ItemName);
    NavigationNamesIdentify();
    FilteredNames(NavigationItems, p);
    if pathname.None? {
      FilterKeepsNone(NavigationItems, p);
    }
  }

  /** Entries are told apart by their names. */
  ghost predicate NamesIdentify(items: seq<NavItem>)
  {
    forall x, y :: x in items && y in items && x.name == y.name ==> x == y
  }

  /** The four sidebar entries have four different names. */
  lemma NavigationNamesIdentify()
    ensures NamesIdentify(NavigationItems)
  {
    forall x, y | x in NavigationItems && y in NavigationItems && x.name == y.name
      ensures x == y
    {
    }
  }

  /** Among entries with distinct names, a name survives the filter exactly when its entry does. */
  lemma FilteredNames(items: seq<NavItem>, p: NavItem -> bool)
    requires NamesIdentify(items)
    ensures var r := Map(Filter(items, p), ItemName);
      forall i :: 0 <= i < |items| ==> (items[i].name in r <==> p(items[i]))
  {
    forall i | 0 <= i < |items|
      ensures items[i].name in Map(Filter(items, p), ItemName) <==> p(items[i])
    {
      if p(items[i]) {
        KeptNameListed(items, p, i);
      }
      if items[i].name in Map(Filter(items, p), ItemName) {
        ListedNameKept(items, p, i);
      }
    }
  }

  lemma KeptNameListed(items: seq<NavItem>, p: NavItem -> bool, i: int)
    requires 0 <= i < |items| && p(items[i])
    ensures items[i].name in Map(Filter(items, p), ItemName)
  {
    var active := Filter(items, p);
    FilterMembers(items, p);
    assert items[i] in active;
    var j :| 0 <= j < |active| && active[j] == items[i];
    assert Map(active, ItemName)[j] == items[i].name;
  }

  lemma ListedNameKept(items: seq<NavItem>, p: NavItem -> bool, i: int)
    requires NamesIdentify(items)
    requires 0 <= i < |items| && items[i].name in Map(Filter(items, p), ItemName)
    ensures p(items[i])
  {
    var active := Filter(items, p);
    var r := Map(active, ItemName);
    var j :| 0 <= j < |r| && r[j] == items[i].name;
    var x := active[j];
    assert x in active;
    FilterMembers(items, p);
    assert x in items && p(x);
    assert items[i] in items;
  }

  lemma AddPageHighlights()
    ensures var path := Some("/dashboard/subscriptions/add");
      IsActive(path, "/dashboard") && IsActive(path, "/dashboard/subscriptions")
      && !IsActive(path, "/dashboard/notifications") && !IsActive(path, "/dashboard/settings")
  {
    var path := "/dashboard/subscriptions/add";
    IsActiveAtSegmentBoundary(path, "/dashboard");
    IsActiveAtSegmentBoundary(path, "/dashboard/subscriptions");
    IsActiveAtSegmentBoundary(path, "/dashboard/notifications");
    IsActiveAtSegmentBoundary(path, "/dashboard/settings");
  }

  /** The add page highlights both "Dashboard" and "Subscriptions". */
  lemma NestedRouteExample()
    ensures ActiveItems(Some("/dashboard/subscriptions/add")) == ["Dashboard", "Subscriptions"]
  {
    var path := "/dashboard/subscriptions/add";
    AddPageHighlights();
    var items := NavigationItems;
    var p := (item: NavItem) => IsActive(Some(path), item.href);
    assert p(items[0]) && p(items[1]) && !p(items[2]) && !p(items[3]);
    var tail3 := [items[3]];
    var tail2 := [items[2], items[3]];
    var tail1 := [items[1], items[2], items[3]];
    assert items[1..] == tail1 && tail1[1..] == tail2 && tail2[1..] == tail3 && tail3[1..] == [];
    assert Filter(tail3, p) == [];
    assert Filter(tail2, p) == [];
    assert Filter(tail1, p) == [items[1]];
    assert Filter(items, p) == [items[0], items[1]];
  }

  /** The text the avatar is computed from: the full name, else the e-mail, else "U". */
  function AvatarSource(fullName: Option<string>, email: Option<string>): (r: string)
    ensures r != ""
    ensures fullName.Some? && fullName.value != "" ==> r == fullName.value
    ensures BlankIfAbsent(fullName) && email.Some? && email.value != "" ==> r == email.value
    ensures BlankIfAbsent(fullName) && BlankIfAbsent(email) ==> r == "U"
  {
    if fullName.Some? && fullName.value != "" then fullName.value
    else if email.Some? && email.value != "" then email.value
    else "U"
  }

  /** Missing and empty values are both falsy, so both fall through to the next choice. */
  predicate BlankIfAbsent(o: Option<string>)
  {
    o.None? || o.value == ""
  }

  /** The avatar's letters: the initials of the first available of name, e-mail and "U". */
  function AvatarInitials(fullName: Option<string>, email: Option<string>): (r: string)
    ensures |r| <= 2
    ensures fullName.Some? && fullName.value != "" ==> r == GetInitials(fullName.value)
    ensures BlankIfAbsent(fullName) && email.Some? && email.value != "" ==> r == GetInitials(email.value)
    ensures BlankIfAbsent(fullName) && email.Some? && email.value != "" && ' ' !in email.value ==>
      r == [UpperChar(email.value[0])]
    ensures BlankIfAbsent(fullName) && BlankIfAbsent(email) ==> r == "U"
  {
    var source := AvatarSource(fullName, email);
    InitialsOfOneWord("U");
    if BlankIfAbsent(fullName) && email.Some? && email.value != "" && ' ' !in email.value then
      InitialsOfOneWord(email.value);
      GetInitials(source)
    else
      GetInitials(source)
  }
}
