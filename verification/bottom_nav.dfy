/** The mobile bottom navigation (src/components/mobile/BottomNav.tsx): five
    fixed items, each highlighted when the current path is its own or, for
    every item but the root, starts with it. */
module BottomNav {
  import opened Text

  datatype NavItem = NavItem(caption: string, path: string)

  const NavItems: seq<NavItem> := [
    NavItem("Dashboard", "/"),
    NavItem("Invoices", "/pos"),
    NavItem("Products", "/products"),
    NavItem("Customers", "/customer-management"),
    NavItem("Settings", "/more")]

  /** `isActive`: the root only on itself; any other item on a raw prefix
      match, with no regard for path segments. */
  function IsActive(currentPath: string, item: NavItem): (active: bool)
    ensures item.path == "/" ==> (active <==> currentPath == "/")
    ensures item.path != "/" ==> (active <==> StartsWith(currentPath, item.path))
  {
    currentPath == item.path || (item.path != "/" && StartsWith(currentPath, item.path))
  }

  /** A path that starts with two prefixes starts with the shorter of them
      followed by the rest of the longer. */
  lemma PrefixesNest(s: string, a: string, b: string)
    requires StartsWith(s, a) && StartsWith(s, b) && |a| <= |b|
    ensures StartsWith(b, a)
  {
    assert b[..|a|] == s[..|b|][..|a|];
  }

  /** No item's path is a prefix of another's. */
  lemma PathsPrefixFree()
    ensures forall i, j :: 0 <= i < |NavItems| && 0 <= j < |NavItems| && i != j ==>
      !StartsWith(NavItems[j].path, NavItems[i].path) || NavItems[i].path == "/"
  {
    assert NavItems[1].path[1] == 'p' && NavItems[2].path[1] == 'p' && NavItems[3].path[1] == 'c' && NavItems[4].path[1] == 'm';
    assert NavItems[1].path[2] == 'o' && NavItems[2].path[2] == 'r';
  }

  /** Whatever the current path, at most one item is highlighted. */
  lemma AtMostOneActive(currentPath: string)
    ensures forall i, j :: 0 <= i < |NavItems| && 0 <= j < |NavItems| && i != j ==>
      !(IsActive(currentPath, NavItems[i]) && IsActive(currentPath, NavItems[j]))
  {
    PathsPrefixFree();
    forall i, j | 0 <= i < |NavItems| && 0 <= j < |NavItems| && i != j
      ensures !(IsActive(currentPath, NavItems[i]) && IsActive(currentPath, NavItems[j]))
    {
      var a := NavItems[i].path;
      var b := NavItems[j].path;
      if !IsActive(currentPath, NavItems[i]) || !IsActive(currentPath, NavItems[j]) || i == 0 || j == 0 {
        // The root is active only on "/", which no other item's path prefixes.
      } else if |a| <= |b| {
        PrefixesNest(currentPath, a, b);
      } else {
        PrefixesNest(currentPath, b, a);
      }
    }
  }

  /** `handleNavClick`: the app goes to the item's path, which highlights
      that item and no other. */
  function Click(item: NavItem): (path: string)
    ensures IsActive(path, item)
  {
    item.path
  }

  lemma ClickHighlightsOnlyThatItem(k: nat)
    requires k < |NavItems|
    ensures forall j :: 0 <= j < |NavItems| ==> (IsActive(Click(NavItems[k]), NavItems[j]) <==> j == k)
  {
    AtMostOneActive(Click(NavItems[k]));
  }

  /** The prefix rule is not segment-aware: '/posx' highlights the item for
      '/pos'. */
  lemma RawPrefixMatch()
    ensures IsActive("/posx", NavItems[1])
    ensures IsActive("/pos/receipt", NavItems[1])
  {
    assert "/posx"[..4] == "/pos";
    assert "/pos/receipt"[..4] == "/pos";
  }
}
