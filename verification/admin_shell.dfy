/** The sidebar of `src/components/admin/AdminShell.tsx`: which navigation item
    is highlighted for the current pathname. */
module AdminShell {
  import opened Seqs
  import opened Strings

  /** A sidebar entry: its `label` (a reserved word here, hence `labelText`) and `href`. */
  datatype NavItem = NavItem(labelText: string, href: string)

  /** `NAV_ITEMS`, in sidebar order. */
  const NavItems: seq<NavItem> := [
    NavItem("Overview", "/admin"),
    NavItem("Posts", "/admin/posts"),
    NavItem("Topics", "/admin/topics"),
    NavItem("Paths", "/admin/paths"),
    NavItem("Analytics", "/admin/analytics"),
    NavItem("Settings", "/admin/settings"),
    NavItem("Deploy", "/admin/deploy")
  ]

  /** `isActive`: the overview matches its pathname exactly, every other item
      matches any pathname that starts with its href, as a raw string test. */
  predicate IsActive(pathname: string, href: string)
    ensures IsActive(pathname, href) ==> StartsWith(pathname, href)
  {
    if href == "/admin" then pathname == "/admin" else StartsWith(pathname, href)
  }

  /** Two strings that differ at position `k` are never both prefixes of one string. */
  lemma NotBothPrefixes(s: string, a: string, b: string, k: nat)
    requires k < |a| && k < |b| && a[k] != b[k]
    ensures !(StartsWith(s, a) && StartsWith(s, b))
  {
    if StartsWith(s, a) {
      assert s[k] == s[..|a|][k] == a[k];
    }
    if StartsWith(s, b) {
      assert s[k] == s[..|b|][k] == b[k];
    }
  }

  /** No two items are highlighted at once: the overview only on "/admin"
      itself, and the other hrefs differ within their common length, so no
      pathname starts with two of them. */
  lemma AtMostOneActive(pathname: string)
    ensures forall i, j :: 0 <= i < j < |NavItems| ==>
              !(IsActive(pathname, NavItems[i].href) && IsActive(pathname, NavItems[j].href))
  {
    forall i, j | 0 <= i < j < |NavItems| && IsActive(pathname, NavItems[i].href)
      ensures !IsActive(pathname, NavItems[j].href)
    {
      var a, b := NavItems[i].href, NavItems[j].href;
      assert |b| >= 12 && b[..6] == "/admin";
      if i == 0 {
        assert pathname == "/admin";
      } else {
        assert a[7] != b[7] || a[8] != b[8];
        var k: nat := if a[7] != b[7] then 7 else 8;
        NotBothPrefixes(pathname, a, b, k);
      }
    }
  }

  function ActiveFor(pathname: string): NavItem -> bool {
    (item: NavItem) => IsActive(pathname, item.href)
  }

  /** The items the sidebar renders highlighted for a pathname, in sidebar
      order: exactly the active ones, and never more than one. */
  function ActiveItems(pathname: string): (r: seq<NavItem>)
    ensures |r| <= 1
    ensures forall i :: 0 <= i < |r| ==> r[i] in NavItems && IsActive(pathname, r[i].href)
    ensures forall k :: 0 <= k < |NavItems| && IsActive(pathname, NavItems[k].href) ==> NavItems[k] in r
  {
    AtMostOneActive(pathname);
    FilterAtMostOne(NavItems, ActiveFor(pathname));
    Filter(NavItems, ActiveFor(pathname))
  }

  /** On the new-post page the Posts item is highlighted and the overview is not. */
  lemma NewPostPageHighlightsPosts()
    ensures IsActive("/admin/posts/new", NavItems[1].href)
    ensures !IsActive("/admin/posts/new", NavItems[0].href)
  {
    assert "/admin/posts/new"[..12] == "/admin/posts";
  }

  /** The prefix test is raw: "/admin/postsx" highlights Posts as well. */
  lemma RawPrefixHighlightsPosts()
    ensures IsActive("/admin/postsx", NavItems[1].href)
  {
    assert "/admin/postsx"[..12] == "/admin/posts";
  }
}
