/** The sidebar (ethicsgate-app/src/components/layout/sidebar.tsx): a fixed navigation
    list filtered by the user's role, and the rule that marks a link active for the
    current pathname. */
module Sidebar {
  import opened Domain
  import opened Sequences

  datatype NavItem = NavItem(name: string, href: string, roles: seq<UserRole>)

  const Navigation: seq<NavItem> := [
    NavItem("Dashboard", "/dashboard", [Admin, Reviewer, Researcher]),
    NavItem("Proposals", "/proposals", [Admin, Reviewer, Researcher]),
    NavItem("Team", "/admin/users", [Admin]),
    NavItem("Settings", "/admin/settings", [Admin])
  ]

  /** `items.filter(item => item.roles.includes(role))`. */
  function FilterByRole(items: seq<NavItem>, role: UserRole): (r: seq<NavItem>)
    ensures forall x :: x in r <==> x in items && role in x.roles
    ensures IsSubsequence(r, items)
  {
    if |items| == 0 then []
    else
      var rest := FilterByRole(items[1..], role);
      assert forall x :: x in items <==> x == items[0] || x in items[1..];
      if role in items[0].roles then [items[0]] + rest
      else
        assert |rest| > 0 ==> rest[0] != items[0];
        rest
  }

  /** The filter keeps every item listing the role as often as it occurs, and no other. */
  lemma {:induction false} FilterByRoleCounts(items: seq<NavItem>, role: UserRole)
    ensures forall x :: multiset(FilterByRole(items, role))[x] == if role in x.roles then multiset(items)[x] else 0
  {
    if |items| > 0 {
      FilterByRoleCounts(items[1..], role);
      assert items == [items[0]] + items[1..];
    }
  }

  function FilteredNav(role: UserRole): (r: seq<NavItem>)
    ensures forall x :: x in r <==> x in Navigation && role in x.roles
    ensures IsSubsequence(r, Navigation)
  {
    FilterByRole(Navigation, role)
  }

  function Names(items: seq<NavItem>): seq<string>
  {
    if |items| == 0 then [] else [items[0].name] + Names(items[1..])
  }

  /** Admins see all four links, in order. */
  lemma AdminNav()
    ensures FilteredNav(Admin) == Navigation
    ensures Names(FilteredNav(Admin)) == ["Dashboard", "Proposals", "Team", "Settings"]
  {
    FilterKeepsAll(Navigation, Admin);
    NamesOfNavigation();
  }

  lemma NamesOfNavigation()
    ensures Names(Navigation) == ["Dashboard", "Proposals", "Team", "Settings"]
    ensures Names(Navigation[..2]) == ["Dashboard", "Proposals"]
  {
    var n := Navigation;
    assert n[3..][1..] == [] && n[2..][1..] == n[3..] && n[1..][1..] == n[2..];
    assert Names(n[3..]) == ["Settings"];
    assert Names(n[2..]) == ["Team", "Settings"];
    assert Names(n[1..]) == ["Proposals", "Team", "Settings"];
    var m := n[..2];
    assert m[1..][1..] == [];
    assert Names(m[1..]) == ["Proposals"];
  }

  /** Reviewers and researchers see Dashboard and Proposals, and neither admin page. */
  lemma NonAdminNav(role: UserRole)
    requires role != Admin
    ensures FilteredNav(role) == Navigation[..2]
    ensures Names(FilteredNav(role)) == ["Dashboard", "Proposals"]
  {
    var n := Navigation;
    assert n == n[..2] + n[2..];
    FilterConcat(n[..2], n[2..], role);
    NonAdminRoles(role);
    FilterKeepsAll(n[..2], role);
    FilterDropsAll(n[2..], role);
    NamesOfNavigation();
  }

  /** The first two links list every role, the last two only admins. */
  lemma NonAdminRoles(role: UserRole)
    requires role != Admin
    ensures forall k :: 0 <= k < |Navigation[..2]| ==> role in Navigation[..2][k].roles
    ensures forall k :: 0 <= k < |Navigation[2..]| ==> role !in Navigation[2..][k].roles
  {
  }

  /** Filtering a concatenation filters each side. */
  lemma {:induction false} FilterConcat(xs: seq<NavItem>, ys: seq<NavItem>, role: UserRole)
    ensures FilterByRole(xs + ys, role) == FilterByRole(xs, role) + FilterByRole(ys, role)
  {
    if |xs| == 0 {
      assert xs + ys == ys;
    } else {
      FilterConcat(xs[1..], ys, role);
      var kept := if role in xs[0].roles then [xs[0]] else [];
      assert (xs + ys)[0] == xs[0];
      assert (xs + ys)[1..] == xs[1..] + ys;
      assert FilterByRole(xs + ys, role) == kept + FilterByRole(xs[1..] + ys, role);
      assert FilterByRole(xs, role) == kept + FilterByRole(xs[1..], role);
      ConcatAssoc(kept, FilterByRole(xs[1..], role), FilterByRole(ys, role));
    }
  }

  lemma {:induction false} FilterKeepsAll(items: seq<NavItem>, role: UserRole)
    requires forall k :: 0 <= k < |items| ==> role in items[k].roles
    ensures FilterByRole(items, role) == items
  {
    if |items| > 0 {
      FilterKeepsAll(items[1..], role);
      assert items == [items[0]] + items[1..];
    }
  }

  lemma {:induction false} FilterDropsAll(items: seq<NavItem>, role: UserRole)
    requires forall k :: 0 <= k < |items| ==> role !in items[k].roles
    ensures FilterByRole(items, role) == []
  {
    if |items| > 0 {
      FilterDropsAll(items[1..], role);
    }
  }

  /** `pathname === href || pathname.startsWith(href + '/')`. */
  predicate IsActive(pathname: string, href: string)
  {
    pathname == href || href + "/" <= pathname
  }

  /** An active link's href is a prefix of the pathname. */
  lemma ActiveHrefIsPrefix(pathname: string, href: string)
    requires IsActive(pathname, href)
    ensures href <= pathname
  {
    if pathname != href {
      assert pathname[..|href|] == (href + "/")[..|href|];
    }
  }

  /** Two prefixes of one string are comparable. */
  lemma PrefixesComparable(s: string, p: string, q: string)
    requires p <= s && q <= s && |p| <= |q|
    ensures p <= q
  {
    assert q[..|p|] == s[..|q|][..|p|];
  }

  /** When no href is a prefix of another, no pathname activates two of them. */
  lemma AtMostOneActiveAmong(pathname: string, h1: string, h2: string)
    requires !(h2 <= h1) && !(h1 <= h2)
    ensures !(IsActive(pathname, h1) && IsActive(pathname, h2))
  {
    if IsActive(pathname, h1) && IsActive(pathname, h2) {
      ActiveHrefIsPrefix(pathname, h1);
      ActiveHrefIsPrefix(pathname, h2);
      if |h1| <= |h2| { PrefixesComparable(pathname, h1, h2); } else { PrefixesComparable(pathname, h2, h1); }
    }
  }

  /** Strings that differ at a position both reach are not prefixes of one another. */
  lemma DifferAt(s: string, t: string, k: nat)
    requires k < |s| && k < |t| && s[k] != t[k]
    ensures !(t <= s) && !(s <= t)
  {
  }

  /** For every pathname at most one of the four navigation links is active. */
  lemma AtMostOneNavActive(pathname: string, i: nat, j: nat)
    requires i < j < |Navigation|
    ensures !(IsActive(pathname, Navigation[i].href) && IsActive(pathname, Navigation[j].href))
  {
    var h1, h2 := Navigation[i].href, Navigation[j].href;
    if i == 2 {
      assert h1[7] == 'u' && h2[7] == 's';
      DifferAt(h1, h2, 7);
    } else {
      assert h1[1] != h2[1];
      DifferAt(h1, h2, 1);
    }
    AtMostOneActiveAmong(pathname, h1, h2);
  }

  /** A sub-route is active for its section, a longer sibling name is not. */
  lemma IsActiveExamples()
    ensures IsActive("/proposals", "/proposals")
    ensures IsActive("/proposals/abc", "/proposals")
    ensures !IsActive("/proposalsx", "/proposals")
  {
    assert "/proposals/abc"[..11] == "/proposals/";
    assert "/proposalsx"[..11] != "/proposals/" by {
      assert "/proposalsx"[10] != "/proposals/"[10];
    }
  }

  /** One rendered link: its label, its target and whether it is highlighted. */
  datatype NavLink = NavLink(name: string, href: string, active: bool)

  /** The links the sidebar renders for a role at a pathname. */
  function NavLinks(role: UserRole, pathname: string): (links: seq<NavLink>)
    ensures |links| == |FilteredNav(role)|
    ensures forall k :: 0 <= k < |links| ==>
      links[k].name == FilteredNav(role)[k].name && links[k].href == FilteredNav(role)[k].href
      && (links[k].active <==> IsActive(pathname, links[k].href))
  {
    var items := FilteredNav(role);
    seq(|items|, k requires 0 <= k < |items| => NavLink(items[k].name, items[k].href, IsActive(pathname, items[k].href)))
  }

  /** Whatever the role and the pathname, at most one rendered link is highlighted. */
  lemma AtMostOneLinkActive(role: UserRole, pathname: string, a: nat, b: nat)
    requires a < b < |NavLinks(role, pathname)|
    ensures !(NavLinks(role, pathname)[a].active && NavLinks(role, pathname)[b].active)
  {
    if role == Admin {
      AdminNav();
    } else {
      NonAdminNav(role);
    }
    AtMostOneNavActive(pathname, a, b);
  }
}
