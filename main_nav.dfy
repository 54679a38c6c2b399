/** The site navigation (`MainNav`): which of the five routes is highlighted
    for the current pathname, in the mobile menu and in the desktop bar. */
module MainNav {
  import opened Text

  datatype Route = Route(href: string, caption: string)

  /** The routes of the navigation, in the order they are shown. */
  function Routes(): seq<Route>
  {
    [ Route("/", "Dashboard"), Route("/inventory", "Inventory"), Route("/sales", "Sales"),
      Route("/reports", "Reports"), Route("/settings", "Settings") ]
  }

  /** A route is highlighted when the pathname is its href, or, for any
      route but the root, when the pathname starts with its href. */
  predicate IsActive(pathname: string, href: string)
  {
    pathname == href || (href != "/" && StartsWith(pathname, href))
  }

  /** Which routes are highlighted, in order. The mobile menu and the
      desktop bar evaluate the same test over the same routes. */
  function Highlights(pathname: string): (r: seq<bool>)
    ensures |r| == |Routes()|
  {
    seq(|Routes()|, i requires 0 <= i < |Routes()| => IsActive(pathname, Routes()[i].href))
  }

  /** The root is highlighted only on the root itself. */
  lemma RootOnlyExact(pathname: string)
    ensures IsActive(pathname, "/") <==> pathname == "/"
  {
  }

  /** A route other than the root is highlighted on itself and on every
      pathname it is a raw string prefix of. */
  lemma PrefixActivates(pathname: string, href: string, rest: string)
    requires href != "/" && pathname == href + rest
    ensures IsActive(pathname, href)
  {
    assert pathname[..|href|] == href;
  }

  /** The prefix need not end at a path segment: "/sales-x" highlights "/sales". */
  lemma PrefixIgnoresSegments()
    ensures IsActive("/sales-x", "/sales")
  {
    PrefixActivates("/sales-x", "/sales", "-x");
  }

  /** A pathname shorter than a route's href never highlights that route. */
  lemma ShortPathInactive(pathname: string, href: string)
    requires |pathname| < |href|
    ensures !IsActive(pathname, href)
  {
  }

  /** The default pathname "" highlights no route. */
  lemma EmptyPathHighlightsNothing()
    ensures forall i | 0 <= i < |Routes()| :: !Highlights("")[i]
  {
    forall i | 0 <= i < |Routes()| ensures !IsActive("", Routes()[i].href) {
      ShortPathInactive("", Routes()[i].href);
    }
  }

  /** On a route's own page exactly that route is highlighted. */
  lemma OwnPageOnly(i: nat, j: nat)
    requires i < |Routes()| && j < |Routes()|
    ensures IsActive(Routes()[i].href, Routes()[j].href) <==> i == j
  {
    var r := Routes();
    if i != j && r[j].href != "/" {
      assert r[i].href != r[j].href;
      if |r[j].href| <= |r[i].href| {
        var k := if r[i].href[1] != r[j].href[1] then 1 else 2;
        assert r[i].href[..|r[j].href|][k] != r[j].href[k];
      }
    }
  }

  /** On a route's own page the navigation highlights that route and no other. */
  lemma HighlightsOwnPage(i: nat)
    requires i < |Routes()|
    ensures forall j | 0 <= j < |Routes()| :: Highlights(Routes()[i].href)[j] <==> i == j
  {
    forall j | 0 <= j < |Routes()| ensures Highlights(Routes()[i].href)[j] <==> i == j {
      OwnPageOnly(i, j);
    }
  }
}
