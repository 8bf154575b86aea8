/**
 * The fixed navigation bar: a flag for "the page is scrolled past the
 * threshold", a flag for the mobile menu, and the link list. Scroll events,
 * menu-button clicks and link clicks are explicit events; the document is
 * represented by the set of element ids it contains, and a smooth scroll to
 * a section by an entry in a log of scroll requests.
 */
module NavigationSection {
  import opened Optional

  /** One entry of the link list: the text shown and the anchor it points at. */
  datatype NavLink = NavLink(name: string, href: string)

  const NavLinks: seq<NavLink> := [
    NavLink("Home", "#hero"),
    NavLink("About", "#about"),
    NavLink("Services", "#services"),
    NavLink("Portfolio", "#portfolio"),
    NavLink("Testimonials", "#testimonials"),
    NavLink("Blog", "#blog"),
    NavLink("Contact", "#footer")
  ]

  /** The ids of the page's sections, top to bottom, as the app renders them. */
  const PageSectionIds: seq<string> := [
    "hero", "about", "services", "statistics", "portfolio",
    "testimonials", "clients", "blog", "footer"
  ]

  /** The bar switches to its compact style once the page is scrolled further than this many pixels. */
  const ScrollThreshold: real := 100.0

  /**
   * `document.querySelector` for a selector of the form `#id`: the id of the
   * matching element, or nothing when the document has no element with it.
   */
  function QuerySelector(selector: string, ids: set<string>): (found: Option<string>)
    ensures found.Some? <==> |selector| >= 1 && selector[0] == '#' && selector[1..] in ids
    ensures found.Some? ==> found.value in ids && "#" + found.value == selector
  {
    if |selector| >= 1 && selector[0] == '#' && selector[1..] in ids then Some(selector[1..]) else None
  }

  /** The bar's state, and every section the bar has asked the browser to scroll into view, oldest first. */
  datatype NavState = NavState(isScrolled: bool, isMobileMenuOpen: bool, scrolledTo: seq<string>)

  const Initial := NavState(false, false, [])

  /** What can happen to the bar. */
  datatype NavEvent =
    | Scroll(scrollY: real)    // a window scroll event, with the new `window.scrollY`
    | MenuButton               // the mobile menu button is clicked
    | LinkClick(href: string)  // a link of the bar or of the mobile menu is clicked

  /** The effect of one event on a document whose elements carry the ids `ids`. */
  function Apply(s: NavState, e: NavEvent, ids: set<string>): NavState
  {
    match e
    case Scroll(y) => s.(isScrolled := y > ScrollThreshold)
    case MenuButton => s.(isMobileMenuOpen := !s.isMobileMenuOpen)
    case LinkClick(href) =>
      var target := QuerySelector(href, ids);
      s.(scrolledTo := if target.Some? then s.scrolledTo + [target.value] else s.scrolledTo,
         isMobileMenuOpen := false)
  }

  /** The state after a sequence of events, applied oldest first. */
  function Run(s: NavState, events: seq<NavEvent>, ids: set<string>): NavState
  {
    if events == [] then s else Apply(Run(s, events[..|events| - 1], ids), events[|events| - 1], ids)
  }

  /** The scroll position reported by the latest scroll event, if there was one. */
  function LastScrollY(events: seq<NavEvent>): Option<real>
  {
    if events == [] then None
    else if events[|events| - 1].Scroll? then Some(events[|events| - 1].scrollY)
    else LastScrollY(events[..|events| - 1])
  }

  /** How many menu-button clicks came after the latest link click (or since the start if there was none). */
  function MenuClicksSinceLastLink(events: seq<NavEvent>): nat
  {
    if events == [] then 0
    else if events[|events| - 1].LinkClick? then 0
    else if events[|events| - 1].MenuButton? then MenuClicksSinceLastLink(events[..|events| - 1]) + 1
    else MenuClicksSinceLastLink(events[..|events| - 1])
  }

  /** The links of `events`, in order. */
  function Clicks(events: seq<NavEvent>): seq<string>
  {
    if events == [] then []
    else if events[|events| - 1].LinkClick? then Clicks(events[..|events| - 1]) + [events[|events| - 1].href]
    else Clicks(events[..|events| - 1])
  }

  /** The ids the clicked hrefs resolve to, skipping those the document does not contain. */
  function Resolved(hrefs: seq<string>, ids: set<string>): seq<string>
  {
    if hrefs == [] then []
    else
      var last := QuerySelector(hrefs[|hrefs| - 1], ids);
      Resolved(hrefs[..|hrefs| - 1], ids) + (if last.Some? then [last.value] else [])
  }

  /** `isScrolled` starts false and after every scroll event equals `scrollY > 100` for that event. */
  lemma {:induction false} ScrolledTracksLastScroll(events: seq<NavEvent>, ids: set<string>)
    ensures Run(Initial, events, ids).isScrolled ==
      match LastScrollY(events)
      case None => false
      case Some(y) => y > ScrollThreshold
  {
    if events != [] {
      ScrolledTracksLastScroll(events[..|events| - 1], ids);
    }
  }

  /**
   * The mobile menu starts closed, every menu-button click flips it and every
   * link click closes it: it is open exactly when an odd number of button
   * clicks followed the latest link click.
   */
  lemma {:induction false} MenuOpenIffOddToggles(events: seq<NavEvent>, ids: set<string>)
    ensures Run(Initial, events, ids).isMobileMenuOpen <==> MenuClicksSinceLastLink(events) % 2 == 1
  {
    if events != [] {
      MenuOpenIffOddToggles(events[..|events| - 1], ids);
    }
  }

  /**
   * Scrolling happens only for clicked links whose selector matches an
   * element: the scroll requests are exactly the resolved clicked links, in
   * click order.
   */
  lemma {:induction false} ScrollsOnlyToFoundTargets(events: seq<NavEvent>, ids: set<string>)
    ensures Run(Initial, events, ids).scrolledTo == Resolved(Clicks(events), ids)
  {
    if events != [] {
      ScrollsOnlyToFoundTargets(events[..|events| - 1], ids);
    }
  }

  /** Every link click leaves the menu closed, whether or not its target exists. */
  lemma LinkClickClosesMenu(s: NavState, href: string, ids: set<string>)
    ensures !Apply(s, LinkClick(href), ids).isMobileMenuOpen
    ensures Apply(s, LinkClick(href), ids).isScrolled == s.isScrolled
    ensures QuerySelector(href, ids).None? ==> Apply(s, LinkClick(href), ids).scrolledTo == s.scrolledTo
  {
  }

  /** The link list has seven entries and ends with Contact, pointing at the footer. */
  lemma NavLinksEndWithContact()
    ensures |NavLinks| == 7
    ensures NavLinks[|NavLinks| - 1] == NavLink("Contact", "#footer")
  {
  }

  /** Every link is a `#` anchor naming a section of the page. */
  lemma NavLinksAreSectionAnchors()
    ensures forall i :: 0 <= i < |NavLinks| ==>
      |NavLinks[i].href| >= 1 && NavLinks[i].href[0] == '#' && NavLinks[i].href[1..] in PageSectionIds
  {
    forall i | 0 <= i < |NavLinks|
      ensures |NavLinks[i].href| >= 1 && NavLinks[i].href[0] == '#' && NavLinks[i].href[1..] in PageSectionIds
    {
      LinkPosition(i);
    }
  }

  /** For each link, the position on the page of the section it points at. */
  const LinkPositions: seq<nat> := [0, 1, 2, 4, 5, 7, 8]

  /**
   * The links list sections in the order they appear on the page: link i
   * points at the section at position LinkPositions[i], and those positions
   * strictly increase.
   */
  lemma NavLinksFollowPageOrder()
    ensures |LinkPositions| == |NavLinks|
    ensures forall i :: 0 <= i < |NavLinks| ==>
      LinkPositions[i] < |PageSectionIds| && "#" + PageSectionIds[LinkPositions[i]] == NavLinks[i].href
    ensures forall i, j :: 0 <= i < j < |LinkPositions| ==> LinkPositions[i] < LinkPositions[j]
  {
    forall i | 0 <= i < |NavLinks|
      ensures LinkPositions[i] < |PageSectionIds| && "#" + PageSectionIds[LinkPositions[i]] == NavLinks[i].href
    {
      LinkPosition(i);
    }
  }

  lemma LinkPosition(i: nat)
    requires i < |NavLinks|
    ensures |NavLinks[i].href| >= 1 && NavLinks[i].href[0] == '#'
    ensures LinkPositions[i] < |PageSectionIds| && NavLinks[i].href[1..] == PageSectionIds[LinkPositions[i]]
    ensures "#" + PageSectionIds[LinkPositions[i]] == NavLinks[i].href
  {
    if i == 0 { LinkTargetsSection(0, "hero", 0); }
    else if i == 1 { LinkTargetsSection(1, "about", 1); }
    else if i == 2 { LinkTargetsSection(2, "services", 2); }
    else if i == 3 { LinkTargetsSection(3, "portfolio", 4); }
    else if i == 4 { LinkTargetsSection(4, "testimonials", 5); }
    else if i == 5 { LinkTargetsSection(5, "blog", 7); }
    else { LinkTargetsSection(6, "footer", 8); }
  }

  /** Link i is the anchor `#id` of the section at position k of the page. */
  lemma LinkTargetsSection(i: nat, id: string, k: nat)
    requires i < |NavLinks| && k < |PageSectionIds|
    requires NavLinks[i].href == "#" + id && PageSectionIds[k] == id
    ensures |NavLinks[i].href| >= 1 && NavLinks[i].href[0] == '#' && NavLinks[i].href[1..] == id
  {
    assert NavLinks[i].href[1..] == id;
  }

  /** On the rendered page every link of the bar finds its section, so every link click scrolls. */
  lemma EveryNavLinkScrolls(s: NavState, i: nat)
    requires i < |NavLinks|
    ensures var ids := set k | 0 <= k < |PageSectionIds| :: PageSectionIds[k];
      && QuerySelector(NavLinks[i].href, ids) == Some(NavLinks[i].href[1..])
      && Apply(s, LinkClick(NavLinks[i].href), ids).scrolledTo == s.scrolledTo + [NavLinks[i].href[1..]]
  {
    LinkPosition(i);
    var ids := set k | 0 <= k < |PageSectionIds| :: PageSectionIds[k];
    assert PageSectionIds[LinkPositions[i]] in ids;
  }

  /** The navigation component's state hooks, and the scroll requests it has made. */
  class Navigation {
    var isScrolled: bool
    var isMobileMenuOpen: bool
    var scrolledTo: seq<string>

    function State(): NavState
      reads this
    {
      NavState(isScrolled, isMobileMenuOpen, scrolledTo)
    }

    /** Mounting: not scrolled, menu closed, no scroll requested. */
    constructor ()
      ensures State() == Initial
    {
      isScrolled := false;
      isMobileMenuOpen := false;
      scrolledTo := [];
    }

    /** `handleScroll`: the flag becomes `scrollY > 100`; nothing else changes. */
    method HandleScroll(scrollY: real)
      modifies this
      ensures isScrolled == (scrollY > ScrollThreshold)
      ensures isMobileMenuOpen == old(isMobileMenuOpen) && scrolledTo == old(scrolledTo)
      ensures forall ids :: State() == Apply(old(State()), Scroll(scrollY), ids)
    {
      isScrolled := scrollY > ScrollThreshold;
    }

    /** The mobile menu button flips the menu. */
    method ToggleMobileMenu()
      modifies this
      ensures isMobileMenuOpen == !old(isMobileMenuOpen)
      ensures isScrolled == old(isScrolled) && scrolledTo == old(scrolledTo)
      ensures forall ids :: State() == Apply(old(State()), MenuButton, ids)
    {
      isMobileMenuOpen := !isMobileMenuOpen;
    }

    /**
     * `handleNavClick`: the default navigation is always prevented, the
     * matching section (if any) is scrolled into view, and the menu closes.
     */
    method HandleNavClick(href: string, ids: set<string>) returns (defaultPrevented: bool)
      modifies this
      ensures defaultPrevented
      ensures !isMobileMenuOpen && isScrolled == old(isScrolled)
      ensures scrolledTo == match QuerySelector(href, ids)
        case Some(id) => old(scrolledTo) + [id]
        case None => old(scrolledTo)
      ensures State() == Apply(old(State()), LinkClick(href), ids)
    {
      defaultPrevented := true;
      var target := QuerySelector(href, ids);
      if target.Some? {
        scrolledTo := scrolledTo + [target.value];
      }
      isMobileMenuOpen := false;
    }
  }
}
