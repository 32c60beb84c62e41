/** The navigation header: which page section is highlighted as the page
    scrolls, the "scrolled" style flag, and the slide-out menu. */
module Header {

  import opened Optional

  /** The section ids the scroll handler examines, in this order. */
  const Sections: seq<string> :=
    ["#hero", "#about", "#experience", "#education", "#projects", "#skills", "#contact"]

  datatype NavItem = NavItem(href: string, title: string)

  /** The entries of the navigation list, each linking to a section. */
  const NavItems: seq<NavItem> := [
    NavItem("#hero", "Home"), NavItem("#about", "About"),
    NavItem("#experience", "Experience"), NavItem("#education", "Education"),
    NavItem("#projects", "Projects"), NavItem("#skills", "Skills"),
    NavItem("#contact", "Contact")
  ]

  /** The section is examined 100 pixels below the top of the viewport. */
  const ProbeOffset := 100

  /** The point of the page the scroll handler probes for a scroll offset. */
  function ProbeAt(scrollY: int): int {
    scrollY + ProbeOffset
  }

  /** Beyond this scroll offset the header switches to its opaque style. */
  const ScrolledThreshold := 50

  /** A rendered section's `offsetTop` and `offsetHeight`, in whole pixels. */
  datatype Bounds = Bounds(top: int, height: int)

  /** What `document.querySelector` finds for the k-th section id, given the
      page layout: the element's bounds, or None when there is no element. */
  function Lookup(geometry: seq<Option<Bounds>>, k: nat): Option<Bounds> {
    if k < |geometry| then geometry[k] else None
  }

  /** The k-th section is on the page and `probe` lies in its half-open
      span [offsetTop, offsetTop + offsetHeight). */
  predicate Qualifies(geometry: seq<Option<Bounds>>, k: nat, probe: int) {
    match Lookup(geometry, k)
    case None => false
    case Some(b) => b.top <= probe < b.top + b.height
  }

  /** The first section, from index `from` on, that qualifies. */
  function FirstQualifying(geometry: seq<Option<Bounds>>, probe: int, from: nat): (r: Option<nat>)
    requires from <= |Sections|
    ensures r.Some? ==> from <= r.value < |Sections| && Qualifies(geometry, r.value, probe)
    ensures r.Some? ==> forall k :: from <= k < r.value ==> !Qualifies(geometry, k, probe)
    ensures r.None? ==> forall k :: from <= k < |Sections| ==> !Qualifies(geometry, k, probe)
    decreases |Sections| - from
  {
    if from == |Sections| then None
    else if Qualifies(geometry, from, probe) then Some(from)
    else FirstQualifying(geometry, probe, from + 1)
  }

  /** The section highlighted after a scroll to `scrollY`: the first qualifying
      section in list order, or, when none qualifies, the one highlighted before. */
  function ActiveAfterScroll(scrollY: int, geometry: seq<Option<Bounds>>, previous: string): (r: string)
    ensures r in Sections || r == previous
    ensures forall k :: 0 <= k < |Sections| && Qualifies(geometry, k, ProbeAt(scrollY))
                        && (forall j :: 0 <= j < k ==> !Qualifies(geometry, j, ProbeAt(scrollY)))
                        ==> r == Sections[k]
    ensures (forall k :: 0 <= k < |Sections| ==> !Qualifies(geometry, k, ProbeAt(scrollY)))
            ==> r == previous
  {
    match FirstQualifying(geometry, ProbeAt(scrollY), 0)
    case Some(k) => Sections[k]
    case None => previous
  }

  /** Sections after the chosen one are never examined: changing their layout
      does not change the outcome. */
  lemma {:induction false} LaterSectionsIrrelevant(scrollY: int, g1: seq<Option<Bounds>>, g2: seq<Option<Bounds>>,
                                                 k: nat, previous: string)
    requires k < |Sections| && Qualifies(g1, k, ProbeAt(scrollY))
    requires forall j :: 0 <= j <= k ==> Lookup(g1, j) == Lookup(g2, j)
    ensures ActiveAfterScroll(scrollY, g1, previous) == ActiveAfterScroll(scrollY, g2, previous)
  {
    var p := ProbeAt(scrollY);
    var r1 := FirstQualifying(g1, p, 0);
    var r2 := FirstQualifying(g2, p, 0);
    assert Qualifies(g2, k, p);
    assert forall j :: 0 <= j <= k ==> (Qualifies(g1, j, p) <==> Qualifies(g2, j, p));
    assert r1.Some? && r2.Some?;
    assert r1.value <= k && r2.value <= k;
    assert r1.value == r2.value;
  }

  /** At the top of the page the first section is highlighted; at 750 pixels
      the probe has passed the end of the first section and lands in the second. */
  lemma ScrollExamples(g: seq<Option<Bounds>>, previous: string)
    requires |g| >= 2 && g[0] == Some(Bounds(0, 800)) && g[1] == Some(Bounds(800, 800))
    ensures ActiveAfterScroll(0, g, previous) == "#hero"
    ensures ActiveAfterScroll(750, g, previous) == "#about"
  {
    assert Qualifies(g, 0, ProbeAt(0));
    assert !Qualifies(g, 0, ProbeAt(750)) && Qualifies(g, 1, ProbeAt(750));
  }

  /** Every navigation entry links to the section at the same position. */
  lemma NavItemsFollowSections()
    ensures |NavItems| == |Sections|
    ensures forall i :: 0 <= i < |NavItems| ==> NavItems[i].href == Sections[i]
  {
  }

  /** No two sections share an id. */
  lemma SectionsDistinct()
    ensures forall i, j :: 0 <= i < j < |Sections| ==> Sections[i] != Sections[j]
  {
  }

  /** The `isActive` flag of each navigation entry for a highlighted section:
      at most one entry is active, and one is exactly when the highlighted
      section is one of the page's sections. */
  function ActiveFlags(activeSection: string): (r: seq<bool>)
    ensures |r| == |NavItems|
    ensures forall i :: 0 <= i < |r| ==> (r[i] <==> activeSection == NavItems[i].href)
    ensures forall i, j :: 0 <= i < |r| && 0 <= j < |r| && r[i] && r[j] ==> i == j
    ensures (exists i :: 0 <= i < |r| && r[i]) <==> activeSection in Sections
  {
    NavItemsFollowSections();
    SectionsDistinct();
    var r := seq(|NavItems|, i requires 0 <= i < |NavItems| => activeSection == NavItems[i].href);
    assert activeSection in Sections ==> exists i :: 0 <= i < |r| && r[i] by {
      if activeSection in Sections {
        var i :| 0 <= i < |Sections| && Sections[i] == activeSection;
        assert r[i];
      }
    }
    r
  }

  /** The header component's state. */
  class NavState {
    var isOpen: bool
    var scrolled: bool
    var activeSection: string

    constructor ()
      ensures !isOpen && !scrolled && activeSection == "#hero"
    {
      isOpen := false;
      scrolled := false;
      activeSection := "#hero";
    }

    /** `handleScroll`: sets the style flag, then walks the sections in order
        and highlights the first one the probe falls in, if any. */
    method HandleScroll(scrollY: int, geometry: seq<Option<Bounds>>)
      modifies this`scrolled, this`activeSection
      ensures scrolled <==> scrollY > ScrolledThreshold
      ensures activeSection == ActiveAfterScroll(scrollY, geometry, old(activeSection))
    {
      scrolled := scrollY > ScrolledThreshold;
      var scrollPosition := scrollY + ProbeOffset;
      for i := 0 to |Sections|
        invariant activeSection == old(activeSection)
        invariant forall k :: 0 <= k < i ==> !Qualifies(geometry, k, scrollPosition)
      {
        var element := Lookup(geometry, i);
        if element.Some? {
          var offsetTop := element.value.top;
          var offsetHeight := element.value.height;
          if scrollPosition >= offsetTop && scrollPosition < offsetTop + offsetHeight {
            activeSection := Sections[i];
            break;
          }
        }
      }
    }

    /** `handleNavClick`: closes the menu and highlights the clicked entry's
        section straight away. */
    method HandleNavClick(href: string)
      modifies this`isOpen, this`activeSection
      ensures !isOpen && activeSection == href
    {
      isOpen := false;
      activeSection := href;
    }

    /** The hamburger button. */
    method ToggleMenu()
      modifies this`isOpen
      ensures isOpen == !old(isOpen)
    {
      isOpen := !isOpen;
    }

    /** The overlay and the close button. */
    method CloseMenu()
      modifies this`isOpen
      ensures !isOpen
    {
      isOpen := false;
    }

    /** `activeSection === item.href` for each navigation entry. */
    function IsActive(href: string): bool
      reads this
    {
      activeSection == href
    }
  }

}
