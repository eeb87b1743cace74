/**
 * The derived state of the site's navigation bar: the width breakpoints, the
 * grid and scale table, the labels and links built from the section slugs,
 * and the menu and scroll flags.
 */
module Navbar {
  import GooeyParticles
  import GooeyNav

  /** The section slugs, in page order. */
  const NavLinks: seq<string> := ["home", "about", "experience", "skills", "projects", "certifications", "contact"]

  // ----- breakpoints -----------------------------------------------------------

  predicate IsMobile(width: int) { width < 1100 }
  predicate IsTablet(width: int) { 1100 <= width < 1280 }
  predicate IsDesktop(width: int) { width >= 1280 }

  datatype Breakpoint = Mobile | Tablet | Desktop

  /** The breakpoint a window width falls in. */
  function Classify(width: int): (b: Breakpoint)
    ensures b == Mobile <==> IsMobile(width)
    ensures b == Tablet <==> IsTablet(width)
    ensures b == Desktop <==> IsDesktop(width)
  {
    if width < 1100 then Mobile else if width < 1280 then Tablet else Desktop
  }

  /** Every width is in exactly one of the three ranges. */
  lemma ExactlyOneBreakpoint(width: int)
    ensures IsMobile(width) || IsTablet(width) || IsDesktop(width)
    ensures !(IsMobile(width) && IsTablet(width))
    ensures !(IsMobile(width) && IsDesktop(width))
    ensures !(IsTablet(width) && IsDesktop(width))
  {}

  // ----- the grid table ----------------------------------------------------------

  /** The inline grid style of the bar and the scale handed to the animated navigation. */
  datatype GridConfig = GridConfig(gridTemplate: string, gap: string, padding: string, navScale: real, fontSize: string)

  /** A template with equal side columns of `px` pixels around a flexible centre. */
  function Columns(px: string): string
  {
    px + "px 1fr " + px + "px"
  }

  /** getGridConfig: tablets shrink the animated navigation to 0.88; the side columns grow with the width. */
  function GetGridConfig(width: int): (g: GridConfig)
    ensures g.navScale == 0.88 <==> IsTablet(width)
    ensures !IsTablet(width) ==> g.navScale == 1.0
    ensures g.gridTemplate == Columns(if IsMobile(width) then "85" else if IsTablet(width) then "110" else "150")
  {
    if IsMobile(width) then GridConfig("85px 1fr 85px", "4px", "8px 8px", 1.0, "0.58rem")
    else if IsTablet(width) then GridConfig("110px 1fr 110px", "14px", "10px 18px", 0.88, "0.63rem")
    else GridConfig("150px 1fr 150px", "18px", "12px 24px", 1.0, "0.68rem")
  }

  /**
   * The scale the bar hands to the animated navigation is never 0, so the
   * highlight box divides by that scale itself and never by the fallback.
   */
  lemma NavScaleUsedAsIs(width: int)
    ensures GooeyNav.ScaleFactor(GetGridConfig(width).navScale) == GetGridConfig(width).navScale
    ensures 0.88 <= GetGridConfig(width).navScale <= 1.0
  {}

  // ----- labels --------------------------------------------------------------------

  /** `s.split(sep)`: the pieces between separators; an empty string is one empty piece. */
  function Split(s: string, sep: char): (pieces: seq<string>)
    ensures |pieces| >= 1
    ensures forall k :: 0 <= k < |pieces| ==> sep !in pieces[k]
  {
    if s == [] then [[]]
    else
      var rest := Split(s[1..], sep);
      if s[0] == sep then [[]] + rest else [[s[0]] + rest[0]] + rest[1..]
  }

  /** `pieces.join(sep)`. */
  function Join(pieces: seq<string>, sep: char): string
  {
    if |pieces| == 0 then []
    else if |pieces| == 1 then pieces[0]
    else pieces[0] + [sep] + Join(pieces[1..], sep)
  }

  /** Joining the pieces of a split with the same separator gives the string back. */
  lemma {:induction false} JoinSplit(s: string, sep: char)
    ensures Join(Split(s, sep), sep) == s
  {
    if s != [] {
      var rest := Split(s[1..], sep);
      JoinSplit(s[1..], sep);
      if s[0] == sep {
        assert ([[]] + rest)[1..] == rest;
      } else {
        var pieces := [[s[0]] + rest[0]] + rest[1..];
        if |rest| > 1 {
          assert pieces[1..] == rest[1..];
          assert Join(rest, sep) == rest[0] + [sep] + Join(rest[1..], sep);
        }
      }
    }
  }

  /** A string with no separator in it splits into itself. */
  lemma {:induction false} SplitNoSeparator(s: string, sep: char)
    requires sep !in s
    ensures Split(s, sep) == [s]
  {
    if s != [] {
      assert sep !in s[1..] by {
        forall k | 0 <= k < |s[1..]| ensures s[1..][k] != sep { assert s[1..][k] == s[k + 1]; }
      }
      SplitNoSeparator(s[1..], sep);
      assert [s[0]] + s[1..] == s;
    }
  }

  lemma {:induction false} SplitAtSeparator(a: string, sep: char, t: string)
    requires sep !in a
    ensures Split(a + [sep] + t, sep) == [a] + Split(t, sep)
  {
    if a == [] {
      assert a + [sep] + t == [sep] + t;
      assert ([sep] + t)[1..] == t;
    } else {
      var s := a + [sep] + t;
      assert s[0] == a[0] && s[0] != sep;
      assert s[1..] == a[1..] + [sep] + t;
      assert sep !in a[1..] by {
        forall k | 0 <= k < |a[1..]| ensures a[1..][k] != sep { assert a[1..][k] == a[k + 1]; }
      }
      SplitAtSeparator(a[1..], sep, t);
      var rest := Split(s[1..], sep);
      assert rest == [a[1..]] + Split(t, sep);
      assert rest[0] == a[1..] && rest[1..] == Split(t, sep);
      assert [a[0]] + a[1..] == a;
    }
  }

  /** Splitting a join of separator-free pieces gives the pieces back. */
  lemma {:induction false} SplitJoin(pieces: seq<string>, sep: char)
    requires |pieces| >= 1
    requires forall k :: 0 <= k < |pieces| ==> sep !in pieces[k]
    ensures Split(Join(pieces, sep), sep) == pieces
  {
    if |pieces| == 1 {
      SplitNoSeparator(pieces[0], sep);
    } else {
      SplitJoin(pieces[1..], sep);
      SplitAtSeparator(pieces[0], sep, Join(pieces[1..], sep));
      assert [pieces[0]] + pieces[1..] == pieces;
    }
  }

  /** toUpperCase, for ASCII letters. */
  function Upper(c: char): char
  {
    if 'a' <= c <= 'z' then (c as int - 'a' as int + 'A' as int) as char else c
  }

  /** toLowerCase, for ASCII letters. */
  function Lower(c: char): char
  {
    if 'A' <= c <= 'Z' then (c as int - 'A' as int + 'a' as int) as char else c
  }

  /** `segment.charAt(0).toUpperCase() + segment.slice(1)`. */
  function Capitalize(segment: string): (r: string)
    ensures |r| == |segment|
    ensures segment != [] ==> r[0] == Upper(segment[0]) && r[1..] == segment[1..]
  {
    if segment == [] then [] else [Upper(segment[0])] + segment[1..]
  }

  function CapitalizeAll(segments: seq<string>): (r: seq<string>)
    ensures |r| == |segments|
    ensures forall k :: 0 <= k < |segments| ==> r[k] == Capitalize(segments[k])
  {
    if segments == [] then [] else [Capitalize(segments[0])] + CapitalizeAll(segments[1..])
  }

  /** The label of a slug: its dash-separated segments, capitalized, joined by spaces; it is as long as the slug. */
  function Label(slug: string): (text: string)
    ensures |text| == |slug|
  {
    var segments := Split(slug, '-');
    JoinLength(CapitalizeAll(segments), segments, ' ', '-');
    JoinSplit(slug, '-');
    Join(CapitalizeAll(segments), ' ')
  }

  lemma {:induction false} JoinLength(a: seq<string>, b: seq<string>, x: char, y: char)
    requires |a| == |b|
    requires forall k :: 0 <= k < |a| ==> |a[k]| == |b[k]|
    ensures |Join(a, x)| == |Join(b, y)|
  {
    if |a| > 1 {
      JoinLength(a[1..], b[1..], x, y);
    }
  }

  /** A slug character: a lower-case ASCII letter or a dash. */
  predicate IsSlugChar(c: char) { 'a' <= c <= 'z' || c == '-' }

  predicate IsSlug(s: string) { forall k :: 0 <= k < |s| ==> IsSlugChar(s[k]) }

  /** The slug a label came from: spaces back to dashes, letters back to lower case. */
  function Unlabel(text: string): (s: string)
    ensures |s| == |text|
    ensures forall k :: 0 <= k < |text| ==> s[k] == (if text[k] == ' ' then '-' else Lower(text[k]))
  {
    if text == [] then [] else [if text[0] == ' ' then '-' else Lower(text[0])] + Unlabel(text[1..])
  }

  lemma {:induction false} UnlabelConcat(a: string, b: string)
    ensures Unlabel(a + b) == Unlabel(a) + Unlabel(b)
  {
    if a == [] {
      assert a + b == b;
    } else {
      assert (a + b)[1..] == a[1..] + b;
      UnlabelConcat(a[1..], b);
    }
  }

  /** Unlabel a spaced join of pieces: the dashed join of the unlabelled pieces. */
  lemma {:induction false} UnlabelJoin(pieces: seq<string>, original: seq<string>)
    requires |pieces| == |original|
    requires forall k :: 0 <= k < |pieces| ==> Unlabel(pieces[k]) == original[k]
    ensures Unlabel(Join(pieces, ' ')) == Join(original, '-')
  {
    if |pieces| > 1 {
      UnlabelJoin(pieces[1..], original[1..]);
      UnlabelConcat(pieces[0] + [' '], Join(pieces[1..], ' '));
      UnlabelConcat(pieces[0], [' ']);
    }
  }

  /** A capitalized segment of a slug unlabels to the segment. */
  lemma UnlabelCapitalize(segment: string)
    requires forall k :: 0 <= k < |segment| ==> 'a' <= segment[k] <= 'z'
    ensures Unlabel(Capitalize(segment)) == segment
  {
    var r := Unlabel(Capitalize(segment));
    forall k | 0 <= k < |segment| ensures r[k] == segment[k] {
      if k > 0 { assert Capitalize(segment)[k] == segment[1..][k - 1]; }
    }
  }

  /** The segments of a slug consist of lower-case letters. */
  lemma {:induction false} SplitSlugLetters(s: string)
    requires IsSlug(s)
    ensures forall k, j :: 0 <= k < |Split(s, '-')| && 0 <= j < |Split(s, '-')[k]| ==>
      'a' <= Split(s, '-')[k][j] <= 'z'
  {
    if s != [] {
      assert IsSlug(s[1..]) by {
        forall k | 0 <= k < |s[1..]| ensures IsSlugChar(s[1..][k]) { assert s[1..][k] == s[k + 1]; }
      }
      SplitSlugLetters(s[1..]);
      assert IsSlugChar(s[0]);
    }
  }

  /** A slug can be recovered from its label, so distinct slugs have distinct labels. */
  lemma LabelRoundTrip(slug: string)
    requires IsSlug(slug)
    ensures Unlabel(Label(slug)) == slug
  {
    var segments := Split(slug, '-');
    SplitSlugLetters(slug);
    forall k | 0 <= k < |segments| ensures Unlabel(CapitalizeAll(segments)[k]) == segments[k] {
      UnlabelCapitalize(segments[k]);
    }
    UnlabelJoin(CapitalizeAll(segments), segments);
    JoinSplit(slug, '-');
  }

  lemma LabelInjective(a: string, b: string)
    requires IsSlug(a) && IsSlug(b) && Label(a) == Label(b)
    ensures a == b
  {
    LabelRoundTrip(a);
    LabelRoundTrip(b);
  }

  /** The words of a label are the capitalized segments of the slug. */
  lemma LabelWords(slug: string)
    requires IsSlug(slug)
    ensures Split(Label(slug), ' ') == CapitalizeAll(Split(slug, '-'))
  {
    var words := CapitalizeAll(Split(slug, '-'));
    SplitSlugLetters(slug);
    forall k | 0 <= k < |words| ensures ' ' !in words[k] {
      var seg := Split(slug, '-')[k];
      forall j | 0 <= j < |words[k]| ensures words[k][j] != ' ' {
        if j > 0 { assert words[k][j] == seg[1..][j - 1] == seg[j]; }
      }
    }
    SplitJoin(words, ' ');
  }

  /** A slug without a dash is labelled by capitalizing it. */
  lemma LabelOfWord(slug: string)
    requires '-' !in slug
    ensures Label(slug) == Capitalize(slug)
  {
    SplitNoSeparator(slug, '-');
    assert CapitalizeAll([slug]) == [Capitalize(slug)];
  }

  // ----- the navigation items ---------------------------------------------------------

  /** One navigation entry: its label, its link, and the section its onSelect scrolls to. */
  datatype NavItem = NavItem(text: string, href: string, target: string)

  /**
   * The entry of one slug: the link is the fragment of the section the entry
   * scrolls to, and the label gives the slug back when it is a slug.
   */
  function MakeItem(slug: string): (item: NavItem)
    ensures item.target == slug && item.href == "#" + item.target
    ensures |item.text| == |slug|
    ensures IsSlug(slug) ==> Unlabel(item.text) == slug
  {
    var text := Label(slug);
    assert IsSlug(slug) ==> Unlabel(text) == slug by {
      if IsSlug(slug) { LabelRoundTrip(slug); }
    }
    NavItem(text, "#" + slug, slug)
  }

  /** navItems: one entry per slug, in the same order. */
  function NavItems(links: seq<string>): (items: seq<NavItem>)
    ensures |items| == |links|
    ensures forall k :: 0 <= k < |links| ==> items[k] == MakeItem(links[k])
  {
    if links == [] then [] else [MakeItem(links[0])] + NavItems(links[1..])
  }

  /**
   * Each entry links to `#` followed by its slug, scrolls to that slug, and
   * is labelled with something as long as the slug; entries of distinct slugs
   * carry distinct labels.
   */
  lemma NavItemsFaithful(links: seq<string>)
    requires forall k :: 0 <= k < |links| ==> IsSlug(links[k])
    ensures forall k :: 0 <= k < |links| ==>
      && NavItems(links)[k].href[0] == '#' && NavItems(links)[k].href[1..] == links[k]
      && NavItems(links)[k].target == links[k]
      && |NavItems(links)[k].text| == |links[k]|
    ensures forall i, j :: 0 <= i < j < |links| && links[i] != links[j] ==>
      NavItems(links)[i].text != NavItems(links)[j].text
  {
    forall i, j | 0 <= i < j < |links| && links[i] != links[j]
      ensures NavItems(links)[i].text != NavItems(links)[j].text
    {
      if NavItems(links)[i].text == NavItems(links)[j].text {
        LabelInjective(links[i], links[j]);
      }
    }
  }

  /** The bar's own slugs are slugs and pairwise distinct. */
  lemma NavLinksAreSlugs()
    ensures forall k :: 0 <= k < |NavLinks| ==> IsSlug(NavLinks[k])
    ensures forall i, j :: 0 <= i < j < |NavLinks| ==> NavLinks[i] != NavLinks[j]
  {
    var lengths := [4, 5, 10, 6, 8, 14, 7];
    assert forall k :: 0 <= k < 7 ==> |NavLinks[k]| == lengths[k];
  }

  /** So the bar's entries carry distinct labels, which serve as their keys. */
  lemma NavLabelsDistinct()
    ensures |NavItems(NavLinks)| == 7
    ensures forall i, j :: 0 <= i < j < |NavLinks| ==> NavItems(NavLinks)[i].text != NavItems(NavLinks)[j].text
  {
    NavLinksAreSlugs();
    NavItemsFaithful(NavLinks);
  }

  // ----- the burst the bar configures -------------------------------------------------

  /** The properties the bar passes to its animated navigation. */
  const NavbarConfig := GooeyParticles.Config(600.0, 14, 80.0, 10.0, 95.0, 280.0)

  /**
   * With the bar's properties a burst is 14 spawn timers from 30 to 186 ms,
   * particles living between 920 and 1480 ms, and the glow off at 1600 ms.
   */
  lemma NavbarBurst(draws: seq<GooeyParticles.Draws>, firstId: nat, i: nat)
    requires |draws| == 14 && GooeyParticles.AllValid(draws) && i < 14
    ensures var b := GooeyParticles.Burst(NavbarConfig, draws, firstId);
      && |b| == 15
      && b[0].delay == 30.0 && b[13].delay == 186.0
      && b[14].delay == 1600.0 && b[14].action.GlowOff?
      && b[i].action.Spawn? && 920.0 <= b[i].action.particle.time <= 1480.0
  {
    GooeyParticles.BurstShape(NavbarConfig, draws, firstId);
    GooeyParticles.BurstLifetimes(NavbarConfig, draws, firstId, i);
  }

  // ----- the bar's state ----------------------------------------------------------------

  /** The threshold of the scroll handler: the bar is compact once scrolled past 24 px. */
  predicate IsScrolled(scrollY: real)
  {
    scrollY > 24.0
  }

  /**
   * Scrolling further down never undoes the compact state, and exactly 24 px
   * is not yet past the threshold.
   */
  lemma ScrolledMonotone(scrollY: real, further: real)
    requires scrollY <= further
    ensures IsScrolled(scrollY) ==> IsScrolled(further)
    ensures !IsScrolled(24.0) && IsScrolled(25.0)
  {}

  class Bar {
    var scrolled: bool
    var menuOpen: bool
    var width: int
    /** the sections scrollToId was asked for, in order */
    var scrollRequests: seq<string>

    constructor (width: int)
      ensures !scrolled && !menuOpen && this.width == width && scrollRequests == []
    {
      scrolled := false;
      menuOpen := false;
      this.width := width;
      scrollRequests := [];
    }

    /** The mobile overlay is shown only while the menu is open on a mobile width. */
    function OverlayVisible(): (visible: bool)
      reads this
      ensures visible <==> menuOpen && Classify(width) == Mobile
    {
      menuOpen && IsMobile(width)
    }

    /** The animated navigation is shown on tablet and desktop widths. */
    function GooeyVisible(): (visible: bool)
      reads this
      ensures visible <==> Classify(width) in {Tablet, Desktop}
    {
      !IsMobile(width)
    }

    method OnScroll(scrollY: real)
      modifies this`scrolled
      ensures scrolled <==> scrollY > 24.0
    {
      scrolled := scrollY > 24.0;
    }

    method OnResize(newWidth: int)
      modifies this`width
      ensures width == newWidth
    {
      width := newWidth;
    }

    method ToggleMenu()
      modifies this`menuOpen
      ensures menuOpen == !old(menuOpen)
    {
      menuOpen := !menuOpen;
    }

    method CloseMenu()
      modifies this`menuOpen
      ensures !menuOpen
    {
      menuOpen := false;
    }

    /** An item's onSelect: scroll to its section, then close the menu. */
    method Select(item: NavItem)
      modifies this`menuOpen, this`scrollRequests
      ensures !menuOpen && !OverlayVisible()
      ensures scrollRequests == old(scrollRequests) + [item.target]
    {
      scrollRequests := scrollRequests + [item.target];
      CloseMenu();
    }
  }

  /** The overlay and the animated navigation are never shown together, and at every width one navigation is reachable. */
  lemma OverlayExcludesGooey(bar: Bar)
    ensures !(bar.OverlayVisible() && bar.GooeyVisible())
    ensures bar.GooeyVisible() <==> !IsMobile(bar.width)
    ensures bar.OverlayVisible() <==> bar.menuOpen && IsMobile(bar.width)
  {}
}
