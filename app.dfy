/**
 * The top-level page state: the theme mode and the loader flag, and the
 * values the page derives from them.
 */
module App {
  import Navbar

  const Normal := "normal"
  const UpsideDown := "upside-down"

  /** The updater of the theme toggle: "normal" becomes "upside-down", anything else "normal". */
  function Toggled(prev: string): (next: string)
    ensures next == Normal || next == UpsideDown
    ensures next == UpsideDown <==> prev == Normal
  {
    if prev == Normal then UpsideDown else Normal
  }

  /** Toggling twice from either theme gives that theme back. */
  lemma ToggleTwice(theme: string)
    requires theme == Normal || theme == UpsideDown
    ensures Toggled(Toggled(theme)) == theme
  {}

  /** The theme after n clicks of the toggle. */
  function ToggledTimes(theme: string, n: nat): string
  {
    if n == 0 then theme else Toggled(ToggledTimes(theme, n - 1))
  }

  /** From the initial theme, an odd number of clicks shows the upside-down theme and an even number the normal one. */
  lemma {:induction false} ToggleParity(n: nat)
    ensures ToggledTimes(Normal, n) == (if n % 2 == 0 then Normal else UpsideDown)
  {
    if n > 0 {
      ToggleParity(n - 1);
    }
  }

  /** The properties of the falling-snow background. */
  datatype Snowfall = Snowfall(particleCount: nat, speed: real, wind: real, glowColor: string)

  function SnowfallConfig(theme: string): (s: Snowfall)
    ensures s.particleCount == 150 && s.speed == 1.0
    ensures s.wind == 0.8 <==> theme == UpsideDown
    ensures theme != UpsideDown ==> s.wind == 1.0
    ensures s.glowColor == (if theme == UpsideDown then "rgba(76, 201, 240, 0.2)" else "rgba(229, 9, 20, 0.15)")
  {
    if theme == UpsideDown then Snowfall(150, 1.0, 0.8, "rgba(76, 201, 240, 0.2)")
    else Snowfall(150, 1.0, 1.0, "rgba(229, 9, 20, 0.15)")
  }

  /** The body's overflow style: scrolling is locked exactly while the loader shows. */
  function BodyOverflow(showLoader: bool): (overflow: string)
    ensures overflow == "hidden" <==> showLoader
    ensures !showLoader ==> overflow == ""
  {
    if showLoader then "hidden" else ""
  }

  /** The keys of the page sections, in the order they are rendered. */
  const SectionKeys: seq<string> := ["home", "about", "experience", "skills", "projects", "certifications", "contact"]

  /** Every navigation entry scrolls to a section of the page, and the two orders agree. */
  lemma SectionsMatchNavigation()
    ensures SectionKeys == Navbar.NavLinks
    ensures forall k :: 0 <= k < |Navbar.NavLinks| ==> Navbar.NavLinks[k] in SectionKeys
  {}

  class Page {
    var themeMode: string
    var showLoader: bool

    constructor ()
      ensures themeMode == Normal && showLoader
      ensures Overflow() == "hidden"
    {
      themeMode := Normal;
      showLoader := true;
    }

    /** The value the overflow effect writes for the current state: scrolling is locked exactly while the loader shows. */
    function Overflow(): (overflow: string)
      reads this
      ensures overflow == "hidden" <==> showLoader
    {
      BodyOverflow(showLoader)
    }

    predicate IsUpsideDown()
      reads this
    {
      themeMode == UpsideDown
    }

    /** toggleTheme. */
    method ToggleTheme()
      modifies this`themeMode
      ensures themeMode == Toggled(old(themeMode))
      ensures IsUpsideDown() <==> old(themeMode) == Normal
    {
      themeMode := Toggled(themeMode);
    }

    /** The loader's onFinish: hide the loader for good and unlock scrolling. */
    method FinishLoader()
      modifies this`showLoader
      ensures !showLoader && Overflow() == ""
    {
      showLoader := false;
    }
  }
}
