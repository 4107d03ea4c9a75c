/** The page header's reaction to scrolling: blur past half the hero's
    height, with a hysteresis band, and hide while scrolling down. */
module HeaderScroll {

  datatype Option<T> = None | Some(value: T)

  /** Half-width of the hysteresis band around half the hero's height. */
  const Buffer: real := 10.0
  /** At or above this offset from the top the header is always shown. */
  const ShowZone: real := 100.0

  /** `filter(Boolean)` over the probed sections: the heights of those present. */
  function PresentHeights(heroes: seq<Option<nat>>): (r: seq<nat>)
    ensures |r| <= |heroes|
    ensures forall v :: v in r <==> Some(v) in heroes
  {
    if heroes == [] then []
    else
      var rest := PresentHeights(heroes[1..]);
      assert heroes == [heroes[0]] + heroes[1..];
      (if heroes[0].Some? then [heroes[0].value] else []) + rest
  }

  /** The height of the first present hero section, or 0 when none is. */
  function HeroHeight(heroes: seq<Option<nat>>): (h: nat) {
    var present := PresentHeights(heroes);
    if |present| > 0 then present[0] else 0
  }

  /** The hero height is that of the first section probed that exists. */
  lemma {:induction false} HeroHeightIsFirstPresent(heroes: seq<Option<nat>>, i: nat)
    requires i < |heroes| && heroes[i].Some?
    requires forall j | 0 <= j < i :: heroes[j].None?
    ensures HeroHeight(heroes) == heroes[i].value
  {
    if i == 0 {
      assert PresentHeights(heroes) == [heroes[0].value] + PresentHeights(heroes[1..]);
    } else {
      var tail := heroes[1..];
      assert heroes[0].None?;
      assert PresentHeights(heroes) == PresentHeights(tail);
      HeroHeightIsFirstPresent(tail, i - 1);
    }
  }

  /** With no hero section on the page, the hero height is 0. */
  lemma {:induction false} HeroHeightNoneIsZero(heroes: seq<Option<nat>>)
    requires forall j | 0 <= j < |heroes| :: heroes[j].None?
    ensures HeroHeight(heroes) == 0
  {
    NoneFiltered(heroes);
  }

  lemma {:induction false} NoneFiltered(heroes: seq<Option<nat>>)
    requires forall j | 0 <= j < |heroes| :: heroes[j].None?
    ensures PresentHeights(heroes) == []
  {
    if heroes != [] {
      NoneFiltered(heroes[1..]);
    }
  }

  /** The header's classes and the last scroll offset seen. */
  class Header {
    var blurred: bool   // header-blurred
    var hidden: bool    // header-hidden
    var visible: bool   // header-visible
    var lastScrollTop: real

    constructor (blurred: bool, hidden: bool, visible: bool)
      ensures this.blurred == blurred && this.hidden == hidden && this.visible == visible
      ensures lastScrollTop == 0.0
    {
      this.blurred, this.hidden, this.visible := blurred, hidden, visible;
      lastScrollTop := 0.0;
    }

    /** `handleScroll` for the scroll offset `scrollTop`, where `heroes[i]` is
        the height of the i-th hero section probed, or None when it is not
        on the page. The sections are probed in the order `.hero`, `.hero2`,
        `.who-we-are-hero`, `.ganga-hero`, `.upcoming-expeditions-section`,
        `.connect-split-hero`. */
    method HandleScroll(scrollTop: real, heroes: seq<Option<nat>>)
      modifies this
      // the last offset seen is never negative
      ensures lastScrollTop >= 0.0
      // blur, with hysteresis around half the hero height
      ensures var half := HeroHeight(heroes) as real / 2.0;
        (scrollTop > half + Buffer ==> blurred) &&
        (scrollTop < half - Buffer ==> !blurred) &&
        (half - Buffer <= scrollTop <= half + Buffer ==> blurred == old(blurred))
      // hide and show
      ensures scrollTop <= ShowZone ==> visible && !hidden
      ensures scrollTop > ShowZone && scrollTop > old(lastScrollTop) ==> hidden && !visible
      ensures scrollTop > ShowZone && scrollTop < old(lastScrollTop) ==> visible && !hidden
      ensures scrollTop > ShowZone && scrollTop == old(lastScrollTop) ==>
        hidden == old(hidden) && visible == old(visible)
      ensures lastScrollTop == if scrollTop <= 0.0 then 0.0 else scrollTop
    {
      var present := PresentHeights(heroes);
      var heroHeight: nat := 0;
      if |present| > 0 {
        heroHeight := present[0];
      }
      var halfHeroHeight := heroHeight as real / 2.0;

      if scrollTop > halfHeroHeight + Buffer {
        if !blurred {
          blurred := true;
        }
      } else if scrollTop < halfHeroHeight - Buffer {
        if blurred {
          blurred := false;
        }
      }

      if scrollTop <= ShowZone {
        hidden := false;
        visible := true;
      } else {
        if scrollTop > lastScrollTop {
          hidden := true;
          visible := false;
        } else if scrollTop < lastScrollTop {
          hidden := false;
          visible := true;
        }
      }

      lastScrollTop := if scrollTop <= 0.0 then 0.0 else scrollTop;
    }
  }
}
