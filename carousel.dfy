/**
 * The index rules every carousel and pager on the sites is built from.
 *
 * Two families recur. The slide carousels (schedule workshop carousels,
 * desktop and mobile; the STEAM video carousel) clamp their index into
 * [0, n-1] and never wrap on a button press. The rotating wheels (the
 * Glitch Lab artist carousel, the FEE Hub testimonial wheel) wrap modulo n
 * and style every item by its position relative to the current one, with
 * three or four opacity tiers.
 *
 * `SlideCarousel` is the closure state of `initializeCarousel` in
 * d4pg/d4pg-schedule/js/main.js, which the mobile schedule repeats.
 */
module Carousel {
  import opened Wrappers
  import opened Strings

  function Min(a: int, b: int): int { if a <= b then a else b }
  function Max(a: int, b: int): int { if a >= b then a else b }
  function Abs(a: int): nat { if a < 0 then -a else a }

  /** `Math.max(0, Math.min(i, n - 1))` */
  function Clamp(i: int, n: int): (r: int)
    ensures 0 <= r
    ensures n >= 1 ==> r < n
    ensures 0 <= i < n ==> r == i
    ensures n >= 1 && i >= n ==> r == n - 1
    ensures i < 0 || n < 1 ==> r == 0
  {
    Max(0, Min(i, n - 1))
  }

  /** JavaScript's `a % b` on integers, whose result takes the sign of `a`. */
  function JsRem(a: int, b: int): (r: int)
    requires b > 0
    ensures a >= 0 ==> 0 <= r < b
    ensures a < 0 ==> -b < r <= 0
    ensures -b < a < b ==> r == a
  {
    if 0 <= a < b || -b < a < 0 then a
    else if a >= 0 then a % b
    else -((-a) % b)
  }

  /** `(i + 1) % n`, the wheels' `next()` */
  function WrapNext(i: int, n: int): (r: int)
    requires n > 0
    ensures -1 <= i ==> 0 <= r < n
    ensures -1 <= i < n - 1 ==> r == i + 1
  {
    JsRem(i + 1, n)
  }

  /** `(i - 1 + n) % n`, the wheels' `prev()` */
  function WrapPrev(i: int, n: int): (r: int)
    requires n > 0
    ensures 1 - n <= i ==> 0 <= r < n
    ensures 1 - n <= i <= 0 ==> r == i - 1 + n
  {
    JsRem(i - 1 + n, n)
  }

  /**
   * From an index in range, next and prev stay in range: next moves one
   * forward and wraps from the last item to 0, prev moves one back and wraps
   * from 0 to the last item.
   */
  lemma WrapInRange(i: int, n: int)
    requires 0 <= i < n
    ensures WrapNext(i, n) == if i == n - 1 then 0 else i + 1
    ensures WrapPrev(i, n) == if i == 0 then n - 1 else i - 1
    ensures 0 <= WrapNext(i, n) < n && 0 <= WrapPrev(i, n) < n
  {
    if i == n - 1 {
      assert JsRem(n, n) == 0 by { assert n % n == 0; }
    }
    if i != 0 {
      assert JsRem(i - 1 + n, n) == i - 1 by { assert (i - 1 + n) % n == i - 1; }
    }
  }

  /** Prev undoes next and next undoes prev. */
  lemma WrapInverse(i: int, n: int)
    requires 0 <= i < n
    ensures WrapPrev(WrapNext(i, n), n) == i
    ensures WrapNext(WrapPrev(i, n), n) == i
  {
    WrapInRange(i, n);
    WrapInRange(WrapNext(i, n), n);
    WrapInRange(WrapPrev(i, n), n);
  }

  /** `k` presses of next. */
  function NextTimes(i: int, n: int, k: nat): int
    requires n > 0
  {
    if k == 0 then i else WrapNext(NextTimes(i, n, k - 1), n)
  }

  /**
   * Up to a full turn, `k` presses of next from `i` land on `i + k`, or on
   * `i + k - n` once they pass the last item.
   */
  lemma {:induction false} NextTimesSteps(i: int, n: int, k: nat)
    requires 0 <= i < n && k <= n
    ensures NextTimes(i, n, k) == if i + k < n then i + k else i + k - n
  {
    if k > 0 {
      NextTimesSteps(i, n, k - 1);
      WrapInRange(NextTimes(i, n, k - 1), n);
    }
  }

  /** `n` presses of next are a full turn back to the start. */
  lemma FullTurn(i: int, n: int)
    requires 0 <= i < n
    ensures NextTimes(i, n, n) == i
    ensures forall k: nat :: 0 < k < n ==> NextTimes(i, n, k) != i
  {
    NextTimesSteps(i, n, n);
    forall k: nat | 0 < k < n ensures NextTimes(i, n, k) != i {
      NextTimesSteps(i, n, k);
    }
  }

  // ------------------------------------------------- indicators

  /** Indicator `j` is active iff `j` is the current index. */
  function Indicators(n: nat, current: int): (r: seq<bool>)
    ensures |r| == n
  {
    seq(n, j requires 0 <= j < n => j == current)
  }

  /** With the current index in range, exactly one indicator is active, the current one. */
  lemma ExactlyOneIndicator(n: nat, current: int)
    requires 0 <= current < n
    ensures Indicators(n, current)[current]
    ensures forall j, k :: 0 <= j < k < n ==> !(Indicators(n, current)[j] && Indicators(n, current)[k])
  {
  }

  // ------------------------------------------- relative positions

  datatype Side = Active | Left | Right

  /**
   * How the wheels draw one item: its class, its z-index, and its opacity
   * as a fixed-point percentage (100 = 1, 70 = 0.7, ...).
   */
  datatype ItemStyle = ItemStyle(side: Side, zIndex: int, opacityPct: nat)

  /** 'active' at the centre, 'left' before it, 'right' after it. */
  function SideOf(rel: int): (s: Side)
    ensures s == Active <==> rel == 0
    ensures s == Left <==> rel < 0
    ensures s == Right <==> rel > 0
  {
    if rel == 0 then Active else if rel < 0 then Left else Right
  }

  /** Opacity with three tiers: 1, 0.7, 0.4 (artist carousel). */
  function OpacityThreeTier(rel: int): nat {
    if rel == 0 then 100 else if Abs(rel) == 1 then 70 else 40
  }

  /** Opacity with four tiers: 1, 0.7, 0.4, 0.2 (testimonial wheel). */
  function OpacityFourTier(rel: int): nat {
    if rel == 0 then 100 else if Abs(rel) == 1 then 70 else if Abs(rel) == 2 then 40 else 20
  }

  /** The style `updatePositions` gives an item at relative position `rel`. */
  function StyleOf(rel: int, fourTier: bool): ItemStyle {
    ItemStyle(SideOf(rel), 10 - Abs(rel),
              if fourTier then OpacityFourTier(rel) else OpacityThreeTier(rel))
  }

  /** The styles of all `n` items around `current`. */
  function Layout(n: nat, current: int, fourTier: bool): (r: seq<ItemStyle>)
    ensures |r| == n
  {
    seq(n, k requires 0 <= k < n => StyleOf(k - current, fourTier))
  }

  /**
   * Opacity never grows with the distance from the centre, is full only at
   * the centre, and the two tier schemes agree within distance 2.
   */
  lemma OpacityTiers(rel1: int, rel2: int)
    requires Abs(rel1) <= Abs(rel2)
    ensures OpacityThreeTier(rel2) <= OpacityThreeTier(rel1)
    ensures OpacityFourTier(rel2) <= OpacityFourTier(rel1)
    ensures OpacityFourTier(rel1) <= OpacityThreeTier(rel1)
    ensures Abs(rel1) <= 2 ==> OpacityFourTier(rel1) == OpacityThreeTier(rel1)
    ensures OpacityThreeTier(rel1) == 100 <==> rel1 == 0
  {
  }

  /**
   * In a layout around an index in range, exactly the current item is
   * active and on top; items before it are 'left', items after it 'right',
   * and the z-index falls by one per step away from the centre.
   */
  lemma LayoutShape(n: nat, current: int, fourTier: bool, k: int)
    requires 0 <= current < n && 0 <= k < n
    ensures Layout(n, current, fourTier)[k].side == Active <==> k == current
    ensures Layout(n, current, fourTier)[k].side == Left <==> k < current
    ensures Layout(n, current, fourTier)[k].side == Right <==> k > current
    ensures Layout(n, current, fourTier)[k].zIndex <= Layout(n, current, fourTier)[current].zIndex
    ensures Layout(n, current, fourTier)[k].zIndex == 10 - Abs(k - current)
  {
    var l := Layout(n, current, fourTier);
    assert l[k] == StyleOf(k - current, fourTier);
    assert l[current] == StyleOf(0, fourTier);
  }

  // ------------------------------------------------ slide carousel

  /** Text of the "i / n" counter. */
  function CounterText(current: int, total: int): string {
    var tail := " / " + (if total >= 0 then NatToString(total) else "-");
    if current + 1 >= 0 then NatToString(current + 1) + tail
    else "-" + tail
  }

  /**
   * The counter text reads back, as a number, as the 1-based slide
   * position, and ends with the slide count.
   */
  lemma CounterTextReads(current: int, total: nat)
    requires current + 1 >= 0
    ensures ParseInt(CounterText(current, total)) == Some(current + 1)
    ensures var r := CounterText(current, total);
            |r| > |NatToString(total)| && r[|r| - |NatToString(total)|..] == NatToString(total)
  {
    ParseIntPrefix(current + 1, " / " + NatToString(total));
  }

  /**
   * The clamped carousel of `initializeCarousel`: an index, the derived
   * button/indicator/counter state, and the auto-advance pause flag and
   * interval.
   */
  class SlideCarousel {
    const totalSlides: nat
    var currentSlide: int
    var prevDisabled: bool
    var nextDisabled: bool
    var indicators: seq<bool>
    var counter: string
    /** `isPaused` */
    var isPaused: bool
    /** An auto-advance interval is registered (`autoAdvanceInterval` is set). */
    var autoAdvancing: bool

    /** What `updateCarousel` last rendered agrees with `currentSlide`. */
    ghost predicate Rendered()
      reads this
    {
      && prevDisabled == (currentSlide == 0)
      && nextDisabled == (currentSlide == totalSlides - 1)
      && indicators == Indicators(totalSlides, currentSlide)
      && counter == CounterText(currentSlide, totalSlides)
    }

    ghost predicate Valid()
      reads this
    {
      && 0 <= currentSlide < totalSlides
      && Rendered()
      && (isPaused ==> !autoAdvancing)
    }

    /** Set-up: slide 0, rendered, auto-advance started. */
    constructor (total: nat)
      requires total >= 1
      ensures Valid()
      ensures totalSlides == total && currentSlide == 0
      ensures !isPaused && autoAdvancing
    {
      totalSlides := total;
      currentSlide := 0;
      prevDisabled := true;
      nextDisabled := total - 1 == 0;
      indicators := Indicators(total, 0);
      counter := CounterText(0, total);
      isPaused := false;
      autoAdvancing := true;
    }

    /** `updateCarousel()` */
    method UpdateCarousel()
      modifies this`prevDisabled, this`nextDisabled, this`indicators, this`counter
      ensures Rendered()
    {
      indicators := Indicators(totalSlides, currentSlide);
      counter := CounterText(currentSlide, totalSlides);
      prevDisabled := currentSlide == 0;
      nextDisabled := currentSlide == totalSlides - 1;
    }

    /** `goToSlide(i)`: clamp into [0, totalSlides-1], then render. */
    method GoToSlide(i: int)
      requires Valid()
      modifies this`currentSlide, this`prevDisabled, this`nextDisabled, this`indicators, this`counter
      ensures Valid()
      ensures currentSlide == Clamp(i, totalSlides)
    {
      currentSlide := Clamp(i, totalSlides);
      UpdateCarousel();
    }

    /**
     * A click on Prev. A disabled button fires nothing; otherwise the index
     * moves back one and auto-advance pauses until the resume timer fires.
     */
    method PrevClick()
      requires Valid()
      modifies this
      ensures Valid()
      ensures old(currentSlide) == 0 ==> currentSlide == 0 && isPaused == old(isPaused) && autoAdvancing == old(autoAdvancing)
      ensures old(currentSlide) > 0 ==> currentSlide == old(currentSlide) - 1 && isPaused && !autoAdvancing
    {
      if prevDisabled {
        return;
      }
      if currentSlide > 0 {
        GoToSlide(currentSlide - 1);
      }
      Pause();
    }

    /** A click on Next, symmetric to `PrevClick`. */
    method NextClick()
      requires Valid()
      modifies this
      ensures Valid()
      ensures old(currentSlide) == totalSlides - 1 ==> currentSlide == old(currentSlide) && isPaused == old(isPaused) && autoAdvancing == old(autoAdvancing)
      ensures old(currentSlide) < totalSlides - 1 ==> currentSlide == old(currentSlide) + 1 && isPaused && !autoAdvancing
    {
      if nextDisabled {
        return;
      }
      if currentSlide < totalSlides - 1 {
        GoToSlide(currentSlide + 1);
      }
      Pause();
    }

    /** A click on indicator `k`: jump there and pause. */
    method IndicatorClick(k: nat)
      requires Valid() && k < totalSlides
      modifies this
      ensures Valid()
      ensures currentSlide == k && isPaused && !autoAdvancing
    {
      GoToSlide(k);
      Pause();
    }

    /** `startAutoAdvance()`: does nothing while paused. */
    method StartAutoAdvance()
      requires Valid()
      modifies this`autoAdvancing
      ensures Valid()
      ensures autoAdvancing == !isPaused
    {
      if isPaused {
        return;
      }
      autoAdvancing := true;
    }

    /** `pauseAutoAdvance()` */
    method Pause()
      requires Valid()
      modifies this`isPaused, this`autoAdvancing
      ensures Valid() && isPaused && !autoAdvancing
    {
      isPaused := true;
      autoAdvancing := false;
    }

    /** `resumeAutoAdvance()` of the desktop page: unpause and restart at once. */
    method Resume()
      requires Valid()
      modifies this`isPaused, this`autoAdvancing
      ensures Valid() && !isPaused && autoAdvancing
    {
      isPaused := false;
      StartAutoAdvance();
    }

    /**
     * `resumeAutoAdvance()` of the mobile page: unpause now; the interval is
     * restarted by a `StartAutoAdvance` one second later.
     */
    method ResumeDeferred()
      requires Valid()
      modifies this`isPaused
      ensures Valid() && !isPaused && autoAdvancing == old(autoAdvancing)
    {
      isPaused := false;
    }

    /**
     * One firing of the auto-advance interval: nothing while paused,
     * otherwise one slide forward, wrapping from the last slide to 0.
     */
    method AutoAdvanceTick()
      requires Valid() && autoAdvancing
      modifies this`currentSlide, this`prevDisabled, this`nextDisabled, this`indicators, this`counter
      ensures Valid()
      ensures currentSlide == AutoAdvanceTarget(old(currentSlide), totalSlides, isPaused)
    {
      if isPaused {
        return;
      }
      if currentSlide < totalSlides - 1 {
        GoToSlide(currentSlide + 1);
      } else {
        GoToSlide(0);
      }
    }
  }

  /** Where one auto-advance tick leaves the index. */
  function AutoAdvanceTarget(i: int, n: int, paused: bool): int {
    if paused then i else if i < n - 1 then i + 1 else 0
  }

  /**
   * The auto-advance step is the wrap-around successor: unpaused ticks
   * cycle through every slide and return to the start after n ticks.
   */
  lemma AutoAdvanceIsWrapNext(i: int, n: int)
    requires 0 <= i < n
    ensures AutoAdvanceTarget(i, n, false) == WrapNext(i, n)
    ensures AutoAdvanceTarget(i, n, true) == i
  {
    WrapInRange(i, n);
  }

  // ------------------------------------------------------ rotating wheel

  /**
   * The rotating wheel of 3D cards: `ArtistCarousel` on the Glitch Lab page
   * (three opacity tiers) and `TestimonialWheel` on the FEE Hub page (four
   * tiers), identical otherwise. Besides the index and what
   * `updatePositions` drew, it tracks the auto-rotate timers: `live` counts
   * the intervals still registered with the browser, `tracked` says whether
   * `autoRotateInterval` holds one of them.
   */
  class Wheel {
    const totalItems: nat
    const fourTier: bool
    var currentIndex: int
    var styles: seq<ItemStyle>
    var indicators: seq<bool>
    var live: nat
    var tracked: bool

    ghost predicate Valid()
      reads this
    {
      0 <= currentIndex < totalItems && (tracked ==> live >= 1)
    }

    ghost predicate Rendered()
      reads this
    {
      styles == Layout(totalItems, currentIndex, fourTier) &&
      indicators == Indicators(totalItems, currentIndex)
    }

    /** At most one interval runs, and it is the one `autoRotateInterval` holds. */
    ghost predicate Tidy()
      reads this
    {
      live == (if tracked then 1 else 0)
    }

    /** `init()`: indicators, positions around item 0, auto-rotate started. */
    constructor (total: nat, fourTier: bool)
      requires total >= 1
      ensures totalItems == total && this.fourTier == fourTier && currentIndex == 0
      ensures Valid() && Rendered() && Tidy() && tracked
    {
      totalItems := total;
      this.fourTier := fourTier;
      currentIndex := 0;
      styles := Layout(total, 0, fourTier);
      indicators := Indicators(total, 0);
      live := 1;
      tracked := true;
    }

    /** `updatePositions()`: restyle every item and indicator around the current one. */
    method UpdatePositions()
      modifies this`styles, this`indicators
      ensures Rendered()
    {
      var st: seq<ItemStyle> := [];
      var row: seq<bool> := [];
      var k := 0;
      while k < totalItems
        invariant 0 <= k <= totalItems
        invariant st == Layout(k, currentIndex, fourTier)
        invariant row == Indicators(k, currentIndex)
      {
        var rel := k - currentIndex;
        var side := if rel == 0 then Active else if rel < 0 then Left else Right;
        var opacity := if rel == 0 then 100 else if Abs(rel) == 1 then 70
                       else if !fourTier || Abs(rel) == 2 then 40 else 20;
        st := st + [ItemStyle(side, 10 - Abs(rel), opacity)];
        row := row + [k == currentIndex];
        k := k + 1;
      }
      styles, indicators := st, row;
    }

    /** `startAutoRotate()`: registers a new interval, overwriting the handle. */
    method StartAutoRotate()
      requires Valid()
      modifies this`live, this`tracked
      ensures Valid() && live == old(live) + 1 && tracked
    {
      live := live + 1;
      tracked := true;
    }

    /** `stopAutoRotate()`: clears the interval the handle holds, if any. */
    method StopAutoRotate()
      requires Valid()
      modifies this`live, this`tracked
      ensures Valid() && !tracked
      ensures live == (if old(tracked) then old(live) - 1 else old(live))
    {
      if tracked {
        live := live - 1;
        tracked := false;
      }
    }

    /** `resetAutoRotate()` */
    method ResetAutoRotate()
      requires Valid()
      modifies this`live, this`tracked
      ensures Valid() && tracked
      ensures live == (if old(tracked) then old(live) else old(live) + 1)
      ensures old(Tidy()) ==> Tidy()
    {
      StopAutoRotate();
      StartAutoRotate();
    }

    /** `next()`: wrap forward, redraw, restart the timer. */
    method Next()
      requires Valid()
      modifies this
      ensures Valid() && Rendered() && tracked
      ensures currentIndex == WrapNext(old(currentIndex), totalItems)
      ensures old(Tidy()) ==> Tidy()
    {
      WrapInRange(currentIndex, totalItems);
      currentIndex := JsRem(currentIndex + 1, totalItems);
      UpdatePositions();
      ResetAutoRotate();
    }

    /** `prev()`: wrap backward, redraw, restart the timer. */
    method Prev()
      requires Valid()
      modifies this
      ensures Valid() && Rendered() && tracked
      ensures currentIndex == WrapPrev(old(currentIndex), totalItems)
      ensures old(Tidy()) ==> Tidy()
    {
      WrapInRange(currentIndex, totalItems);
      currentIndex := JsRem(currentIndex - 1 + totalItems, totalItems);
      UpdatePositions();
      ResetAutoRotate();
    }

    /** `goTo(i)` from indicator `i`. */
    method GoTo(i: nat)
      requires Valid() && i < totalItems
      modifies this
      ensures Valid() && Rendered() && tracked && currentIndex == i
      ensures old(Tidy()) ==> Tidy()
    {
      currentIndex := i;
      UpdatePositions();
      ResetAutoRotate();
    }

    /** One firing of a live interval. */
    method AutoRotateTick()
      requires Valid() && live >= 1
      modifies this
      ensures Valid() && Rendered()
      ensures currentIndex == WrapNext(old(currentIndex), totalItems)
      ensures old(Tidy()) ==> Tidy()
    {
      Next();
    }

    /** The left and right arrow keys, listened for on the whole document. */
    method ArrowKey(right: bool)
      requires Valid()
      modifies this
      ensures Valid() && Rendered() && tracked
      ensures currentIndex == if right then WrapNext(old(currentIndex), totalItems)
                              else WrapPrev(old(currentIndex), totalItems)
      ensures old(Tidy()) ==> Tidy()
    {
      if right {
        Next();
      } else {
        Prev();
      }
    }

    /** `mouseenter` pauses. */
    method MouseEnter()
      requires Valid()
      modifies this`live, this`tracked
      ensures Valid() && !tracked
      ensures old(Tidy()) ==> Tidy() && live == 0
    {
      StopAutoRotate();
    }

    /** `mouseleave` as written: `startAutoRotate()` without clearing first. */
    method MouseLeave()
      requires Valid()
      modifies this`live, this`tracked
      ensures Valid() && tracked && live == old(live) + 1
    {
      StartAutoRotate();
    }

    /** `mouseleave` as evidently intended: `resetAutoRotate()`. */
    method MouseLeaveReset()
      requires Valid()
      modifies this`live, this`tracked
      ensures Valid() && tracked
      ensures old(Tidy()) ==> Tidy() && live == 1
    {
      ResetAutoRotate();
    }
  }

  /**
   * As written, hovering the wheel, pressing an arrow key and leaving it
   * again leaves two intervals running: the arrow's `resetAutoRotate`
   * starts one, `mouseleave` starts another over its handle, and the wheel
   * then turns twice per period with only one interval that can be cleared.
   */
  method HoverArrowLeave() returns (live: nat)
    ensures live == 2
  {
    var w := new Wheel(3, false);
    w.MouseEnter();
    w.ArrowKey(true);
    w.MouseLeave();
    live := w.live;
  }

  /** With `mouseleave` resetting, the same sequence leaves one interval. */
  method HoverArrowLeaveReset(w: Wheel, right: bool)
    requires w.Valid() && w.Tidy()
    modifies w
    ensures w.Valid() && w.Tidy() && w.live == 1
  {
    w.MouseEnter();
    w.ArrowKey(right);
    w.MouseLeaveReset();
  }
}
