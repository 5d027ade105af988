/**
 * notice-coalition/notice-glitch-lab/js/main.js: the hero image that
 * alternates between a still and a glitch GIF, and the gallery preview
 * slots. The artist carousel is `Carousel.Wheel` with three opacity
 * tiers; the gallery loader and drawer are `GalleryCache`.
 */
module GlitchLab {
  /** How long each hero image stays up, in milliseconds. */
  const GlitchMs: nat := 2000
  const StaticMs: nat := 20000

  /**
   * The hero image's state: `isShowingGlitch`, `switchCount`, whether a
   * `setTimeout` for the next switch is pending, and that timer's delay.
   */
  class HeroImage {
    const present: bool
    var isShowingGlitch: bool
    var switchCount: nat
    var scheduled: bool
    var nextDelay: nat

    /**
     * The image shows the GIF after an odd number of switches, and a
     * switch is pending exactly when the image element exists.
     */
    ghost predicate Valid()
      reads this
    {
      && (present ==> isShowingGlitch == (switchCount % 2 == 1))
      && scheduled == present
    }

    /**
     * Page load: the still is up; with the image element the first switch
     * is 20 s away, without it no timer is set at all.
     */
    constructor (present: bool)
      ensures this.present == present && !isShowingGlitch && switchCount == 0
      ensures scheduled == present
      ensures present ==> nextDelay == StaticMs
      ensures Valid()
    {
      this.present := present;
      isShowingGlitch := false;
      switchCount := 0;
      if present {
        scheduled := true;
        nextDelay := StaticMs;
      } else {
        scheduled := false;
        nextDelay := 0;
      }
    }

    /**
     * `alternateHeroImage()`: count the switch; without the image element
     * do nothing more; otherwise flip the image and schedule the next
     * switch, 2 s after showing the GIF and 20 s after showing the still.
     */
    method AlternateHeroImage()
      requires Valid()
      modifies this`isShowingGlitch, this`switchCount, this`scheduled, this`nextDelay
      ensures Valid() && switchCount == old(switchCount) + 1
      ensures present ==> isShowingGlitch == !old(isShowingGlitch)
      ensures present ==> scheduled && nextDelay == (if isShowingGlitch then GlitchMs else StaticMs)
      ensures !present ==> isShowingGlitch == old(isShowingGlitch) && !scheduled && nextDelay == old(nextDelay)
    {
      switchCount := switchCount + 1;
      if !present {
        return;
      }
      scheduled := true;
      if isShowingGlitch {
        isShowingGlitch := false;
        nextDelay := StaticMs;
      } else {
        isShowingGlitch := true;
        nextDelay := GlitchMs;
      }
    }
  }

  /** When switch `k` (counting from 1) happens, in milliseconds after page load. */
  function SwitchTime(k: nat): nat
    requires k >= 1
  {
    if k == 1 then StaticMs
    else SwitchTime(k - 1) + (if (k - 1) % 2 == 1 then GlitchMs else StaticMs)
  }

  /**
   * The timeline the script announces: the GIF goes up at 20 s, 42 s,
   * 64 s, ... and the still returns 2 s after each.
   */
  lemma {:induction false} Timeline(m: nat)
    ensures SwitchTime(2 * m + 1) == StaticMs + (GlitchMs + StaticMs) * m
    ensures SwitchTime(2 * m + 2) == StaticMs + GlitchMs + (GlitchMs + StaticMs) * m
  {
    if m > 0 {
      Timeline(m - 1);
      assert SwitchTime(2 * m + 1) == SwitchTime(2 * m) + StaticMs;
    }
  }

  /** What a gallery preview slot shows. */
  datatype PreviewSlot = ImageSlot(url: string) | ComingSoon

  /**
   * `loadGalleryPreview()`: slot `i` gets image `i` when there is one and
   * the "Coming Soon" message otherwise.
   */
  method LoadGalleryPreview(slots: nat, images: seq<string>) returns (r: seq<PreviewSlot>)
    ensures |r| == slots
    ensures forall i :: 0 <= i < slots && i < |images| ==> r[i] == ImageSlot(images[i])
    ensures forall i :: 0 <= i < slots && i >= |images| ==> r[i] == ComingSoon
  {
    r := [];
    var i := 0;
    while i < slots
      invariant 0 <= i <= slots && |r| == i
      invariant forall j :: 0 <= j < i && j < |images| ==> r[j] == ImageSlot(images[j])
      invariant forall j :: 0 <= j < i && j >= |images| ==> r[j] == ComingSoon
    {
      if i < |images| {
        r := r + [ImageSlot(images[i])];
      } else {
        r := r + [ComingSoon];
      }
      i := i + 1;
    }
  }
}
