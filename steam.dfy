/**
 * main/steam/js/main.js: the STEAM page's video carousel (a clamped index
 * that never wraps, one active indicator, disabled end buttons), its
 * touch swipes and modal-gated arrow keys. Its gallery drawer is
 * `GalleryCache.GalleryDrawer`.
 */
module Steam {
  import Carousel

  /** Card pitch in pixels: a 300px card and a 24px gap. */
  const CardPitch: int := 300 + 24

  /** The swipe threshold in pixels. */
  const SwipeThreshold: int := 50

  /** What a swipe asks the carousel to do. */
  datatype Swipe = SwipeNext | SwipePrev | NoSwipe

  /** `diffX = startX - currentX`: more than 50px left goes next, more than 50px right goes back. */
  function SwipeOf(startX: int, currentX: int): (r: Swipe)
    ensures r == SwipeNext <==> startX - currentX > SwipeThreshold
    ensures r == SwipePrev <==> currentX - startX > SwipeThreshold
    ensures r == NoSwipe <==> Carousel.Abs(startX - currentX) <= SwipeThreshold
  {
    var diffX := startX - currentX;
    if Carousel.Abs(diffX) > SwipeThreshold then
      if diffX > 0 then SwipeNext else SwipePrev
    else NoSwipe
  }

  /** Reversing a gesture reverses its effect. */
  lemma SwipeReverses(a: int, b: int)
    ensures SwipeOf(a, b) == SwipeNext <==> SwipeOf(b, a) == SwipePrev
    ensures SwipeOf(a, b) == NoSwipe <==> SwipeOf(b, a) == NoSwipe
  {
  }

  /** The keys the page listens for. */
  datatype Key = Escape | ArrowLeft | ArrowRight | OtherKey

  /**
   * The video carousel's state: `currentSlide` over `videoData`, what
   * `updateCarousel` drew, the video modal, and the touch fields.
   */
  class VideoCarousel {
    const videoCount: nat
    var currentSlide: int
    var offset: int
    var indicators: seq<bool>
    var prevDisabled: bool
    var nextDisabled: bool
    var modalOpen: bool
    var modalVideo: int
    var startX: int
    var currentX: int
    var isDragging: bool

    ghost predicate Valid()
      reads this
    {
      0 <= currentSlide && (videoCount >= 1 ==> currentSlide < videoCount)
    }

    /** The track, indicators and buttons agree with `currentSlide`. */
    ghost predicate Rendered()
      reads this
    {
      offset == -currentSlide * CardPitch &&
      indicators == Carousel.Indicators(videoCount, currentSlide) &&
      prevDisabled == (currentSlide == 0) &&
      nextDisabled == (currentSlide >= videoCount - 1)
    }

    /** `initializeCarousel()`: slide 0, drawn, modal closed, no touch yet. */
    constructor (count: nat)
      ensures videoCount == count && currentSlide == 0
      ensures !modalOpen && !isDragging && startX == 0 && currentX == 0
      ensures Valid() && Rendered()
    {
      videoCount := count;
      currentSlide := 0;
      modalOpen := false;
      modalVideo := 0;
      startX, currentX, isDragging := 0, 0, false;
      offset := 0;
      indicators := Carousel.Indicators(count, 0);
      prevDisabled := true;
      nextDisabled := 0 >= count - 1;
    }

    /** `updateCarousel()` */
    method UpdateCarousel()
      modifies this`offset, this`indicators, this`prevDisabled, this`nextDisabled
      ensures Rendered()
    {
      offset := -currentSlide * CardPitch;
      var row: seq<bool> := [];
      var i := 0;
      while i < videoCount
        invariant 0 <= i <= videoCount
        invariant row == Carousel.Indicators(i, currentSlide)
      {
        row := row + [i == currentSlide];
        i := i + 1;
      }
      indicators := row;
      prevDisabled := currentSlide == 0;
      nextDisabled := currentSlide >= videoCount - 1;
    }

    /** `goToSlide(i)`, also what an indicator click does. */
    method GoToSlide(i: int)
      modifies this`currentSlide, this`offset, this`indicators, this`prevDisabled, this`nextDisabled
      ensures currentSlide == Carousel.Clamp(i, videoCount)
      ensures Valid() && Rendered()
    {
      currentSlide := Carousel.Clamp(i, videoCount);
      UpdateCarousel();
    }

    /** `nextSlide()`: one forward, nothing at the last slide. */
    method NextSlide()
      requires Valid() && Rendered()
      modifies this`currentSlide, this`offset, this`indicators, this`prevDisabled, this`nextDisabled
      ensures currentSlide == (if old(currentSlide) < videoCount - 1 then old(currentSlide) + 1 else old(currentSlide))
      ensures Valid() && Rendered()
    {
      if currentSlide < videoCount - 1 {
        currentSlide := currentSlide + 1;
        UpdateCarousel();
      }
    }

    /** `prevSlide()`: one back, nothing at the first slide. */
    method PrevSlide()
      requires Valid() && Rendered()
      modifies this`currentSlide, this`offset, this`indicators, this`prevDisabled, this`nextDisabled
      ensures currentSlide == (if old(currentSlide) > 0 then old(currentSlide) - 1 else old(currentSlide))
      ensures Valid() && Rendered()
    {
      if currentSlide > 0 {
        currentSlide := currentSlide - 1;
        UpdateCarousel();
      }
    }

    /** A click on card `k` opens the modal on that video. */
    method OpenVideoModal(k: nat)
      requires k < videoCount
      modifies this`modalOpen, this`modalVideo
      ensures modalOpen && modalVideo == k
    {
      modalVideo := k;
      modalOpen := true;
    }

    method CloseVideoModal()
      modifies this`modalOpen
      ensures !modalOpen
    {
      modalOpen := false;
    }

    /**
     * The document's `keydown` handler: only while the video modal is
     * shown do Escape, left and right act.
     */
    method KeyDown(key: Key)
      requires Valid() && Rendered()
      modifies this`modalOpen, this`currentSlide, this`offset, this`indicators, this`prevDisabled, this`nextDisabled
      ensures Valid() && Rendered()
      ensures !old(modalOpen) ==> !modalOpen && currentSlide == old(currentSlide)
      ensures old(modalOpen) && key == Escape ==> !modalOpen && currentSlide == old(currentSlide)
      ensures old(modalOpen) && key == ArrowLeft ==>
                modalOpen && currentSlide == (if old(currentSlide) > 0 then old(currentSlide) - 1 else old(currentSlide))
      ensures old(modalOpen) && key == ArrowRight ==>
                modalOpen && currentSlide == (if old(currentSlide) < videoCount - 1 then old(currentSlide) + 1 else old(currentSlide))
      ensures old(modalOpen) && key == OtherKey ==> modalOpen && currentSlide == old(currentSlide)
    {
      if modalOpen {
        if key == Escape {
          CloseVideoModal();
        } else if key == ArrowLeft {
          PrevSlide();
        } else if key == ArrowRight {
          NextSlide();
        }
      }
    }

    /** `touchstart` as written: `currentX` keeps the value of the last gesture. */
    method TouchStart(x: int)
      modifies this`startX, this`isDragging
      ensures startX == x && isDragging
    {
      startX := x;
      isDragging := true;
    }

    /** `touchstart` as evidently intended: the gesture starts with no extent. */
    method TouchStartReset(x: int)
      modifies this`startX, this`currentX, this`isDragging
      ensures startX == x && currentX == x && isDragging
    {
      startX, currentX := x, x;
      isDragging := true;
    }

    /** `touchmove`: while dragging, follow the finger. */
    method TouchMove(x: int)
      modifies this`currentX
      ensures currentX == (if isDragging then x else old(currentX))
    {
      if isDragging {
        currentX := x;
      }
    }

    /** `touchend`: act on the swipe, then stop dragging. */
    method TouchEnd()
      requires Valid() && Rendered()
      modifies this`isDragging, this`currentSlide, this`offset, this`indicators, this`prevDisabled, this`nextDisabled
      ensures Valid() && Rendered() && !isDragging
      ensures !old(isDragging) ==> currentSlide == old(currentSlide)
      ensures old(isDragging) && SwipeOf(startX, currentX) == NoSwipe ==> currentSlide == old(currentSlide)
      ensures old(isDragging) && SwipeOf(startX, currentX) == SwipeNext ==>
                currentSlide == (if old(currentSlide) < videoCount - 1 then old(currentSlide) + 1 else old(currentSlide))
      ensures old(isDragging) && SwipeOf(startX, currentX) == SwipePrev ==>
                currentSlide == (if old(currentSlide) > 0 then old(currentSlide) - 1 else old(currentSlide))
    {
      if !isDragging {
        return;
      }
      var diffX := startX - currentX;
      if Carousel.Abs(diffX) > SwipeThreshold {
        if diffX > 0 {
          NextSlide();
        } else {
          PrevSlide();
        }
      }
      isDragging := false;
    }
  }

  /**
   * As written, the very first touch on the page, a tap at x = 300 with no
   * movement, is read as a 300px swipe from the initial `currentX` of 0 and
   * moves a three-video carousel to its second video.
   */
  method TapTurnsVideo() returns (slide: int)
    ensures slide == 1
  {
    var c := new VideoCarousel(3);
    c.TouchStart(300);
    c.TouchEnd();
    slide := c.currentSlide;
  }

  /** With `currentX` reset at `touchstart`, a tap never moves the carousel. */
  method TapKeepsVideo(c: VideoCarousel, x: int)
    requires c.Valid() && c.Rendered()
    modifies c
    ensures c.Valid() && c.Rendered() && c.currentSlide == old(c.currentSlide)
  {
    c.TouchStartReset(x);
    c.TouchEnd();
  }
}
