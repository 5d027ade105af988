/**
 * notice-coalition/notice-eys/js/main.js: the event page's day countdowns
 * on the speaker cards, and its two modals (registration and speaker
 * image). The clock is the parameter `now` (epoch milliseconds); a card's
 * event time is its `data-event-datetime` as `Date` reads it.
 */
module Eys {
  import opened Wrappers
  import opened Strings

  const DayMs: int := 1000 * 60 * 60 * 24

  /**
   * `Math.ceil(diffTime / DayMs)` on a whole number of milliseconds: the
   * least whole number of days not shorter than the time left.
   */
  function DiffDays(diffTime: int): (d: int)
    ensures (d - 1) * DayMs < diffTime <= d * DayMs
  {
    var q := (-diffTime) / DayMs;
    assert -diffTime == q * DayMs + (-diffTime) % DayMs && 0 <= (-diffTime) % DayMs < DayMs;
    -q
  }

  /** What a countdown shows: a number of days, "Today!", or nothing. */
  datatype Countdown = Days(n: nat) | Today | Hidden

  /**
   * `updateCountdowns`' three cases for an event at `event` seen at `now`:
   * a future event shows its day count; an event that passed less than a
   * day ago (or is now) shows "Today!"; an older one hides the countdown.
   */
  function CountdownFor(event: int, now: int): (r: Countdown)
    ensures r.Days? <==> event > now
    ensures r.Days? ==> r.n >= 1 && (r.n - 1) * DayMs < event - now <= r.n * DayMs
    ensures r == Today <==> now - DayMs < event <= now
    ensures r == Hidden <==> event <= now - DayMs
  {
    var d := DiffDays(event - now);
    assert d > 0 ==> d * DayMs >= DayMs;
    assert d < 0 ==> (d - 1) * DayMs <= -2 * DayMs;
    if d > 0 then Days(d) else if d == 0 then Today else Hidden
  }

  /**
   * A `.speaker-card`: which of its three countdown elements exist, its
   * `data-event-datetime` (empty when absent) with the time it parses to
   * (`None`: an invalid date), and what the countdown shows.
   */
  datatype SpeakerCard = SpeakerCard(
    hasEventDate: bool, hasValue: bool, hasContainer: bool,
    datetime: string, event: Option<int>,
    text: string, accent: bool, hidden: bool)

  /**
   * One card after `updateCountdowns` at `now`. A card lacking an element
   * or the attribute is left alone; an invalid date makes `diffDays` NaN,
   * which is neither positive nor zero, so the countdown is hidden.
   */
  function UpdatedCard(c: SpeakerCard, now: int): (r: SpeakerCard)
    ensures r == c.(text := r.text, accent := r.accent, hidden := r.hidden)
    ensures c.hidden ==> r.hidden
    ensures c.accent ==> r.accent
  {
    if !(c.hasEventDate && c.hasValue && c.hasContainer) || c.datetime == "" then c
    else if c.event.None? then c.(hidden := true)
    else
      match CountdownFor(c.event.value, now)
      case Days(n) => c.(text := NatToString(n))
      case Today => c.(text := "Today!", accent := true)
      case Hidden => c.(hidden := true)
  }

  /**
   * What a card shows after the update: its day count for a future event,
   * "Today!" with the accent for an event under a day old, a hidden
   * countdown for an older or unreadable one; an incomplete card is not
   * touched.
   */
  lemma UpdatedCardShows(c: SpeakerCard, now: int)
    ensures !(c.hasEventDate && c.hasValue && c.hasContainer) || c.datetime == "" ==> UpdatedCard(c, now) == c
    ensures c.hasEventDate && c.hasValue && c.hasContainer && c.datetime != "" && c.event.Some? ==>
              var u := UpdatedCard(c, now);
              (c.event.value > now ==> ParseInt(u.text) == Some(DiffDays(c.event.value - now)) && u.hidden == c.hidden) &&
              (now - DayMs < c.event.value <= now ==> u.text == "Today!" && u.accent && u.hidden == c.hidden) &&
              (c.event.value <= now - DayMs ==> u.hidden && u.text == c.text)
  {
    if c.event.Some? {
      var d := DiffDays(c.event.value - now);
      if d > 0 {
        ParseIntOfNatToString(d);
      }
    }
  }

  /** The speaker cards, which the update writes in place. */
  class CountdownBoard {
    var cards: seq<SpeakerCard>

    constructor (cards: seq<SpeakerCard>)
      ensures this.cards == cards
    {
      this.cards := cards;
    }

    /** `updateCountdowns()` at time `now`, card by card. */
    method UpdateCountdowns(now: int)
      modifies this
      ensures |cards| == |old(cards)|
      ensures forall i :: 0 <= i < |cards| ==> cards[i] == UpdatedCard(old(cards)[i], now)
    {
      var cs := cards;
      for i := 0 to |cs|
        invariant |cs| == |cards|
        invariant forall j :: 0 <= j < i ==> cs[j] == UpdatedCard(cards[j], now)
        invariant forall j :: i <= j < |cs| ==> cs[j] == cards[j]
      {
        var card := cs[i];
        if card.hasEventDate && card.hasValue && card.hasContainer && card.datetime != "" {
          if card.event.None? {
            card := card.(hidden := true);
          } else {
            var diffDays := DiffDays(card.event.value - now);
            if diffDays > 0 {
              card := card.(text := NatToString(diffDays));
            } else if diffDays == 0 {
              card := card.(text := "Today!", accent := true);
            } else {
              card := card.(hidden := true);
            }
          }
        }
        cs := cs[i := card];
      }
      cards := cs;
    }
  }

  // --------------------------------------------------------------- modals

  /** The two modals the close buttons and outside clicks can target. */
  datatype Modal = Registration | Image

  class Modals {
    /** Which of `#registration-modal`, `#image-modal` and its `.modal-image` exist. */
    const hasRegistration: bool
    const hasImage: bool
    const hasModalImage: bool
    /** `style.display === 'block'` of each modal, and the body's 'modal-open' class. */
    var registrationOpen: bool
    var imageOpen: bool
    var bodyModalOpen: bool
    var imageSrc: string
    var imageAlt: string

    constructor (hasRegistration: bool, hasImage: bool, hasModalImage: bool)
      ensures this.hasRegistration == hasRegistration && this.hasImage == hasImage
      ensures this.hasModalImage == (hasImage && hasModalImage)
      ensures !registrationOpen && !imageOpen && !bodyModalOpen && imageSrc == ""
    {
      this.hasRegistration := hasRegistration;
      this.hasImage := hasImage;
      this.hasModalImage := hasImage && hasModalImage;
      registrationOpen, imageOpen, bodyModalOpen := false, false, false;
      imageSrc, imageAlt := "", "";
    }

    /** A register button: open the registration modal when it exists. */
    method RegisterClick()
      modifies this`registrationOpen, this`bodyModalOpen
      ensures registrationOpen == (old(registrationOpen) || hasRegistration)
      ensures bodyModalOpen == (old(bodyModalOpen) || hasRegistration)
    {
      if hasRegistration {
        registrationOpen := true;
        bodyModalOpen := true;
      }
    }

    /** A speaker image: show it large, with 'Speaker image' for a missing alt text. */
    method ImageClick(src: string, alt: string)
      modifies this`imageOpen, this`bodyModalOpen, this`imageSrc, this`imageAlt
      ensures hasImage && hasModalImage ==>
                imageOpen && bodyModalOpen && imageSrc == src &&
                imageAlt == (if alt != "" then alt else "Speaker image")
      ensures !(hasImage && hasModalImage) ==>
                imageOpen == old(imageOpen) && bodyModalOpen == old(bodyModalOpen) &&
                imageSrc == old(imageSrc) && imageAlt == old(imageAlt)
    {
      if hasImage && hasModalImage {
        imageSrc := src;
        imageAlt := if alt != "" then alt else "Speaker image";
        imageOpen := true;
        bodyModalOpen := true;
      }
    }

    /**
     * A close button inside modal `m`, or a click on `m`'s backdrop: hide
     * it, release the body, and clear the image's source for the image modal.
     */
    method Close(m: Modal)
      modifies this`registrationOpen, this`imageOpen, this`bodyModalOpen, this`imageSrc
      ensures !bodyModalOpen
      ensures m == Registration ==> !registrationOpen && imageOpen == old(imageOpen) && imageSrc == old(imageSrc)
      ensures m == Image ==> !imageOpen && registrationOpen == old(registrationOpen) &&
                             imageSrc == (if hasModalImage then "" else old(imageSrc))
    {
      if m == Registration {
        registrationOpen := false;
      } else {
        imageOpen := false;
        if hasModalImage {
          imageSrc := "";
        }
      }
      bodyModalOpen := false;
    }

    /**
     * Escape: every open modal closes and the body is released if one was
     * open; closing the image modal clears its source.
     */
    method Escape()
      modifies this`registrationOpen, this`imageOpen, this`bodyModalOpen, this`imageSrc
      ensures !registrationOpen && !imageOpen
      ensures bodyModalOpen == (old(bodyModalOpen) && !old(registrationOpen) && !old(imageOpen))
      ensures imageSrc == if old(imageOpen) && hasModalImage then "" else old(imageSrc)
    {
      if registrationOpen {
        registrationOpen := false;
        bodyModalOpen := false;
      }
      if imageOpen {
        imageOpen := false;
        bodyModalOpen := false;
        if hasModalImage {
          imageSrc := "";
        }
      }
    }
  }
}
