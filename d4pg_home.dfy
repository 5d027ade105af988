/**
 * The D4PG home page (d4pg/d4pg-home/js/main.js): the speaker pager, the
 * workshop carousel's wrap-around index, the workshop time label, the
 * workshop topic tag and the presenters line. The page's photo gallery is
 * `GalleryCache`.
 *
 * The window width is a parameter of the pager's calls; the fade timers of
 * `showCurrentPage` are collapsed into the state they leave behind, and the
 * auto-scroll interval is a flag plus an explicit tick.
 */
module D4pgHome {
  import opened Wrappers
  import opened Strings
  import Carousel
  import ScheduleDesktop

  // ------------------------------------------------------- speaker pager

  /** `calculateSpeakersPerPage()`: 1, 2, 3 or 4 speakers for widths up to 480, 768, 1024 and beyond. */
  function SpeakersPerPage(width: int): (r: nat)
    ensures 1 <= r <= 4
  {
    if width <= 480 then 1 else if width <= 768 then 2 else if width <= 1024 then 3 else 4
  }

  /** A wider window never shows fewer speakers per page. */
  lemma SpeakersPerPageMonotone(w1: int, w2: int)
    requires w1 <= w2
    ensures SpeakersPerPage(w1) <= SpeakersPerPage(w2)
  {
  }

  /** `Math.ceil(count / perPage)`: the fewest pages of `perPage` that hold `count` speakers. */
  function TotalPages(count: nat, perPage: nat): (r: nat)
    requires 1 <= perPage <= 4
    ensures r * perPage >= count
    ensures r == 0 || (r - 1) * perPage < count
  {
    if perPage == 1 then count
    else if perPage == 2 then (count + 1) / 2
    else if perPage == 3 then (count + 2) / 3
    else (count + 3) / 4
  }

  /** The speakers shown on `page`: indices in [page·perPage, page·perPage + perPage). */
  function PageWindow(count: nat, page: int, perPage: nat): (r: seq<bool>)
    ensures |r| == count
  {
    seq(count, i requires 0 <= i < count => page * perPage <= i < page * perPage + perPage)
  }

  /**
   * The pages partition the speakers: every speaker is on exactly one page,
   * page `i / perPage`, and that page is one of the `TotalPages`.
   */
  lemma PagesPartition(count: nat, perPage: nat, i: nat)
    requires 1 <= perPage <= 4 && i < count
    ensures 0 <= i / perPage < TotalPages(count, perPage)
    ensures PageWindow(count, i / perPage, perPage)[i]
    ensures forall p: int :: PageWindow(count, p, perPage)[i] ==> p == i / perPage
  {
    if perPage == 1 {
    } else if perPage == 2 {
    } else if perPage == 3 {
    } else {
    }
  }

  /** Every page in range shows at least its first speaker. */
  lemma PageNeverEmpty(count: nat, perPage: nat, page: int)
    requires 1 <= perPage <= 4 && 0 <= page < TotalPages(count, perPage)
    ensures page * perPage < count && PageWindow(count, page, perPage)[page * perPage]
  {
    var r := TotalPages(count, perPage);
    assert page * perPage <= (r - 1) * perPage by {
      if perPage == 1 {
      } else if perPage == 2 {
      } else if perPage == 3 {
      } else {
      }
    }
  }

  /** The closure state of the speaker carousel. */
  class SpeakerPager {
    /** `speakers.length` */
    const speakerCount: nat
    /** Both arrow buttons exist on the page. */
    const hasArrows: bool
    var currentPage: int
    var speakersPerPage: nat
    var totalPages: nat
    /** `autoScrollInterval` is running. */
    var autoScrolling: bool
    /** `display: block` per speaker. */
    var shown: seq<bool>
    var leftHidden: bool
    var rightHidden: bool

    /**
     * The page count follows the speakers per page once computed; the page is
     * in range, except before the first computation (page 0 of 0) and after a
     * resize of an empty row (page -1 of 0).
     */
    ghost predicate Valid()
      reads this
    {
      && 1 <= speakersPerPage <= 4
      && (totalPages == 0 || totalPages == TotalPages(speakerCount, speakersPerPage))
      && |shown| == speakerCount
      && (0 <= currentPage < totalPages ||
          (totalPages == 0 && (currentPage == 0 || (currentPage == -1 && speakerCount == 0))))
    }

    /** What `showCurrentPage` leaves behind. */
    ghost predicate Rendered()
      reads this
    {
      && shown == PageWindow(speakerCount, currentPage, speakersPerPage)
      && (!hasArrows || totalPages <= 1 ==> leftHidden && rightHidden)
      && (hasArrows && totalPages > 1 ==>
            leftHidden == (currentPage == 0) && rightHidden == (currentPage == totalPages - 1))
    }

    constructor (speakerCount: nat, hasArrows: bool, initiallyShown: seq<bool>)
      requires |initiallyShown| == speakerCount
      ensures Valid() && currentPage == 0 && totalPages == 0 && speakersPerPage == 4 && !autoScrolling
      ensures this.speakerCount == speakerCount && this.hasArrows == hasArrows && shown == initiallyShown
    {
      this.speakerCount := speakerCount;
      this.hasArrows := hasArrows;
      currentPage := 0;
      speakersPerPage := 4;
      totalPages := 0;
      autoScrolling := false;
      shown := initiallyShown;
      leftHidden, rightHidden := false, false;
    }

    /** `calculateSpeakersPerPage()` */
    method CalculateSpeakersPerPage(width: int)
      modifies this`speakersPerPage, this`totalPages
      ensures speakersPerPage == SpeakersPerPage(width)
      ensures totalPages == TotalPages(speakerCount, speakersPerPage)
    {
      speakersPerPage := SpeakersPerPage(width);
      totalPages := TotalPages(speakerCount, speakersPerPage);
    }

    /** `updateArrowVisibility()` */
    method UpdateArrowVisibility()
      modifies this`leftHidden, this`rightHidden
      ensures !hasArrows || totalPages <= 1 ==> leftHidden && rightHidden
      ensures hasArrows && totalPages > 1 ==>
                leftHidden == (currentPage == 0) && rightHidden == (currentPage == totalPages - 1)
    {
      if !hasArrows || totalPages <= 1 {
        leftHidden, rightHidden := true, true;
        return;
      }
      leftHidden := currentPage == 0;
      rightHidden := currentPage == totalPages - 1;
    }

    /** `showCurrentPage()`: nothing for an empty row, else exactly the current page is displayed. */
    method ShowCurrentPage()
      modifies this`shown, this`leftHidden, this`rightHidden
      ensures speakerCount > 0 ==> Rendered()
      ensures speakerCount == 0 ==> unchanged(this)
    {
      if speakerCount == 0 {
        return;
      }
      var speakerPageStart := currentPage * speakersPerPage;
      var speakerPageEnd := speakerPageStart + speakersPerPage;
      shown := seq(speakerCount, i requires 0 <= i < speakerCount => speakerPageStart <= i < speakerPageEnd);
      UpdateArrowVisibility();
    }

    /** `goToPage(pageNumber)`: a page outside [0, totalPages) is ignored. */
    method GoToPage(pageNumber: int)
      requires Valid()
      modifies this`currentPage, this`shown, this`leftHidden, this`rightHidden
      ensures Valid()
      ensures 0 <= pageNumber < totalPages ==> currentPage == pageNumber && Rendered()
      ensures !(0 <= pageNumber < totalPages) ==> unchanged(this)
    {
      if pageNumber < 0 || pageNumber >= totalPages {
        return;
      }
      currentPage := pageNumber;
      ShowCurrentPage();
    }

    /**
     * `scrollSpeakers(direction)`: stops auto-scrolling and turns one page
     * left or right when there is one; the restart ten seconds later is a
     * separate `StartAutoScroll`.
     */
    method ScrollSpeakers(direction: string)
      requires Valid()
      modifies this`currentPage, this`shown, this`leftHidden, this`rightHidden, this`autoScrolling
      ensures Valid() && !autoScrolling
      ensures currentPage == (if direction == "left" && old(currentPage) > 0 then old(currentPage) - 1
                              else if direction == "right" && old(currentPage) < totalPages - 1 then old(currentPage) + 1
                              else old(currentPage))
      ensures var turns := (direction == "left" && old(currentPage) > 0) ||
                           (direction == "right" && old(currentPage) < totalPages - 1);
              (turns ==> Rendered()) &&
              (!turns ==> shown == old(shown) && leftHidden == old(leftHidden) && rightHidden == old(rightHidden))
    {
      autoScrolling := false;
      if direction == "left" && currentPage > 0 {
        GoToPage(currentPage - 1);
      } else if direction == "right" && currentPage < totalPages - 1 {
        GoToPage(currentPage + 1);
      }
    }

    /** `startAutoScroll()`: only a pager of more than one page scrolls by itself. */
    method StartAutoScroll()
      modifies this`autoScrolling
      ensures autoScrolling <==> totalPages > 1
    {
      autoScrolling := totalPages > 1;
    }

    /** One tick of the auto-scroll interval: the next page, wrapping from the last to the first. */
    method AutoScrollTick()
      requires Valid()
      modifies this`currentPage, this`shown, this`leftHidden, this`rightHidden
      ensures Valid()
      ensures totalPages > 0 ==> currentPage == Carousel.WrapNext(old(currentPage), totalPages) && Rendered()
      ensures totalPages == 0 ==> currentPage == old(currentPage)
    {
      if totalPages > 0 {
        Carousel.WrapInRange(currentPage, totalPages);
      }
      if currentPage < totalPages - 1 {
        GoToPage(currentPage + 1);
      } else {
        GoToPage(0);
      }
    }

    /** `initializeCarousel()`: the first page of the current layout, auto-scrolling when there are several. */
    method InitializeCarousel(width: int)
      requires Valid()
      modifies this
      ensures Valid()
      ensures speakerCount == 0 ==> unchanged(this)
      ensures speakerCount > 0 ==>
                && speakersPerPage == SpeakersPerPage(width)
                && totalPages == TotalPages(speakerCount, speakersPerPage)
                && currentPage == 0 && Rendered()
                && (autoScrolling <==> totalPages > 1)
    {
      if speakerCount == 0 {
        return;
      }
      CalculateSpeakersPerPage(width);
      currentPage := 0;
      ShowCurrentPage();
      StartAutoScroll();
    }

    /**
     * The resize handler: recompute the layout and pull the page back to the
     * last one when it fell off the end (to -1 for an empty row).
     */
    method Resize(width: int)
      requires Valid()
      modifies this`speakersPerPage, this`totalPages, this`currentPage, this`shown, this`leftHidden, this`rightHidden
      ensures Valid()
      ensures speakersPerPage == SpeakersPerPage(width)
      ensures totalPages == TotalPages(speakerCount, speakersPerPage)
      ensures currentPage == if old(currentPage) >= totalPages then totalPages - 1 else old(currentPage)
      ensures speakerCount > 0 ==> Rendered()
    {
      CalculateSpeakersPerPage(width);
      if currentPage >= totalPages {
        currentPage := totalPages - 1;
      }
      ShowCurrentPage();
    }

    /** `mouseenter` on the row stops auto-scrolling; `mouseleave` is `StartAutoScroll`. */
    method MouseEnter()
      modifies this`autoScrolling
      ensures !autoScrolling
    {
      autoScrolling := false;
    }
  }

  // ------------------------------------------------------- workshop carousel

  /** The workshop carousel's `currentWorkshopIndex`; `None` is NaN. */
  class WorkshopCarousel {
    var currentWorkshopIndex: Option<int>

    constructor ()
      ensures currentWorkshopIndex == Some(0)
    {
      currentWorkshopIndex := Some(0);
    }

    /**
     * `navigateCarousel(direction)` over a day of `count` workshops:
     * `(i + direction + count) % count`, NaN for an empty day.
     */
    method NavigateCarousel(direction: int, count: nat)
      modifies this`currentWorkshopIndex
      ensures count == 0 || old(currentWorkshopIndex).None? ==> currentWorkshopIndex.None?
      ensures count > 0 && old(currentWorkshopIndex).Some? ==>
                currentWorkshopIndex == Some(Carousel.JsRem(old(currentWorkshopIndex).value + direction + count, count))
    {
      if count == 0 || currentWorkshopIndex.None? {
        currentWorkshopIndex := None;
      } else {
        currentWorkshopIndex := Some(Carousel.JsRem(currentWorkshopIndex.value + direction + count, count));
      }
    }
  }

  /**
   * From an index in range, the arrows move one step forward or back with
   * wrap-around, exactly the wheels' next and prev, and stay in [0, count).
   */
  lemma NavigateWraps(i: int, count: nat)
    requires 0 <= i < count
    ensures Carousel.JsRem(i + 1 + count, count) == Carousel.WrapNext(i, count)
    ensures Carousel.JsRem(i - 1 + count, count) == Carousel.WrapPrev(i, count)
    ensures 0 <= Carousel.JsRem(i + 1 + count, count) < count
    ensures 0 <= Carousel.JsRem(i - 1 + count, count) < count
  {
    Carousel.WrapInRange(i, count);
    if i == count - 1 {
      assert (i + 1 + count) % count == 0 by {
        assert i + 1 + count == 2 * count;
      }
    } else {
      assert (i + 1 + count) % count == i + 1 by {
        assert i + 1 + count == count + (i + 1);
      }
    }
  }

  // ------------------------------------------------------- time label

  /**
   * `formatTime(timeString)`: '' for an empty time; missing or empty
   * minutes read "00".
   */
  function FormatTime(t: string): (r: string)
    ensures t == "" <==> r == ""
  {
    if t == "" then ""
    else
      var pieces := SplitOn(t, ":");
      var minute := if |pieces| > 1 && pieces[1] != "" then pieces[1] else "00";
      Label(ParseInt(pieces[0]), minute)
  }

  /** The four branches on the hour; a NaN hour fails every test and lands in the last, "NaN:mm PM". */
  function Label(hour: Option<nat>, minute: string): (r: string)
    ensures r != ""
  {
    match hour
    case None => "NaN:" + minute + " PM"
    case Some(h) =>
      if h == 0 then "12:" + minute + " AM"
      else if h < 12 then NatToString(h) + ":" + minute + " AM"
      else if h == 12 then "12:" + minute + " PM"
      else NatToString(h - 12) + ":" + minute + " PM"
  }

  /** The branches are the 12-hour clock: hour `Hour12(h)`, `Meridiem(h)`. */
  lemma LabelIsTwelveHour(h: nat, minute: string)
    ensures Label(Some(h), minute) ==
            NatToString(ScheduleDesktop.Hour12(h)) + (":" + minute + " " + ScheduleDesktop.Meridiem(h))
  {
    assert "12" == NatToString(12);
    var n := NatToString(ScheduleDesktop.Hour12(h));
    var m := ScheduleDesktop.Meridiem(h);
    assert n + ":" + minute + " " + m == n + (":" + minute + " " + m);
  }

  /** A string of digits holds no colon. */
  lemma DigitsHaveNoColon(d: string)
    requires AllDigits(d)
    ensures ':' !in d
  {
    assert forall i :: 0 <= i < |d| ==> d[i] != ':';
  }

  /** On "H:MM" and "HH:MM" the home label is the schedule page's label. */
  lemma FormatTimeAgrees(hs: string, ms: string)
    requires 1 <= |hs| <= 2 && AllDigits(hs)
    requires |ms| == 2 && AllDigits(ms)
    ensures FormatTime(hs + ":" + ms) == ScheduleDesktop.FormatTimeTo12Hour(hs + ":" + ms)
  {
    FormatTimeOfClock(hs, ms);
    ScheduleDesktop.FormatTimeTo12HourClock(hs, ms);
    LabelIsTwelveHour(DigitsValue(hs), ms);
  }

  /** An "H:MM" or "HH:MM" time is labelled from its hour digits and its minute digits. */
  lemma FormatTimeOfClock(hs: string, ms: string)
    requires hs != "" && AllDigits(hs) && AllDigits(ms)
    ensures FormatTime(hs + ":" + ms) == Label(Some(DigitsValue(hs)), if ms != "" then ms else "00")
  {
    DigitsHaveNoColon(hs);
    DigitsHaveNoColon(ms);
    SplitOnce(hs, ':', ms);
    ParseIntOfDigits(hs);
  }

  /** An hour without minutes is shown on the hour. */
  lemma FormatTimeHourOnly(hs: string)
    requires hs != "" && AllDigits(hs)
    ensures var h := DigitsValue(hs);
            FormatTime(hs) == NatToString(ScheduleDesktop.Hour12(h)) + (":00 " + ScheduleDesktop.Meridiem(h))
  {
    DigitsHaveNoColon(hs);
    IndexOfCharAbsent(hs, ':');
    assert SplitOn(hs, ":") == [hs];
    ParseIntOfDigits(hs);
    LabelIsTwelveHour(DigitsValue(hs), "00");
  }

  // ------------------------------------------------------- workshop tag

  /** `generateWorkshopTag(title)` as written: keywords are plain substrings of the lower-cased title. */
  function GenerateWorkshopTag(title: string): (r: string)
    ensures r in {"Data Justice", "AI Ethics", "Afrofuturism", "Education", "Privacy Rights",
                  "Digital Organizing", "Storytelling", "Community", "Workshop"}
    ensures Includes(Lower(title), "data") || Includes(Lower(title), "sovereignty") ==> r == "Data Justice"
    ensures r == "Workshop" ==> !Includes(Lower(title), "community") && !Includes(Lower(title), "ai")
  {
    TagOf(Lower(title))
  }

  /** The rule chain on the lower-cased title. */
  function TagOf(t: string): string {
    if Includes(t, "data") || Includes(t, "sovereignty") then "Data Justice"
    else if Includes(t, "ai") || Includes(t, "algorithm") then "AI Ethics"
    else if Includes(t, "afrofutur") then "Afrofuturism"
    else if Includes(t, "education") || Includes(t, "learn") then "Education"
    else if Includes(t, "privacy") || Includes(t, "surveillance") then "Privacy Rights"
    else if Includes(t, "organizing") || Includes(t, "democracy") then "Digital Organizing"
    else if Includes(t, "writing") || Includes(t, "narrative") then "Storytelling"
    else if Includes(t, "community") || Includes(t, "collaboration") then "Community"
    else "Workshop"
  }

  /**
   * The fallback tag 'Workshop' is given exactly to the titles that contain
   * none of the fifteen keywords.
   */
  lemma WorkshopMeansNoKeyword(t: string)
    ensures TagOf(t) == "Workshop" <==>
              && !Includes(t, "data") && !Includes(t, "sovereignty")
              && !Includes(t, "ai") && !Includes(t, "algorithm")
              && !Includes(t, "afrofutur")
              && !Includes(t, "education") && !Includes(t, "learn")
              && !Includes(t, "privacy") && !Includes(t, "surveillance")
              && !Includes(t, "organizing") && !Includes(t, "democracy")
              && !Includes(t, "writing") && !Includes(t, "narrative")
              && !Includes(t, "community") && !Includes(t, "collaboration")
  {
  }

  /** A keyword with a letter the text lacks is not included in it. */
  lemma NotIncluded(t: string, w: string, j: nat)
    requires j < |w| && w[j] !in t
    ensures !Includes(t, w)
  {
    forall i: nat ensures !OccursAt(t, w, i) {
      if i + |w| <= |t| {
        assert t[i..i + |w|][j] == t[i + j];
        assert t[i + j] in t;
      }
    }
  }

  /** "training" holds "ai" inside the word, and neither keyword of the first rule. */
  lemma TrainingHasAi()
    ensures Includes("training", "ai")
    ensures !Includes("training", "data") && !Includes("training", "sovereignty")
  {
    assert OccursAt("training", "ai", 2);
    NotIncluded("training", "data", 0);
    NotIncluded("training", "sovereignty", 0);
  }

  /** "training" holds none of the keywords of the second to fifth rules. */
  lemma TrainingLacksMiddleKeywords()
    ensures !Includes("training", "algorithm") && !Includes("training", "afrofutur")
    ensures !Includes("training", "education") && !Includes("training", "learn")
    ensures !Includes("training", "privacy") && !Includes("training", "surveillance")
  {
    NotIncluded("training", "algorithm", 1);
    NotIncluded("training", "afrofutur", 1);
    NotIncluded("training", "education", 0);
    NotIncluded("training", "learn", 0);
    NotIncluded("training", "privacy", 0);
    NotIncluded("training", "surveillance", 0);
  }

  /** "training" holds none of the keywords of the last three rules. */
  lemma TrainingLacksLastKeywords()
    ensures !Includes("training", "organizing") && !Includes("training", "democracy")
    ensures !Includes("training", "writing") && !Includes("training", "narrative")
    ensures !Includes("training", "community") && !Includes("training", "collaboration")
  {
    NotIncluded("training", "organizing", 0);
    NotIncluded("training", "democracy", 0);
    NotIncluded("training", "writing", 0);
    NotIncluded("training", "narrative", 7);
    NotIncluded("training", "community", 0);
    NotIncluded("training", "collaboration", 0);
  }

  /**
   * As written, the "ai" keyword matches inside ordinary words, so a
   * workshop called "Training" is tagged 'AI Ethics'.
   */
  lemma TrainingTaggedAiEthics()
    ensures GenerateWorkshopTag("Training") == "AI Ethics"
  {
    assert Lower("Training") == "training";
    TrainingHasAi();
  }

  predicate IsLetter(c: char) {
    'a' <= c <= 'z' || 'A' <= c <= 'Z'
  }

  /** `w` occurs at `i` with no letter directly before or after it. */
  predicate WordAt(t: string, w: string, i: nat) {
    OccursAt(t, w, i) &&
    (i == 0 || !IsLetter(t[i - 1])) &&
    (i + |w| == |t| || !IsLetter(t[i + |w|]))
  }

  /** The first whole-word occurrence of `w` at or after `k`. */
  function FindWord(t: string, w: string, k: nat): (r: Option<nat>)
    ensures r.Some? ==> k <= r.value && WordAt(t, w, r.value)
    ensures r.None? ==> forall i :: k <= i ==> !WordAt(t, w, i)
    decreases |t| - k
  {
    if k + |w| > |t| then None
    else if WordAt(t, w, k) then Some(k)
    else FindWord(t, w, k + 1)
  }

  /** `t` holds `w` as a whole word ("ai", "ai-driven", "(ai)" but not "campaign"). */
  predicate HasWord(t: string, w: string) {
    FindWord(t, w, 0).Some?
  }

  /**
   * The tag as evidently intended: "ai" counts only as a word of its own;
   * every other keyword keeps its substring test ("learn" for "learning",
   * "afrofutur" for "afrofuturism").
   */
  function GenerateWorkshopTagWords(title: string): (r: string)
    ensures r == "AI Ethics" ==>
              HasWord(Lower(title), "ai") || Includes(Lower(title), "algorithm")
  {
    var t := Lower(title);
    if Includes(t, "data") || Includes(t, "sovereignty") then "Data Justice"
    else if HasWord(t, "ai") || Includes(t, "algorithm") then "AI Ethics"
    else if Includes(t, "afrofutur") then "Afrofuturism"
    else if Includes(t, "education") || Includes(t, "learn") then "Education"
    else if Includes(t, "privacy") || Includes(t, "surveillance") then "Privacy Rights"
    else if Includes(t, "organizing") || Includes(t, "democracy") then "Digital Organizing"
    else if Includes(t, "writing") || Includes(t, "narrative") then "Storytelling"
    else if Includes(t, "community") || Includes(t, "collaboration") then "Community"
    else "Workshop"
  }

  /**
   * The intended tag differs from the written one only where "ai" occurs
   * inside a longer word, and then it is the tag the remaining rules give.
   */
  lemma WordTagRefinesTag(title: string)
    ensures var t := Lower(title);
            HasWord(t, "ai") == Includes(t, "ai") ==> GenerateWorkshopTagWords(title) == GenerateWorkshopTag(title)
    ensures HasWord(Lower(title), "ai") ==> Includes(Lower(title), "ai")
  {
    var t := Lower(title);
    if HasWord(t, "ai") {
      assert OccursAt(t, "ai", FindWord(t, "ai", 0).value);
    }
  }

  /** In "training" the only "ai" follows the letter 'r', so it is not a word. */
  lemma TrainingHasNoAiWord()
    ensures !HasWord("training", "ai")
  {
    var t := "training";
    forall i: nat ensures !WordAt(t, "ai", i) {
      if OccursAt(t, "ai", i) {
        assert t[i..i + 2][0] == t[i] == 'a';
        assert i == 2;
        assert IsLetter(t[1]);
      }
    }
  }

  /** With the word rule, "Training" falls through to the plain 'Workshop' tag. */
  lemma TrainingTaggedWorkshop()
    ensures GenerateWorkshopTagWords("Training") == "Workshop"
  {
    assert Lower("Training") == "training";
    TrainingHasAi();
    TrainingLacksMiddleKeywords();
    TrainingLacksLastKeywords();
    TrainingHasNoAiWord();
  }

  // ------------------------------------------------------- presenters

  /** The part of an event's `people` that `formatPresenters` reads: `speakers`, if any. */
  datatype Presenters = Presenters(speakers: Option<seq<string>>)

  /** `formatPresenters(people)`: the speakers' names joined by " & ", or 'Presenters TBD'. */
  function FormatPresenters(people: Option<Presenters>): (r: string)
    ensures people.None? || people.value.speakers.None? || people.value.speakers.value == [] ==>
              r == "Presenters TBD"
  {
    if people.None? || people.value.speakers.None? || |people.value.speakers.value| == 0 then "Presenters TBD"
    else Join(people.value.speakers.value, " & ")
  }

  /** Each part of a joined list occurs in the joined text. */
  lemma {:induction false} JoinIncludesParts(parts: seq<string>, sep: string, k: nat)
    requires k < |parts|
    ensures Includes(Join(parts, sep), parts[k])
  {
    var j := Join(parts, sep);
    if |parts| == 1 {
      assert OccursAt(j, parts[0], 0);
    } else if k == 0 {
      assert j[..|parts[0]|] == parts[0];
      assert OccursAt(j, parts[0], 0);
    } else {
      JoinIncludesParts(parts[1..], sep, k - 1);
      var rest := Join(parts[1..], sep);
      var i: nat :| OccursAt(rest, parts[k], i);
      var off := |parts[0] + sep|;
      assert j == parts[0] + sep + rest;
      assert j[off + i..off + i + |parts[k]|] == rest[i..i + |parts[k]|];
      assert OccursAt(j, parts[k], off + i);
    }
  }

  /**
   * With speakers listed and no name holding '&', the line is exactly the
   * names in order with " & " between them: splitting it on " & " gives
   * the names back.
   */
  lemma PresentersJoinNames(names: seq<string>)
    requires |names| >= 1
    requires forall k :: 0 <= k < |names| ==> '&' !in names[k]
    ensures SplitOn(FormatPresenters(Some(Presenters(Some(names)))), " & ") == names
  {
    var sep := " & ";
    assert sep[1] == '&' && sep[..1] == " ";
    SplitJoinOn(names, sep, 1);
  }

  /**
   * With speakers listed, every speaker's name appears in the line and a
   * single speaker is named alone.
   */
  lemma PresentersNamesEveryone(names: seq<string>)
    requires |names| >= 1
    ensures forall k :: 0 <= k < |names| ==> Includes(FormatPresenters(Some(Presenters(Some(names)))), names[k])
    ensures |names| == 1 ==> FormatPresenters(Some(Presenters(Some(names)))) == names[0]
  {
    forall k | 0 <= k < |names|
      ensures Includes(FormatPresenters(Some(Presenters(Some(names)))), names[k])
    {
      JoinIncludesParts(names, " & ", k);
    }
  }
}
