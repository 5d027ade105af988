/**
 * notice-coalition/notice-fellowship/js/main.js: the fellow biography
 * modal, the essays carousel (cards per view by width, a clamped index,
 * indicators, dimmed arrows), the essay cards' fallbacks, and the essay
 * modal's author portraits and external links.
 */
module Fellowship {
  import opened Wrappers
  import opened Strings
  import Carousel

  // ------------------------------------------------------- fellow modal

  /** An entry of `fellowData`. */
  datatype Fellow = Fellow(location: string, bio: seq<string>)

  const AltPrefix: string := "NDAUWU Fellow "

  /** `img.alt.replace('NDAUWU Fellow ', '')` */
  function FellowName(alt: string): (r: string)
    ensures !Includes(alt, AltPrefix) ==> r == alt
    ensures Includes(alt, AltPrefix) ==> |r| == |alt| - |AltPrefix|
  {
    ReplaceFirst(alt, AltPrefix, "")
  }

  /** A portrait labelled "NDAUWU Fellow <name>" names that fellow. */
  lemma FellowNameOfAlt(name: string)
    ensures FellowName(AltPrefix + name) == name
  {
    ReplacePrefix(AltPrefix, name);
  }

  /** The fellow biography modal and the page's scroll lock. */
  class FellowModal {
    var open: bool
    var name: string
    var location: string
    var paragraphs: seq<string>
    var scrollLocked: bool

    constructor ()
      ensures !open && !scrollLocked
    {
      open := false;
      name := "";
      location := "";
      paragraphs := [];
      scrollLocked := false;
    }

    /**
     * A click on a fellow card: the modal opens, filled from `fellowData`,
     * only when the name taken from the portrait's alt text is a key.
     */
    method CardClick(alt: string, data: map<string, Fellow>)
      modifies this
      ensures var n := FellowName(alt);
              if n in data then
                open && scrollLocked && name == n &&
                location == data[n].location && paragraphs == data[n].bio
              else
                open == old(open) && scrollLocked == old(scrollLocked) && name == old(name) &&
                location == old(location) && paragraphs == old(paragraphs)
    {
      var n := FellowName(alt);
      if n in data {
        name := n;
        location := data[n].location;
        paragraphs := data[n].bio;
        open := true;
        scrollLocked := true;
      }
    }

    /** The close button, or a click on the modal's backdrop. */
    method Close()
      modifies this`open, this`scrollLocked
      ensures !open && !scrollLocked
    {
      open := false;
      scrollLocked := false;
    }
  }

  // ---------------------------------------------------- essays carousel

  /** `updateCardsPerView`: 1 up to 768px, 2 up to 1024px, 3 above. */
  function CardsPerView(width: int): (r: int)
    ensures 1 <= r <= 3
    ensures width <= 768 ==> r == 1
    ensures 768 < width <= 1024 ==> r == 2
    ensures width > 1024 ==> r == 3
  {
    if width <= 768 then 1 else if width <= 1024 then 2 else 3
  }

  /** A wider window never shows fewer cards. */
  lemma CardsPerViewMonotone(w1: int, w2: int)
    requires w1 <= w2
    ensures CardsPerView(w1) <= CardsPerView(w2)
  {
  }

  /** The last index the arrows can reach: `Math.max(0, essays.length - cardsPerView)`. */
  function MaxIndex(n: int, perView: int): int {
    Carousel.Max(0, n - perView)
  }

  /**
   * `Math.max(1, essays.length - cardsPerView + 1)` indicators: one for
   * each reachable index.
   */
  function IndicatorCount(n: int, perView: int): (r: nat)
    ensures r >= 1
    ensures r == MaxIndex(n, perView) + 1
  {
    Carousel.Max(1, n - perView + 1)
  }

  /** Card pitch in pixels: a 550px card and a 32px gap. */
  const CardPitch: int := 550 + 32

  /**
   * The essays carousel: `currentIndex`, `cardsPerView` and the number of
   * `essays`, with what `updateCarousel` and `updateIndicators` last drew.
   */
  class EssayCarousel {
    var essayCount: nat
    var currentIndex: int
    var cardsPerView: int
    var navHidden: bool
    var prevDimmed: bool
    var nextDimmed: bool
    var offset: int
    var indicators: seq<bool>

    /** The index stays between 0 and the last reachable index. */
    ghost predicate Valid()
      reads this
    {
      1 <= cardsPerView <= 3 && 0 <= currentIndex <= MaxIndex(essayCount, cardsPerView)
    }

    /** The display matches the state. */
    ghost predicate Rendered()
      reads this
    {
      indicators == Carousel.Indicators(IndicatorCount(essayCount, cardsPerView), currentIndex) &&
      (essayCount == 1 ==> navHidden && offset == 0) &&
      (essayCount != 1 ==>
        !navHidden && offset == -(currentIndex * CardPitch) &&
        prevDimmed == (currentIndex == 0) &&
        nextDimmed == (currentIndex >= essayCount - cardsPerView))
    }

    /** Before `initCarousel`: no essays, index 0, three cards per view. */
    constructor ()
      ensures essayCount == 0 && currentIndex == 0 && cardsPerView == 3
      ensures Valid()
    {
      essayCount := 0;
      currentIndex := 0;
      cardsPerView := 3;
      navHidden := false;
      prevDimmed := false;
      nextDimmed := false;
      offset := 0;
      indicators := [];
    }

    /** `updateIndicators` */
    method UpdateIndicators()
      modifies this`indicators
      ensures indicators == Carousel.Indicators(IndicatorCount(essayCount, cardsPerView), currentIndex)
    {
      var total := IndicatorCount(essayCount, cardsPerView);
      var row: seq<bool> := [];
      var i := 0;
      while i < total
        invariant 0 <= i <= total
        invariant row == Carousel.Indicators(i, currentIndex)
      {
        row := row + [i == currentIndex];
        i := i + 1;
      }
      indicators := row;
    }

    /**
     * `updateCarousel`: a single essay hides the arrows and indicators;
     * otherwise the track is shifted to the current card and an arrow is
     * dimmed at its end of the range.
     */
    method UpdateCarousel()
      modifies this`navHidden, this`prevDimmed, this`nextDimmed, this`offset, this`indicators
      ensures Rendered()
      ensures essayCount == 1 ==> prevDimmed == old(prevDimmed) && nextDimmed == old(nextDimmed)
    {
      if essayCount == 1 {
        offset := 0;
        navHidden := true;
      } else {
        offset := -(currentIndex * CardPitch);
        navHidden := false;
        prevDimmed := currentIndex == 0;
        nextDimmed := currentIndex >= essayCount - cardsPerView;
      }
      UpdateIndicators();
    }

    /**
     * `updateCardsPerView` (on load and on every resize): pick the cards
     * per view, pull an index past the new last index back to it, redraw.
     */
    method UpdateCardsPerView(width: int)
      requires currentIndex >= 0
      modifies this
      ensures essayCount == old(essayCount)
      ensures cardsPerView == CardsPerView(width)
      ensures currentIndex == (if old(currentIndex) > essayCount - cardsPerView
                               then MaxIndex(essayCount, cardsPerView) else old(currentIndex))
      ensures Valid() && Rendered()
    {
      cardsPerView := CardsPerView(width);
      if currentIndex > essayCount - cardsPerView {
        currentIndex := Carousel.Max(0, essayCount - cardsPerView);
      }
      UpdateCarousel();
    }

    /** `initCarousel`: load the essays, size the view, draw the indicators. */
    method InitCarousel(count: nat, width: int)
      requires Valid()
      modifies this
      ensures essayCount == count && cardsPerView == CardsPerView(width)
      ensures currentIndex == (if old(currentIndex) > count - cardsPerView
                               then MaxIndex(count, cardsPerView) else old(currentIndex))
      ensures Valid() && Rendered()
    {
      essayCount := count;
      UpdateCardsPerView(width);
      UpdateIndicators();
    }

    /** The previous arrow: step back unless at the first card. */
    method PrevClick()
      requires Valid() && Rendered()
      modifies this
      ensures essayCount == old(essayCount) && cardsPerView == old(cardsPerView)
      ensures currentIndex == (if old(currentIndex) > 0 then old(currentIndex) - 1 else old(currentIndex))
      ensures Valid() && Rendered()
    {
      if currentIndex > 0 {
        currentIndex := currentIndex - 1;
        UpdateCarousel();
      }
    }

    /** The next arrow: step forward unless the last cards are already in view. */
    method NextClick()
      requires Valid() && Rendered()
      modifies this
      ensures essayCount == old(essayCount) && cardsPerView == old(cardsPerView)
      ensures currentIndex == (if old(currentIndex) < essayCount - cardsPerView
                               then old(currentIndex) + 1 else old(currentIndex))
      ensures Valid() && Rendered()
    {
      if currentIndex < essayCount - cardsPerView {
        currentIndex := currentIndex + 1;
        UpdateCarousel();
      }
    }

    /** Indicator `i` jumps to index `i`. */
    method IndicatorClick(i: nat)
      requires Valid() && Rendered() && i < |indicators|
      modifies this
      ensures essayCount == old(essayCount) && cardsPerView == old(cardsPerView)
      ensures currentIndex == i
      ensures Valid() && Rendered()
    {
      currentIndex := i;
      UpdateCarousel();
    }
  }

  /**
   * On a carousel with more than one essay, an arrow is dimmed exactly at
   * its end of the range, so a dimmed arrow is exactly one that does
   * nothing when clicked.
   */
  lemma DimmedAtEnds(n: nat, index: int, perView: int)
    requires n != 1 && 1 <= perView && 0 <= index <= MaxIndex(n, perView)
    ensures index >= n - perView <==> index == MaxIndex(n, perView)
    ensures !(index < n - perView) <==> index == MaxIndex(n, perView)
  {
  }

  /** Exactly one indicator is lit, the one for the current index. */
  lemma OneIndicatorLit(c: EssayCarousel)
    requires c.Valid() && c.Rendered()
    ensures |c.indicators| == IndicatorCount(c.essayCount, c.cardsPerView)
    ensures c.indicators[c.currentIndex]
    ensures forall j :: 0 <= j < |c.indicators| && c.indicators[j] ==> j == c.currentIndex
  {
  }

  // -------------------------------------------------------- essay cards

  /** An essay; an empty string stands for a missing field (both are falsy). */
  datatype Essay = Essay(id: string, title: string, authors: string, source: string,
                         excerpt: string, date: string, imageUrl: string,
                         substackUrl: string, mediumUrl: string)

  const DefaultEssayImage: string := "https://images.squarespace-cdn.com/content/5b9081c58ab7224793278e1d/1f54c545-b44e-4bb5-b1c5-02ac5efee0a9/F6.png?content-type=image%2Fpng"
  const DefaultExcerpt: string := "Afrofuturist reflections on building grassroots infrastructures for digital liberation."

  /** JavaScript's `s || fallback` on a string. */
  function OrElse(s: string, fallback: string): string {
    if s == "" then fallback else s
  }

  /** What `createEssayCard(essay, index)` shows. */
  datatype EssayCard = EssayCard(latest: bool, id: string, image: string, source: string,
                                 title: string, excerpt: string, date: string)

  function CreateEssayCard(e: Essay, index: int): (r: EssayCard)
    ensures r.latest <==> index == 0
    ensures r.title == e.title
    ensures r.id != "" && r.image != "" && r.source != "" && r.excerpt != "" && r.date != ""
    ensures e.id != "" ==> r.id == e.id
    ensures e.id == "" ==> r.id == "default"
    ensures e.source == "" ==> r.source == "NOTICE Coalition"
    ensures e.date == "" ==> r.date == "Coming Soon"
    ensures e.excerpt == "" ==> r.excerpt == DefaultExcerpt
    ensures e.imageUrl == "" ==> r.image == DefaultEssayImage
  {
    EssayCard(index == 0, OrElse(e.id, "default"), OrElse(e.imageUrl, DefaultEssayImage),
              OrElse(e.source, "NOTICE Coalition"), e.title, OrElse(e.excerpt, DefaultExcerpt),
              OrElse(e.date, "Coming Soon"))
  }

  /** `essays.map((essay, index) => createEssayCard(essay, index))` */
  function EssayCards(es: seq<Essay>): (r: seq<EssayCard>)
    ensures |r| == |es|
    ensures forall k :: 0 <= k < |es| ==> r[k] == CreateEssayCard(es[k], k)
  {
    seq(|es|, k requires 0 <= k < |es| => CreateEssayCard(es[k], k))
  }

  /** Only the first card is marked as the latest essay. */
  lemma OnlyFirstIsLatest(es: seq<Essay>)
    ensures forall k :: 0 <= k < |es| ==> (EssayCards(es)[k].latest <==> k == 0)
  {
  }

  /** `essays.find(e => e.id === id)` */
  function FindEssay(es: seq<Essay>, id: string): (r: Option<Essay>)
    ensures r.Some? ==> r.value in es && r.value.id == id
    ensures r.Some? ==> exists k :: 0 <= k < |es| && es[k] == r.value &&
                                   forall j :: 0 <= j < k ==> es[j].id != id
    ensures r.None? <==> forall e :: e in es ==> e.id != id
  {
    if es == [] then None
    else if es[0].id == id then Some(es[0])
    else
      assert forall e :: e in es ==> e == es[0] || e in es[1..];
      FindEssay(es[1..], id)
  }

  /** The essay a click on card `k` opens: the card's id looked up among the essays. */
  function ClickedEssay(es: seq<Essay>, k: nat): Option<Essay>
    requires k < |es|
  {
    FindEssay(es, EssayCards(es)[k].id)
  }

  /** A card whose essay has its own id opens an essay with that id. */
  lemma CardWithIdOpens(es: seq<Essay>, k: nat)
    requires k < |es| && es[k].id != ""
    ensures ClickedEssay(es, k).Some? && ClickedEssay(es, k).value.id == es[k].id
  {
    assert es[k] in es;
  }

  /** A card whose essay has no id carries "default" and opens nothing, unless some essay is called "default". */
  lemma CardWithoutIdOpensNothing(es: seq<Essay>, k: nat)
    requires k < |es| && es[k].id == ""
    requires forall e :: e in es ==> e.id != "default"
    ensures ClickedEssay(es, k) == None
  {
  }

  // ------------------------------------------------------- essay modal

  /** Which side of the modal an author's portrait sits on. */
  datatype AuthorSide = LeftSide | RightSide

  datatype Portrait = Portrait(author: string, image: string, side: AuthorSide)

  const DefaultAuthorImage: string := "https://images.squarespace-cdn.com/content/5b9081c58ab7224793278e1d/0424f978-c6c8-437a-b310-bf03f110d3cc/Notice+Logo+Design+F-02.png?content-type=image%2Fpng"

  /** `authorImages[author] || defaultAuthorImage` */
  function AuthorImage(images: map<string, string>, author: string): (r: string)
    ensures author in images && images[author] != "" ==> r == images[author]
    ensures author !in images ==> r == DefaultAuthorImage
  {
    if author in images then OrElse(images[author], DefaultAuthorImage) else DefaultAuthorImage
  }

  /** `essay.authors.split(' & ').map(author => author.trim())` */
  function Authors(authors: string): (r: seq<string>)
    ensures |r| == |SplitOn(authors, " & ")|
    ensures forall k :: 0 <= k < |r| ==> r[k] == Trim(SplitOn(authors, " & ")[k])
  {
    var parts := SplitOn(authors, " & ");
    seq(|parts|, k requires 0 <= k < |parts| => Trim(parts[k]))
  }

  /** The split pieces, joined back with " & ", give the byline unchanged. */
  lemma AuthorsCoverByline(authors: string)
    ensures Join(SplitOn(authors, " & "), " & ") == authors
  {
    JoinSplitOn(authors, " & ");
  }

  /** A byline without " & " is one author, trimmed. */
  lemma SingleAuthor(authors: string)
    requires !Includes(authors, " & ")
    ensures Authors(authors) == [Trim(authors)]
  {
    SplitOnAbsent(authors, " & ");
    var r := Authors(authors);
    assert |r| == 1 && r[0] == Trim(authors);
  }

  /**
   * The portraits for the byline's `names` (`Authors(essay.authors)`):
   * even positions on the left, odd on the right.
   */
  function Portraits(images: map<string, string>, names: seq<string>): (r: seq<Portrait>)
    ensures |r| == |names|
    ensures forall k :: 0 <= k < |r| ==> r[k].author == names[k] &&
                                          r[k].image == AuthorImage(images, names[k])
    ensures forall k :: 0 <= k < |r| ==> (r[k].side == LeftSide <==> k % 2 == 0)
  {
    seq(|names|, k requires 0 <= k < |names| =>
      Portrait(names[k], AuthorImage(images, names[k]), if k % 2 == 0 then LeftSide else RightSide))
  }

  /** Neighbouring portraits sit on opposite sides. */
  lemma PortraitsAlternate(images: map<string, string>, names: seq<string>, k: nat)
    requires k + 1 < |names|
    ensures Portraits(images, names)[k].side != Portraits(images, names)[k + 1].side
  {
    var r := Portraits(images, names);
    assert (r[k].side == LeftSide) == (k % 2 == 0);
    assert (r[k + 1].side == LeftSide) == ((k + 1) % 2 == 0);
  }

  /** The "continue reading" links. */
  datatype ExternalLink = Substack(url: string) | Medium(url: string)

  /** A link is offered only for a URL that is not blank. */
  function ExternalLinks(e: Essay): (r: seq<ExternalLink>)
    ensures Substack(e.substackUrl) in r <==> !IsBlank(e.substackUrl)
    ensures Medium(e.mediumUrl) in r <==> !IsBlank(e.mediumUrl)
    ensures forall l :: l in r ==> l == Substack(e.substackUrl) || l == Medium(e.mediumUrl)
    ensures |r| == 2 ==> r[0].Substack? && r[1].Medium?
  {
    (if Trim(e.substackUrl) != "" then [Substack(e.substackUrl)] else []) +
    (if Trim(e.mediumUrl) != "" then [Medium(e.mediumUrl)] else [])
  }
}
