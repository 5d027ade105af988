/**
 * main/fee-hub/main.js: the service cards that expand one at a time (the
 * expanded card is moved to the body and put back where it came from),
 * the mobile navigation toggle, and the interactive square grid behind
 * each card (its layout and the twinkle counter). The testimonial wheel
 * is `Carousel.Wheel` with four opacity tiers.
 */
module FeeHub {
  import opened Wrappers
  import opened Strings

  // ------------------------------------------------------- expanded card

  /** Where a card sits in the document. */
  datatype Location =
    | InBody
      /** Child of `parent`, just before `next`, or the last child when `next` is `None`. */
    | Placed(parent: nat, next: Option<nat>)

  /**
   * `expandedCard`, `cardOriginalParent` and `cardOriginalNextSibling`,
   * the overlay and the body's scroll lock, and each card's location.
   */
  class CardExpansion {
    var expandedCard: Option<nat>
    var originalParent: Option<nat>
    var originalNextSibling: Option<nat>
    var overlayActive: bool
    var scrollLocked: bool
    var location: map<nat, Location>

    /**
     * At most one card is expanded: it is the only card in the body, the
     * overlay and the scroll lock are on exactly while it is, and its
     * original place is saved.
     */
    ghost predicate Valid()
      reads this
    {
      && (forall c :: c in location && location[c] == InBody ==> expandedCard == Some(c))
      && (expandedCard.Some? ==>
            expandedCard.value in location && location[expandedCard.value] == InBody &&
            originalParent.Some?)
      && (expandedCard.None? ==> originalParent.None? && originalNextSibling.None?)
      && overlayActive == expandedCard.Some?
      && scrollLocked == expandedCard.Some?
    }

    /** The page as loaded: every card in its grid, none expanded. */
    constructor (cards: map<nat, Location>)
      requires forall c :: c in cards ==> cards[c].Placed?
      ensures location == cards && expandedCard.None?
      ensures Valid()
    {
      location := cards;
      expandedCard := None;
      originalParent := None;
      originalNextSibling := None;
      overlayActive := false;
      scrollLocked := false;
    }

    /**
     * `collapseCard(card)` for the expanded card (or when none is): put it
     * back before its saved sibling, or last in its saved parent, and
     * forget the bookkeeping.
     */
    method CollapseCard(card: nat)
      requires Valid() && (expandedCard.None? || expandedCard == Some(card))
      requires expandedCard.None? ==> card !in location || location[card].Placed?
      modifies this
      ensures Valid() && expandedCard.None?
      ensures old(originalParent).Some? ==>
                location == old(location)[card := Placed(old(originalParent).value, old(originalNextSibling))]
      ensures old(originalParent).None? ==> location == old(location)
    {
      overlayActive := false;
      scrollLocked := false;
      if originalParent.Some? {
        location := location[card := Placed(originalParent.value, originalNextSibling)];
      }
      expandedCard := None;
      originalParent := None;
      originalNextSibling := None;
    }

    /**
     * `expandCard(card)`: collapse whatever is expanded, save the card's
     * place, move it to the body.
     */
    method ExpandCard(card: nat)
      requires Valid() && card in location && (location[card].Placed? || expandedCard == Some(card))
      modifies this
      ensures Valid() && expandedCard == Some(card) && overlayActive && scrollLocked
      ensures var before := if old(expandedCard).Some? && old(originalParent).Some?
                            then old(location)[old(expandedCard).value := Placed(old(originalParent).value, old(originalNextSibling))]
                            else old(location);
              before[card].Placed? ==>
                originalParent == Some(before[card].parent) && originalNextSibling == before[card].next &&
                location == before[card := InBody]
    {
      if expandedCard.Some? {
        CollapseCard(expandedCard.value);
      }
      match location[card] {
        case Placed(p, n) =>
          originalParent := Some(p);
          originalNextSibling := n;
        case InBody =>
          assert false;
      }
      location := location[card := InBody];
      overlayActive := true;
      scrollLocked := true;
      expandedCard := Some(card);
    }

    /**
     * A click on a card: ignored on the expanded card itself and on its
     * action buttons; otherwise the card expands.
     */
    method CardClick(card: nat, onActions: bool)
      requires Valid() && card in location
      modifies this
      ensures Valid()
      ensures old(expandedCard) == Some(card) || onActions ==>
                expandedCard == old(expandedCard) && location == old(location)
      ensures old(expandedCard) != Some(card) && !onActions ==> expandedCard == Some(card)
    {
      if expandedCard == Some(card) {
        return;
      }
      if !onActions {
        ExpandCard(card);
      }
    }

    /** The overlay, Escape and the "Contact Us" buttons collapse only when a card is expanded. */
    method Dismiss()
      requires Valid()
      modifies this
      ensures Valid() && expandedCard.None?
      ensures old(expandedCard).None? ==> location == old(location)
    {
      if expandedCard.Some? {
        CollapseCard(expandedCard.value);
      }
    }
  }

  /** Expanding a card and collapsing it again puts every card back where it was. */
  method ExpandCollapseRestores(e: CardExpansion, card: nat)
    requires e.Valid() && e.expandedCard.None? && card in e.location
    modifies e
    ensures e.Valid() && e.expandedCard.None? && e.location == old(e.location)
  {
    ghost var before := e.location;
    e.ExpandCard(card);
    e.CollapseCard(card);
    assert e.location == before[card := before[card]];
  }

  // ------------------------------------------------------------- nav bar

  /** The navigation bar: the toggle's `aria-expanded` text, the menu, the scrolled style. */
  class Nav {
    var ariaExpanded: string
    var menuActive: bool
    var scrolled: bool

    constructor ()
      ensures ariaExpanded == "false" && !menuActive && !scrolled
    {
      ariaExpanded := "false";
      menuActive := false;
      scrolled := false;
    }

    /** The toggle: flip `aria-expanded` (as read) and the menu's `active` class. */
    method Toggle()
      modifies this`ariaExpanded, this`menuActive
      ensures ariaExpanded == (if old(ariaExpanded) == "true" then "false" else "true")
      ensures menuActive == !old(menuActive)
      ensures (old(ariaExpanded) == "true") == old(menuActive) ==> (ariaExpanded == "true") == menuActive
    {
      var isExpanded := ariaExpanded == "true";
      ariaExpanded := if !isExpanded then "true" else "false";
      menuActive := !menuActive;
    }

    /** The scroll handler: the bar is styled as scrolled past 50px. */
    method Scroll(y: int)
      modifies this`scrolled
      ensures scrolled <==> y > 50
    {
      scrolled := y > 50;
    }
  }

  /** Two toggles restore a menu that started in step with its attribute. */
  method ToggleTwice(n: Nav)
    requires n.ariaExpanded == "true" || n.ariaExpanded == "false"
    modifies n
    ensures n.ariaExpanded == old(n.ariaExpanded) && n.menuActive == old(n.menuActive)
  {
    n.Toggle();
    n.Toggle();
  }

  // --------------------------------------------------------- square grid

  /** `squareSize` */
  const SquareSize: nat := 40

  /** `Math.ceil(length / 40)` for a canvas length in whole pixels. */
  function CeilDiv40(length: nat): (r: nat)
    ensures r * SquareSize >= length
    ensures r > 0 ==> (r - 1) * SquareSize < length
  {
    (length + 39) / 40
  }

  /** One grid square (its animation fields start out cleared). */
  datatype Square = Square(x: nat, y: nat, id: string)

  /** The id `${row}_${col}` */
  function SquareId(row: nat, col: nat): (r: string)
    ensures ParseInt(r) == Some(row)
    ensures |r| > |NatToString(col)| && r[|r| - |NatToString(col)|..] == NatToString(col)
  {
    var tail := "_" + NatToString(col);
    ParseIntPrefix(row, tail);
    assert NatToString(row) + "_" + NatToString(col) == NatToString(row) + tail;
    NatToString(row) + "_" + NatToString(col)
  }

  function SquareAt(row: nat, col: nat): Square {
    Square(col * SquareSize, row * SquareSize, SquareId(row, col))
  }

  /** Row `row`, left to right. */
  function GridRow(row: nat, cols: nat): (r: seq<Square>)
    ensures |r| == cols
    ensures forall c :: 0 <= c < cols ==> r[c] == SquareAt(row, c)
  {
    seq(cols, c requires 0 <= c < cols => SquareAt(row, c))
  }

  /** The first `rows` rows, top to bottom. */
  function Grid(rows: nat, cols: nat): (r: seq<Square>)
    ensures |r| == rows * cols
  {
    if rows == 0 then []
    else
      assert rows * cols == (rows - 1) * cols + cols;
      Grid(rows - 1, cols) + GridRow(rows - 1, cols)
  }

  lemma RowMajorBound(row: nat, rows: nat, cols: nat, col: nat)
    requires row < rows && col < cols
    ensures row * cols + col < rows * cols
  {
    assert row * cols + cols <= rows * cols by {
      assert (row + 1) * cols <= rows * cols;
    }
  }

  /** The grid is row-major: the square of (row, col) is at `row * cols + col`. */
  lemma {:induction false} GridAt(rows: nat, cols: nat, row: nat, col: nat)
    requires row < rows && col < cols
    ensures row * cols + col < |Grid(rows, cols)|
    ensures Grid(rows, cols)[row * cols + col] == SquareAt(row, col)
  {
    RowMajorBound(row, rows, cols, col);
    if row < rows - 1 {
      GridAt(rows - 1, cols, row, col);
    } else {
      assert row * cols == (rows - 1) * cols;
    }
  }

  /** `generateSquareGrid()` over a canvas `width` × `height` pixels. */
  method GenerateSquareGrid(width: nat, height: nat) returns (squares: seq<Square>)
    ensures squares == Grid(CeilDiv40(height), CeilDiv40(width))
  {
    var cols := (width + 39) / 40;
    var rows := (height + 39) / 40;
    squares := [];
    var row := 0;
    while row < rows
      invariant 0 <= row <= rows
      invariant squares == Grid(row, cols)
    {
      var col := 0;
      var line: seq<Square> := [];
      while col < cols
        invariant 0 <= col <= cols
        invariant line == GridRow(row, col)
      {
        line := line + [Square(col * SquareSize, row * SquareSize, NatToString(row) + "_" + NatToString(col))];
        col := col + 1;
      }
      squares := squares + line;
      row := row + 1;
    }
  }

  /** A square's id gives its row and column back, so ids are distinct. */
  lemma SquareIdRoundTrip(row: nat, col: nat)
    ensures |SplitOn(SquareId(row, col), "_")| == 2
    ensures ParseInt(SplitOn(SquareId(row, col), "_")[0]) == Some(row)
    ensures ParseInt(SplitOn(SquareId(row, col), "_")[1]) == Some(col)
  {
    NatToStringHasNo(row, '_');
    NatToStringHasNo(col, '_');
    SplitOnce(NatToString(row), '_', NatToString(col));
    ParseIntOfNatToString(row);
    ParseIntOfNatToString(col);
  }

  lemma SquareIdsDistinct(r1: nat, c1: nat, r2: nat, c2: nat)
    requires SquareId(r1, c1) == SquareId(r2, c2)
    ensures r1 == r2 && c1 == c2
  {
    SquareIdRoundTrip(r1, c1);
    SquareIdRoundTrip(r2, c2);
  }

  // ------------------------------------------------------------- twinkle

  /** `twinkleDuration`, in frames. */
  const TwinkleDuration: nat := 180

  /** A square's twinkle fields; `glowOff` says the glow was reset to 0. */
  datatype Twinkle = Twinkle(isTwinkling: bool, frame: nat, glowOff: bool)

  /** The twinkle part of one `animate()` frame for one square. */
  function TwinkleStep(t: Twinkle): (r: Twinkle)
    ensures !t.isTwinkling ==> r == t
    ensures r.isTwinkling ==> t.isTwinkling && r.frame == t.frame + 1 && r.frame < TwinkleDuration && !r.glowOff
    ensures t.isTwinkling && !r.isTwinkling ==> t.frame + 1 >= TwinkleDuration && r.frame == 0 && r.glowOff
  {
    if !t.isTwinkling then t
    else if t.frame + 1 >= TwinkleDuration then Twinkle(false, 0, true)
    else Twinkle(true, t.frame + 1, false)
  }

  function TwinkleSteps(t: Twinkle, k: nat): Twinkle {
    if k == 0 then t else TwinkleStep(TwinkleSteps(t, k - 1))
  }

  /**
   * A twinkle started at frame 0 runs for 179 frames and stops, with its
   * counter and glow reset, on the 180th.
   */
  lemma {:induction false} TwinkleLasts(k: nat)
    ensures k < TwinkleDuration ==> TwinkleSteps(Twinkle(true, 0, false), k) == Twinkle(true, k, false)
    ensures k == TwinkleDuration ==> TwinkleSteps(Twinkle(true, 0, false), k) == Twinkle(false, 0, true)
  {
    if k > 0 {
      TwinkleLasts(k - 1);
    }
  }

  /** The per-frame loop over all squares. */
  method AnimateTwinkles(ts: seq<Twinkle>) returns (r: seq<Twinkle>)
    ensures |r| == |ts|
    ensures forall i :: 0 <= i < |ts| ==> r[i] == TwinkleStep(ts[i])
  {
    r := [];
    var i := 0;
    while i < |ts|
      invariant 0 <= i <= |ts| && |r| == i
      invariant forall j :: 0 <= j < i ==> r[j] == TwinkleStep(ts[j])
    {
      var t := ts[i];
      if t.isTwinkling {
        if t.frame + 1 >= TwinkleDuration {
          t := Twinkle(false, 0, true);
        } else {
          t := Twinkle(true, t.frame + 1, false);
        }
      }
      r := r + [t];
      i := i + 1;
    }
  }
}
