/**
 * main/js/about.js: the drifting team cards' rectangle tests and their
 * collision response, board-member classification, the member popup's
 * biography and the pillar colours (the last two from `TeamBio`).
 */
module About {
  import opened Wrappers
  import opened Strings
  import TeamBio

  /** `cardSize` */
  const CardWidth: real := 250.0
  const CardHeight: real := 350.0

  /** A card's top-left corner. */
  datatype Position = Position(x: real, y: real)

  /**
   * `isColliding(a, b)`: the two 250×350 boxes intersect with positive area,
   * that is, their corners are closer than a card's width horizontally and a
   * card's height vertically.
   */
  predicate IsColliding(a: Position, b: Position)
    ensures IsColliding(a, b) <==> AbsReal(a.x - b.x) < CardWidth && AbsReal(a.y - b.y) < CardHeight
  {
    a.x < b.x + CardWidth && a.x + CardWidth > b.x &&
    a.y < b.y + CardHeight && a.y + CardHeight > b.y
  }

  function AbsReal(r: real): real { if r < 0.0 then -r else r }

  /**
   * The collision test is symmetric, and cards that only touch along an
   * edge do not collide.
   */
  lemma CollidingIsCloseness(a: Position, b: Position)
    ensures IsColliding(a, b) <==> IsColliding(b, a)
    ensures AbsReal(a.x - b.x) == CardWidth || AbsReal(a.y - b.y) == CardHeight ==> !IsColliding(a, b)
  {
  }

  /** `isOverlapping(position, existingCards)`: `existingCards.some(...)`. */
  function IsOverlapping(p: Position, cards: seq<Position>): (r: bool)
    ensures r <==> exists k :: 0 <= k < |cards| && IsColliding(p, cards[k])
  {
    if cards == [] then false
    else
      assert forall k :: 1 <= k < |cards| ==> cards[k] == cards[1..][k - 1];
      IsColliding(p, cards[0]) || IsOverlapping(p, cards[1..])
  }

  /** A card's position and velocity, updated in place by the animation. */
  class DriftCard {
    var pos: Position
    var vx: real
    var vy: real

    constructor (pos: Position, vx: real, vy: real)
      ensures this.pos == pos && this.vx == vx && this.vy == vy
    {
      this.pos := pos;
      this.vx := vx;
      this.vy := vy;
    }
  }

  /**
   * The collision response inside `animateCards` for `card` and one
   * `otherCard`: a distinct card that collides exchanges velocity pairs
   * with it; otherwise nothing changes.
   */
  method CollisionResponse(card: DriftCard, other: DriftCard)
    modifies card, other
    ensures card != other && IsColliding(old(card.pos), old(other.pos)) ==>
              card.vx == old(other.vx) && card.vy == old(other.vy) &&
              other.vx == old(card.vx) && other.vy == old(card.vy)
    ensures card == other || !IsColliding(old(card.pos), old(other.pos)) ==>
              card.vx == old(card.vx) && card.vy == old(card.vy) &&
              other.vx == old(other.vx) && other.vy == old(other.vy)
    ensures card.pos == old(card.pos) && other.pos == old(other.pos)
  {
    if card != other {
      if IsColliding(card.pos, other.pos) {
        var tempVx := card.vx;
        var tempVy := card.vy;
        card.vx := other.vx;
        card.vy := other.vy;
        other.vx := tempVx;
        other.vy := tempVy;
      }
    }
  }

  /** `member.role === "TCIA Board Member"` */
  predicate IsBoardMember(role: string) {
    role == "TCIA Board Member"
  }

  /** `createPillars()` over the four organisation pillars. */
  const OrgPillars: seq<string> := [
    "People (Human Centered) & Education",
    "Climate Change (Energy) & Technology",
    "Governance (Democracy Centered) & Infrastructure",
    "Building (Architectural Insight) & Health"
  ]

  /** about.js draws every pillar unconditionally, pillar i in colour i mod 7. */
  function CreatePillars(): (r: seq<TeamBio.Pillar>)
    ensures |r| == 4
    ensures forall i :: 0 <= i < 4 ==> r[i].color == TeamBio.TciaColors[i]
  {
    TeamBio.Pillars(OrgPillars)
  }
}
