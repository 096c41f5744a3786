/** Choosing the next wander destination of a Prefab (getNextCoords).

    The entity may move in a direction only when it is strictly inside the
    bound on that side. One eligible direction is drawn at random, then one
    coordinate at random between the entity and the bound; the other
    coordinate stays. The two draws of the engine's random generator are
    parameters here, and the sprite's position and the bounds are integers,
    so the final rounding to whole numbers changes nothing. */
module Wander {

  datatype Coords = Coords(x: int, y: int)

  datatype Bounds = Bounds(top: int, right: int, bottom: int, left: int)

  datatype Direction = Left | Right | Top | Bottom

  /** The order in which directions are listed. */
  function Rank(d: Direction): nat {
    match d
    case Left => 0
    case Right => 1
    case Top => 2
    case Bottom => 3
  }

  /** Moving toward `d` is possible: the position is strictly inside the bound on that side. */
  predicate Eligible(pos: Coords, b: Bounds, d: Direction) {
    match d
    case Left => pos.x > b.left
    case Right => pos.x < b.right
    case Top => pos.y > b.top
    case Bottom => pos.y < b.bottom
  }

  /** The eligible directions, each once, in the order left, right, top, bottom. */
  function Directions(pos: Coords, b: Bounds): (ds: seq<Direction>)
    ensures forall d :: d in ds <==> Eligible(pos, b, d)
    ensures forall i, j :: 0 <= i < j < |ds| ==> Rank(ds[i]) < Rank(ds[j])
  {
    (if pos.x > b.left then [Left] else [])
    + (if pos.x < b.right then [Right] else [])
    + (if pos.y > b.top then [Top] else [])
    + (if pos.y < b.bottom then [Bottom] else [])
  }

  /** `v` lies in the range drawn from for direction `d`: from the bound up to
      one step short of the position (left, top), or from one step past the
      position up to the bound (right, bottom). */
  predicate InSpan(pos: Coords, b: Bounds, d: Direction, v: int) {
    match d
    case Left => b.left <= v <= pos.x - 1
    case Right => pos.x + 1 <= v <= b.right
    case Top => b.top <= v <= pos.y - 1
    case Bottom => pos.y + 1 <= v <= b.bottom
  }

  /** The position moved along `d` to coordinate `v` on that axis. */
  function Toward(pos: Coords, d: Direction, v: int): Coords {
    match d
    case Left => Coords(v, pos.y)
    case Right => Coords(v, pos.y)
    case Top => Coords(pos.x, v)
    case Bottom => Coords(pos.x, v)
  }

  /** The strict comparisons exclude exactly the directions whose range would be empty. */
  lemma EligibleIffSpanNonEmpty(pos: Coords, b: Bounds, d: Direction)
    ensures Eligible(pos, b, d) <==> exists v :: InSpan(pos, b, d, v)
  {
    if Eligible(pos, b, d) {
      var v := match d
        case Left => b.left
        case Right => b.right
        case Top => b.top
        case Bottom => b.bottom;
      assert InSpan(pos, b, d, v);
    }
  }

  /** getNextCoords(bounds), given the two draws of the random generator: `k`,
      the index drawn from [0, |directions| - 1], and `v`, the coordinate
      drawn from the chosen direction's range. With no eligible direction the
      draw of `k` matches no case and the position comes back unchanged. */
  method GetNextCoords(pos: Coords, b: Bounds, k: int, v: int) returns (c: Coords)
    requires Directions(pos, b) != [] ==> 0 <= k < |Directions(pos, b)|
    requires Directions(pos, b) != [] ==> InSpan(pos, b, Directions(pos, b)[k], v)
    ensures Directions(pos, b) == [] ==> c == pos
    ensures Directions(pos, b) != [] ==> c == Toward(pos, Directions(pos, b)[k], v)
    ensures c.x == pos.x || c.y == pos.y
    ensures Directions(pos, b) != [] ==> c != pos
    ensures c.x < pos.x ==> b.left <= c.x
    ensures c.x > pos.x ==> c.x <= b.right
    ensures c.y < pos.y ==> b.top <= c.y
    ensures c.y > pos.y ==> c.y <= b.bottom
  {
    var directions: seq<Direction> := [];
    if pos.x > b.left {
      directions := directions + [Left];
    }
    if pos.x < b.right {
      directions := directions + [Right];
    }
    if pos.y > b.top {
      directions := directions + [Top];
    }
    if pos.y < b.bottom {
      directions := directions + [Bottom];
    }
    assert directions == Directions(pos, b);

    var x, y := pos.x, pos.y;
    if 0 <= k < |directions| {
      match directions[k]
      case Left => x := v;
      case Right => x := v;
      case Top => y := v;
      case Bottom => y := v;
    }
    c := Coords(x, y);
  }
}
