/**
 * The rules of the single-player snake that runs in the browser client
 * (src/App.jsx, component Game): the key-to-direction rule, the wrap-around
 * at the board edges and the tick that moves, grows or stops the snake.
 * A snake is its trail of segments, head first.
 */
module SnakeRules {
  import opened Grid

  /** One of the four unit steps on the ground plane. */
  predicate IsHeading(d: Point)
  {
    d.y == 0 && ((d.x == 0 && (d.z == 1 || d.z == -1)) || (d.z == 0 && (d.x == 1 || d.x == -1)))
  }

  function Reverse(d: Point): Point
  {
    Point(-d.x, -d.y, -d.z)
  }

  lemma HeadingIsNotItsReverse(d: Point)
    requires IsHeading(d)
    ensures d != Reverse(d)
  {
    assert d.x != 0 || d.z != 0;
  }

  datatype Key = ArrowUp | ArrowDown | ArrowLeft | ArrowRight | OtherKey

  /** The heading an arrow key asks for: up is -z, down is +z, left is -x, right is +x. */
  function Requested(key: Key): (d: Point)
    requires key != OtherKey
    ensures IsHeading(d)
  {
    match key
    case ArrowUp => Point(0, 0, -1)
    case ArrowDown => Point(0, 0, 1)
    case ArrowLeft => Point(-1, 0, 0)
    case ArrowRight => Point(1, 0, 0)
  }

  /**
   * The key handler: an arrow key sets its heading unless the snake is
   * moving the opposite way; any other key changes nothing.
   */
  function Turn(dir: Point, key: Key): (d: Point)
    ensures d == dir || (key != OtherKey && d == Requested(key))
    ensures IsHeading(dir) ==> IsHeading(d) && d != Reverse(dir)
  {
    match key
    case ArrowUp => if dir.z != 1 then Point(0, 0, -1) else dir
    case ArrowDown => if dir.z != -1 then Point(0, 0, 1) else dir
    case ArrowLeft => if dir.x != 1 then Point(-1, 0, 0) else dir
    case ArrowRight => if dir.x != -1 then Point(1, 0, 0) else dir
    case OtherKey => dir
  }

  /** The only arrow key a heading ignores is the one asking to reverse it. */
  lemma TurnRefusesOnlyReversal(dir: Point, key: Key)
    requires IsHeading(dir) && key != OtherKey
    ensures Turn(dir, key) == (if Requested(key) == Reverse(dir) then dir else Requested(key))
  {
    match key
    case ArrowUp => assert Requested(key) == Reverse(dir) <==> dir.z == 1;
    case ArrowDown => assert Requested(key) == Reverse(dir) <==> dir.z == -1;
    case ArrowLeft => assert Requested(key) == Reverse(dir) <==> dir.x == 1;
    case ArrowRight => assert Requested(key) == Reverse(dir) <==> dir.x == -1;
  }

  /**
   * One coordinate of the new head after the two wrap tests, run in order:
   * leaving past 10 re-enters at -10, leaving past -10 re-enters at 10.
   */
  function Wrap(c: int): (w: int)
    ensures Lo <= w <= Hi
    ensures Lo <= c <= Hi ==> w == c
    ensures c == Hi + 1 ==> w == Lo
    ensures c == Lo - 1 ==> w == Hi
  {
    var afterHigh := if c > Hi then Lo else c;
    if afterHigh < Lo then Hi else afterHigh
  }

  /** On the cells next to the board, wrapping is arithmetic modulo the 21 columns. */
  lemma WrapIsModular(c: int)
    requires Lo - 1 <= c <= Hi + 1
    ensures Wrap(c) == (c - Lo) % (Hi - Lo + 1) + Lo
  {
  }

  function NextHead(head: Point, dir: Point): (h: Point)
    ensures OnBoard(h)
  {
    Point(Wrap(head.x + dir.x), 0, Wrap(head.z + dir.z))
  }

  /** Two points in the same (x, z) cell; the client's comparisons ignore y. */
  predicate SameCell(a: Point, b: Point)
  {
    a.x == b.x && a.z == b.z
  }

  /** Whether some segment of the trail is in the cell of p (Array.prototype.some). */
  function Occupied(trail: seq<Point>, p: Point): (hit: bool)
    ensures hit <==> exists i :: 0 <= i < |trail| && SameCell(trail[i], p)
  {
    if trail == [] then false
    else SameCell(trail[0], p) || Occupied(trail[1..], p)
  }

  function Abs(n: int): nat
  {
    if n < 0 then -n else n
  }

  /** The food test, distance below 1 on both axes; on integers it is "same cell". */
  function ReachesFood(head: Point, food: Point): (r: bool)
    ensures r <==> SameCell(head, food)
  {
    Abs(head.x - food.x) < 1 && Abs(head.z - food.z) < 1
  }

  datatype Outcome =
    | Collided(finalScore: int)   // the game ends; the score reported is the length minus one
    | Ate                         // the snake grows and new food is spawned
    | Moved                       // the snake shifts by one cell

  datatype Tick = Tick(trail: seq<Point>, outcome: Outcome)

  /**
   * One tick of the game loop, the updater passed to setSnakePositions.
   * The collision test runs against the whole previous trail, including
   * the last segment that a plain move would have dropped.
   */
  function Step(prev: seq<Point>, dir: Point, food: Point): (t: Tick)
    requires |prev| > 0
    ensures t.outcome.Collided? <==> exists i :: 0 <= i < |prev| && SameCell(prev[i], NextHead(prev[0], dir))
    ensures t.outcome.Collided? ==> t.trail == prev && t.outcome.finalScore == |prev| - 1
    ensures t.outcome == Ate <==> !t.outcome.Collided? && SameCell(NextHead(prev[0], dir), food)
    ensures |t.trail| == if t.outcome == Ate then |prev| + 1 else |prev|
    ensures !t.outcome.Collided? ==>
      t.trail[0] == NextHead(prev[0], dir) && forall i :: 1 <= i < |t.trail| ==> t.trail[i] == prev[i - 1]
  {
    var head := NextHead(prev[0], dir);
    if Occupied(prev, head) then Tick(prev, Collided(|prev| - 1))
    else if ReachesFood(head, food) then Tick([head] + prev, Ate)
    else Tick([head] + prev[..|prev| - 1], Moved)
  }

  /** Neighbouring columns (or rows) of the board, the two edges counting as neighbours. */
  predicate Ring(u: int, v: int)
  {
    Wrap(u + 1) == v || Wrap(v + 1) == u
  }

  /** Cells that share a side on the wrapped board. */
  predicate Adjacent(a: Point, b: Point)
  {
    a.y == b.y && ((a.z == b.z && Ring(a.x, b.x)) || (a.x == b.x && Ring(a.z, b.z)))
  }

  predicate AllOnBoard(trail: seq<Point>)
  {
    forall i :: 0 <= i < |trail| ==> OnBoard(trail[i])
  }

  predicate Connected(trail: seq<Point>)
  {
    forall i :: 0 < i < |trail| ==> Adjacent(trail[i - 1], trail[i])
  }

  predicate NoOverlap(trail: seq<Point>)
  {
    forall i, j :: 0 <= i < j < |trail| ==> !SameCell(trail[i], trail[j])
  }

  /** A snake as it can appear on screen: on the board, one piece, never crossing itself. */
  predicate WellFormed(trail: seq<Point>)
  {
    |trail| > 0 && AllOnBoard(trail) && Connected(trail) && NoOverlap(trail)
  }

  /** The new head is the old one moved one step along the heading, modulo the board: on the board and next to the old head. */
  lemma NextHeadIsNeighbour(head: Point, dir: Point)
    requires OnBoard(head) && IsHeading(dir)
    ensures OnBoard(NextHead(head, dir)) && Adjacent(NextHead(head, dir), head)
    ensures NextHead(head, dir) ==
      Point((head.x + dir.x - Lo) % (Hi - Lo + 1) + Lo, 0, (head.z + dir.z - Lo) % (Hi - Lo + 1) + Lo)
  {
    var h := NextHead(head, dir);
    WrapIsModular(head.x + dir.x);
    WrapIsModular(head.z + dir.z);
    if dir.x == 1 {
      assert Wrap(head.x + 1) == h.x;
    } else if dir.x == -1 {
      assert Wrap(h.x + 1) == head.x;
    } else if dir.z == 1 {
      assert Wrap(head.z + 1) == h.z;
    } else {
      assert Wrap(h.z + 1) == head.z;
    }
  }

  /** A tick keeps a well-formed snake well-formed, whatever the food and the outcome. */
  lemma {:induction false} StepKeepsWellFormed(prev: seq<Point>, dir: Point, food: Point)
    requires WellFormed(prev) && IsHeading(dir)
    ensures WellFormed(Step(prev, dir, food).trail)
  {
    var t := Step(prev, dir, food);
    if !t.outcome.Collided? {
      var h := NextHead(prev[0], dir);
      NextHeadIsNeighbour(prev[0], dir);
      assert t.trail[0] == h;
      forall i | 0 < i < |t.trail|
        ensures Adjacent(t.trail[i - 1], t.trail[i])
      {
        if i > 1 {
          assert t.trail[i - 1] == prev[i - 2] && t.trail[i] == prev[i - 1];
        }
      }
      forall i, j | 0 <= i < j < |t.trail|
        ensures !SameCell(t.trail[i], t.trail[j])
      {
        assert t.trail[j] == prev[j - 1];
        if i > 0 {
          assert t.trail[i] == prev[i - 1];
        }
      }
    }
  }
}
