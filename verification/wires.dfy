/** `src/day3/main.rs`: two wires laid out on a grid from a common origin,
    each as a list of moves such as `R75`, and the crossing the two wires
    reach together in the fewest combined steps. */
module Wires {
  import opened Numbers
  import opened Outcome
  import opened Text

  const U32_MAX: nat := 0xFFFF_FFFF

  datatype Direction = Up | Right | Down | Left

  datatype Instruction = Instruction(direction: Direction, magnitude: nat)

  datatype Point = Point(x: int, y: int)

  const Origin := Point(0, 0)

  /** `Direction::x_mod`: the horizontal part of one unit step. */
  function XMod(d: Direction): (dx: int)
    ensures -1 <= dx <= 1
    ensures dx != 0 <==> d == Right || d == Left
  {
    match d
    case Right => 1
    case Left => -1
    case _ => 0
  }

  /** `Direction::y_mod`: the vertical part of one unit step. */
  function YMod(d: Direction): (dy: int)
    ensures -1 <= dy <= 1
    ensures dy != 0 <==> d == Up || d == Down
  {
    match d
    case Up => 1
    case Down => -1
    case _ => 0
  }

  /** `manhattan_distance_from_origin`. */
  function Manhattan(p: Point): (d: int)
    ensures d >= 0
    ensures d == 0 <==> p == Origin
    ensures d >= p.x && d >= -p.x && d >= p.y && d >= -p.y
  {
    Abs(p.x) + Abs(p.y)
  }

  /** Each direction is one unit along exactly one axis. */
  lemma UnitStep(d: Direction)
    ensures Manhattan(Point(XMod(d), YMod(d))) == 1
    ensures d == Up ==> XMod(d) == 0 && YMod(d) == 1
    ensures d == Right ==> XMod(d) == 1 && YMod(d) == 0
    ensures d == Down ==> XMod(d) == 0 && YMod(d) == -1
    ensures d == Left ==> XMod(d) == -1 && YMod(d) == 0
  {
  }

  // ---------------------------------------------------------------------
  // Parsing one move

  /** `SplitPanic` is the panic of `split_at(1)` on an empty string or one
      whose first character takes more than one byte. */
  datatype ParseError = SplitPanic | UnknownDirection | BadMagnitude

  function DirectionOf(c: char): Option<Direction> {
    if c == 'U' then Some(Up)
    else if c == 'R' then Some(Right)
    else if c == 'D' then Some(Down)
    else if c == 'L' then Some(Left)
    else None
  }

  function DirectionChar(d: Direction): (c: char)
    ensures DirectionOf(c) == Some(d)
  {
    match d
    case Up => 'U'
    case Right => 'R'
    case Down => 'D'
    case Left => 'L'
  }

  /** `Instruction::from_str`: the first character picks the direction, the
      rest must be a `u32`. */
  function ParseInstruction(s: string): (r: Result<Instruction, ParseError>)
    ensures r == Err(SplitPanic) <==> |s| == 0 || s[0] as int >= 0x80
    ensures r == Err(UnknownDirection) <==>
      |s| > 0 && s[0] as int < 0x80 && DirectionOf(s[0]).None?
    ensures r == Err(BadMagnitude) <==>
      |s| > 0 && s[0] as int < 0x80 && DirectionOf(s[0]).Some? && ParseUnsigned(s[1..], U32_MAX).None?
    ensures r.Ok? ==> (DirectionOf(s[0]) == Some(r.value.direction)
      && ParseUnsigned(s[1..], U32_MAX) == Some(r.value.magnitude)
      && r.value.magnitude <= U32_MAX)
  {
    if |s| == 0 || s[0] as int >= 0x80 then Err(SplitPanic)
    else match DirectionOf(s[0])
      case None => Err(UnknownDirection)
      case Some(d) =>
        match ParseUnsigned(s[1..], U32_MAX)
        case None => Err(BadMagnitude)
        case Some(m) => Ok(Instruction(d, m))
  }

  function FormatInstruction(i: Instruction): string {
    [DirectionChar(i.direction)] + NatToString(i.magnitude)
  }

  /** Every move a `u32` can describe is read back from its text. */
  lemma ParseFormat(i: Instruction)
    requires i.magnitude <= U32_MAX
    ensures ParseInstruction(FormatInstruction(i)) == Ok(i)
  {
    var s := FormatInstruction(i);
    assert s[1..] == NatToString(i.magnitude);
    ParseNatToString(i.magnitude, U32_MAX);
  }

  // ---------------------------------------------------------------------
  // Reference geometry of a wire

  /** Where the wire ends: the sum of magnitude times unit step. */
  function Displacement(wire: seq<Instruction>): Point {
    if |wire| == 0 then Origin
    else
      var p := Displacement(wire[..|wire| - 1]);
      var last := wire[|wire| - 1];
      Point(p.x + last.magnitude * XMod(last.direction), p.y + last.magnitude * YMod(last.direction))
  }

  function TotalMagnitude(wire: seq<Instruction>): nat {
    if |wire| == 0 then 0 else TotalMagnitude(wire[..|wire| - 1]) + wire[|wire| - 1].magnitude
  }

  /** The `n` points after each of `n` unit steps in direction `d` from `start`. */
  function Segment(start: Point, d: Direction, n: nat): (s: seq<Point>)
    ensures |s| == n
  {
    if n == 0 then [] else Segment(start, d, n - 1) + [Point(start.x + n * XMod(d), start.y + n * YMod(d))]
  }

  /** The k-th point of a segment is `k + 1` unit steps from its start. */
  lemma {:induction false} SegmentPoints(start: Point, d: Direction, n: nat)
    ensures forall k :: 0 <= k < n ==>
      Segment(start, d, n)[k] == Point(start.x + (k + 1) * XMod(d), start.y + (k + 1) * YMod(d))
  {
    if n > 0 {
      SegmentPoints(start, d, n - 1);
      var front := Segment(start, d, n - 1);
      assert forall k :: 0 <= k < n - 1 ==> Segment(start, d, n)[k] == front[k];
    }
  }

  /** Every point the wire occupies after a unit step, in order. */
  function Path(wire: seq<Instruction>): seq<Point> {
    if |wire| == 0 then []
    else
      var prefix := wire[..|wire| - 1];
      var last := wire[|wire| - 1];
      Path(prefix) + Segment(Displacement(prefix), last.direction, last.magnitude)
  }

  /** For every point on a path, the (1-based) step of its last visit. */
  function LastVisits(path: seq<Point>): map<Point, nat> {
    if |path| == 0 then map[]
    else LastVisits(path[..|path| - 1])[path[|path| - 1] := |path|]
  }

  function Elements(path: seq<Point>): set<Point> {
    set p | p in path
  }

  lemma {:induction false} PathLength(wire: seq<Instruction>)
    ensures |Path(wire)| == TotalMagnitude(wire)
  {
    if |wire| > 0 {
      PathLength(wire[..|wire| - 1]);
    }
  }

  /** The path ends where the displacement says, or the wire never moved. */
  lemma {:induction false} PathEnd(wire: seq<Instruction>)
    ensures |Path(wire)| == 0 ==> Displacement(wire) == Origin
    ensures |Path(wire)| > 0 ==> Path(wire)[|Path(wire)| - 1] == Displacement(wire)
  {
    if |wire| > 0 {
      PathEnd(wire[..|wire| - 1]);
    }
  }

  /** `q` is one unit step away from `p`. */
  predicate Neighbours(p: Point, q: Point) {
    var dx, dy := q.x - p.x, q.y - p.y;
    (dx == 0 && (dy == 1 || dy == -1)) || (dy == 0 && (dx == 1 || dx == -1))
  }

  /** Each point of `path` is one unit step from the one before it, and the
      first is one unit step from `start`. */
  predicate UnitWalkFrom(start: Point, path: seq<Point>) {
    forall k :: 0 <= k < |path| ==> Neighbours(Prev(start, path, k), path[k])
  }

  /** The point before step `k`: `start` for the first step. */
  function Prev(start: Point, path: seq<Point>, k: nat): Point
    requires k < |path|
  {
    if k == 0 then start else path[k - 1]
  }

  function EndOf(start: Point, path: seq<Point>): Point {
    if |path| == 0 then start else path[|path| - 1]
  }

  lemma SegmentWalk(start: Point, d: Direction, n: nat)
    ensures UnitWalkFrom(start, Segment(start, d, n))
  {
    var seg := Segment(start, d, n);
    SegmentPoints(start, d, n);
    var dx := XMod(d);
    var dy := YMod(d);
    UnitStep(d);
    forall k | 0 <= k < n
      ensures Neighbours(Prev(start, seg, k), seg[k])
    {
      var prev := Prev(start, seg, k);
      assert prev == Point(start.x + k * dx, start.y + k * dy);
      assert seg[k] == Point(start.x + (k + 1) * dx, start.y + (k + 1) * dy);
      assert seg[k].x - prev.x == dx && seg[k].y - prev.y == dy;
    }
  }

  lemma WalkConcat(start: Point, p: seq<Point>, q: seq<Point>)
    requires UnitWalkFrom(start, p) && UnitWalkFrom(EndOf(start, p), q)
    ensures UnitWalkFrom(start, p + q)
  {
    var pq := p + q;
    forall k | 0 <= k < |pq|
      ensures Neighbours(Prev(start, pq, k), pq[k])
    {
      if k < |p| {
        assert Neighbours(Prev(start, p, k), p[k]);
        assert pq[k] == p[k] && Prev(start, pq, k) == Prev(start, p, k);
      } else {
        var j := k - |p|;
        assert Neighbours(Prev(EndOf(start, p), q, j), q[j]);
        assert pq[k] == q[j] && Prev(start, pq, k) == Prev(EndOf(start, p), q, j);
      }
    }
  }

  /** A wire moves one unit at a time from the origin: the origin itself is
      on the path only if the wire comes back to it. */
  lemma {:induction false} PathIsUnitWalk(wire: seq<Instruction>)
    ensures UnitWalkFrom(Origin, Path(wire))
  {
    if |wire| > 0 {
      var prefix := wire[..|wire| - 1];
      var last := wire[|wire| - 1];
      PathIsUnitWalk(prefix);
      PathEnd(prefix);
      assert EndOf(Origin, Path(prefix)) == Displacement(prefix);
      SegmentWalk(Displacement(prefix), last.direction, last.magnitude);
      WalkConcat(Origin, Path(prefix), Segment(Displacement(prefix), last.direction, last.magnitude));
    }
  }

  /** `LastVisits` maps exactly the points of the path, each to the step of
      its final visit (later visits overwrite earlier ones). */
  lemma {:induction false} LastVisitsSpec(path: seq<Point>)
    ensures LastVisits(path).Keys == Elements(path)
    ensures forall p :: p in LastVisits(path) ==>
      && 1 <= LastVisits(path)[p] <= |path|
      && path[LastVisits(path)[p] - 1] == p
      && forall j :: LastVisits(path)[p] <= j < |path| ==> path[j] != p
  {
    if |path| > 0 {
      var prefix := path[..|path| - 1];
      LastVisitsSpec(prefix);
      assert path == prefix + [path[|path| - 1]];
      assert Elements(path) == Elements(prefix) + {path[|path| - 1]};
    }
  }

  // ---------------------------------------------------------------------
  // The tracing loop of `main`

  /** What `main` keeps per wire: the current position, the number of unit
      steps so far, the set of visited points and each point's step count. */
  datatype Trace = Trace(pos: Point, traveled: nat, visited: set<Point>, dist: map<Point, nat>)

  /** The books `main` keeps for a wire agree with the points it has
      stepped through so far. */
  predicate Records(t: Trace, path: seq<Point>) {
    t.traveled == |path| && t.visited == Elements(path) && t.dist == LastVisits(path)
  }

  /** The books after one more unit step, to `p`. */
  function Visit(t: Trace, p: Point): Trace {
    Trace(p, t.traveled + 1, t.visited + {p}, t.dist[p := t.traveled + 1])
  }

  /** One unit step to `p` updates the books as it extends the path. */
  lemma RecordStep(t: Trace, path: seq<Point>, p: Point)
    requires Records(t, path)
    ensures Records(Visit(t, p), path + [p])
  {
    assert (path + [p])[..|path|] == path;
    assert Elements(path + [p]) == Elements(path) + {p};
  }

  /** One more unit step extends a segment by the next point. */
  lemma SegmentGrows(path: seq<Point>, start: Point, d: Direction, k: nat)
    ensures path + Segment(start, d, k + 1)
         == path + Segment(start, d, k) + [Point(start.x + k * XMod(d) + XMod(d), start.y + k * YMod(d) + YMod(d))]
  {
    var dx, dy := XMod(d), YMod(d);
    assert (k + 1) * dx == k * dx + dx && (k + 1) * dy == k * dy + dy;
    var next := Point(start.x + (k + 1) * dx, start.y + (k + 1) * dy);
    assert Segment(start, d, k + 1) == Segment(start, d, k) + [next];
    assert path + (Segment(start, d, k) + [next]) == path + Segment(start, d, k) + [next];
  }

  /** After `k` unit steps in direction `d` from the books `t` kept for
      `path`, the books `u` stand `k` units further on and record the
      extended path. */
  predicate Walked(t: Trace, path: seq<Point>, d: Direction, k: nat, u: Trace) {
    && u.pos == Point(t.pos.x + k * XMod(d), t.pos.y + k * YMod(d))
    && Records(u, path + Segment(t.pos, d, k))
  }

  lemma WalkStep(t: Trace, path: seq<Point>, d: Direction, k: nat, u: Trace)
    requires Walked(t, path, d, k, u)
    ensures Walked(t, path, d, k + 1, Visit(u, Point(u.pos.x + XMod(d), u.pos.y + YMod(d))))
  {
    var dx, dy := XMod(d), YMod(d);
    var pos := Point(u.pos.x + dx, u.pos.y + dy);
    SegmentGrows(path, t.pos, d, k);
    RecordStep(u, path + Segment(t.pos, d, k), pos);
    assert (k + 1) * dx == k * dx + dx && (k + 1) * dy == k * dy + dy;
  }

  /** The inner loop of `main`: `n` unit steps in direction `d`. */
  method WalkSegment(t: Trace, ghost path: seq<Point>, d: Direction, n: nat) returns (u: Trace)
    requires Records(t, path)
    ensures u.pos == Point(t.pos.x + n * XMod(d), t.pos.y + n * YMod(d))
    ensures Records(u, path + Segment(t.pos, d, n))
  {
    var dx, dy := XMod(d), YMod(d);
    u := t;
    var k := 0;
    assert path + Segment(t.pos, d, 0) == path;
    while k < n
      invariant 0 <= k <= n
      invariant Walked(t, path, d, k, u)
    {
      WalkStep(t, path, d, k, u);
      u := Visit(u, Point(u.pos.x + dx, u.pos.y + dy));
      k := k + 1;
    }
  }

  /** The two nested loops of `main` that walk one wire unit step by unit step. */
  method TraceWire(wire: seq<Instruction>) returns (t: Trace)
    ensures t.pos == Displacement(wire)
    ensures t.traveled == |Path(wire)|
    ensures t.visited == Elements(Path(wire))
    ensures t.dist == LastVisits(Path(wire))
  {
    t := Trace(Origin, 0, {}, map[]);
    var i := 0;
    while i < |wire|
      invariant 0 <= i <= |wire|
      invariant t.pos == Displacement(wire[..i])
      invariant Records(t, Path(wire[..i]))
    {
      var ins := wire[i];
      assert wire[..i + 1][..i] == wire[..i] && wire[..i + 1][i] == ins;
      t := WalkSegment(t, Path(wire[..i]), ins.direction, ins.magnitude);
      i := i + 1;
    }
    assert wire[..i] == wire;
  }

  /** `v` is the smallest combined step count over the points of `s`. */
  predicate IsClosest(d1: map<Point, nat>, d2: map<Point, nat>, s: set<Point>, v: int)
    requires s <= d1.Keys && s <= d2.Keys
  {
    && (exists p :: p in s && v == d1[p] + d2[p])
    && forall p :: p in s ==> v <= d1[p] + d2[p]
  }

  /** The best so far after looking at one more combined step count. */
  function Better(best: Option<int>, d: int): (r: Option<int>)
    ensures r.Some?
    ensures r.value <= d && (best.Some? ==> r.value <= best.value)
    ensures r.value == d || (best.Some? && r.value == best.value)
  {
    if best.None? || d < best.value then Some(d) else best
  }

  /** The best so far is `None` before the first point and the minimum over
      the points seen after it. */
  predicate BestOf(d1: map<Point, nat>, d2: map<Point, nat>, s: set<Point>, best: Option<int>)
    requires s <= d1.Keys && s <= d2.Keys
  {
    && (best.None? <==> s == {})
    && (best.Some? ==> IsClosest(d1, d2, s, best.value))
  }

  /** Looking at one more point keeps the best so far the minimum. */
  lemma BetterStep(d1: map<Point, nat>, d2: map<Point, nat>, s: set<Point>, p: Point, best: Option<int>)
    requires s <= d1.Keys && s <= d2.Keys && p in d1 && p in d2
    requires BestOf(d1, d2, s, best)
    ensures BestOf(d1, d2, s + {p}, Better(best, d1[p] + d2[p]))
  {
    var d := d1[p] + d2[p];
    var r := Better(best, d);
    if best.None? {
      assert s + {p} == {p};
    } else if d < best.value {
      forall q | q in s + {p} ensures r.value <= d1[q] + d2[q] {
      }
    } else {
      var q :| q in s && best.value == d1[q] + d2[q];
      assert q in s + {p};
    }
  }

  /** Moving a point from the points still to see to the points seen keeps
      their union, and shrinks the first. */
  lemma MoveOne(todo: set<Point>, done: set<Point>, p: Point)
    requires p in todo
    ensures (todo - {p}) + (done + {p}) == todo + done
    ensures |todo - {p}| < |todo|
  {
  }

  /** The crossing with the smallest combined step count, or `None` when the
      wires never meet (where `main` panics at `unwrap`). */
  method ClosestIntersection(a: Trace, b: Trace) returns (r: Option<int>)
    requires a.visited <= a.dist.Keys && b.visited <= b.dist.Keys
    ensures r.None? <==> a.visited * b.visited == {}
    ensures r.Some? ==> IsClosest(a.dist, b.dist, a.visited * b.visited, r.value)
  {
    var todo := a.visited * b.visited;
    ghost var done: set<Point> := {};
    r := None;
    while todo != {}
      invariant todo + done == a.visited * b.visited
      invariant done <= a.dist.Keys && done <= b.dist.Keys
      invariant BestOf(a.dist, b.dist, done, r)
      decreases |todo|
    {
      var p :| p in todo;
      BetterStep(a.dist, b.dist, done, p, r);
      MoveOne(todo, done, p);
      r := Better(r, a.dist[p] + b.dist[p]);
      todo := todo - {p};
      done := done + {p};
    }
  }

  /** The whole of `main` after reading the two wires. */
  method Crossing(wire1: seq<Instruction>, wire2: seq<Instruction>) returns (r: Option<int>)
    ensures r.None? <==> Elements(Path(wire1)) * Elements(Path(wire2)) == {}
    ensures r.Some? ==> var d1, d2 := LastVisits(Path(wire1)), LastVisits(Path(wire2));
      IsClosest(d1, d2, d1.Keys * d2.Keys, r.value)
  {
    var t1 := TraceWire(wire1);
    var t2 := TraceWire(wire2);
    LastVisitsSpec(Path(wire1));
    LastVisitsSpec(Path(wire2));
    r := ClosestIntersection(t1, t2);
  }
}
