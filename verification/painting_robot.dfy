/** `src/day11/main.rs`: the hull-painting robot. The robot stands on a
    panel, facing one of four directions; the program it runs tells it which
    colour to paint and which way to turn, and the robot answers with the
    colour of the panel it moves onto. The program and the channels are left
    out: the robot's side of one exchange is `Step`, and `Drive` runs it over
    a sequence of the program's outputs. */
module PaintingRobot {
  import opened Numbers

  datatype Turn = Left | Right

  datatype Facing = North | South | East | West

  /** A panel of the hull; `y` grows northwards. */
  datatype Position = Position(x: int, y: int)

  /** `Facing::mv`: one unit along the facing, North being `+y` and East `+x`. */
  function Move(f: Facing, p: Position): (q: Position)
    ensures Abs(q.x - p.x) + Abs(q.y - p.y) == 1
    ensures q.x == p.x <==> f == North || f == South
    ensures q.y > p.y <==> f == North
    ensures q.x > p.x <==> f == East
  {
    match f
    case North => Position(p.x, p.y + 1)
    case South => Position(p.x, p.y - 1)
    case East => Position(p.x + 1, p.y)
    case West => Position(p.x - 1, p.y)
  }

  /** The compass bearing of a facing in degrees, clockwise from North: an
      independent description of the four directions. */
  function Bearing(f: Facing): (d: nat)
    ensures d < 360 && d % 90 == 0
  {
    match f
    case North => 0
    case East => 90
    case South => 180
    case West => 270
  }

  /** Facings are told apart by their bearings. */
  lemma BearingInjective(f: Facing, g: Facing)
    ensures Bearing(f) == Bearing(g) <==> f == g
  {
  }

  /** `Facing::turn`: a quarter turn, counter-clockwise for `Left` and
      clockwise for `Right`. */
  function TurnTo(f: Facing, t: Turn): (r: Facing)
    ensures r != f
    ensures Bearing(r) == (Bearing(f) + (if t == Right then 90 else 270)) % 360
  {
    match f
    case North => (match t case Left => West case Right => East)
    case South => (match t case Left => East case Right => West)
    case East => (match t case Left => North case Right => South)
    case West => (match t case Left => South case Right => North)
  }

  /** A left and a right turn undo each other, in either order. */
  lemma TurnsCancel(f: Facing)
    ensures TurnTo(TurnTo(f, Left), Right) == f
    ensures TurnTo(TurnTo(f, Right), Left) == f
  {
    BearingInjective(TurnTo(TurnTo(f, Left), Right), f);
    BearingInjective(TurnTo(TurnTo(f, Right), Left), f);
  }

  /** Four turns the same way come back to the start. */
  lemma FourTurns(f: Facing, t: Turn)
    ensures TurnTo(TurnTo(TurnTo(TurnTo(f, t), t), t), t) == f
  {
    BearingInjective(TurnTo(TurnTo(TurnTo(TurnTo(f, t), t), t), t), f);
  }

  /** One right turn is three left turns. */
  lemma RightIsThreeLefts(f: Facing)
    ensures TurnTo(f, Right) == TurnTo(TurnTo(TurnTo(f, Left), Left), Left)
  {
    BearingInjective(TurnTo(f, Right), TurnTo(TurnTo(TurnTo(f, Left), Left), Left));
  }

  /** Turning left and turning right never face the same way. */
  lemma TurnsDiffer(f: Facing)
    ensures TurnTo(f, Left) != TurnTo(f, Right)
  {
    BearingInjective(TurnTo(f, Left), TurnTo(f, Right));
  }

  /** The state `main` keeps: the colours painted so far (`true` is white),
      every position painted, where the robot is and where it faces. */
  datatype Robot = Robot(panels: map<Position, bool>, positions: set<Position>, position: Position, facing: Facing)

  /** The robot before the first exchange: nothing painted, at the origin,
      facing North. */
  const Start := Robot(map[], {}, Position(0, 0), North)

  /** Every panel with a colour has been visited, and every visited panel
      has a colour: both are inserted at the same position together. */
  predicate Valid(r: Robot) {
    r.panels.Keys == r.positions
  }

  /** The colour a panel reads as: black (`false`) until it is painted. */
  function Colour(panels: map<Position, bool>, p: Position): (white: bool)
    ensures white ==> p in panels
    ensures p in panels ==> white == panels[p]
  {
    if p in panels then panels[p] else false
  }

  /** The robot after an exchange, and the value it sends to the program. */
  datatype Exchange = Exchange(robot: Robot, sent: int)

  /** One iteration of the loop in `main`: `paint` and `turn` are the two
      outputs of the program. A non-zero `paint` paints the current panel
      white, zero paints it black; a non-zero `turn` turns right, zero turns
      left; the robot then moves one panel forward and sends 1 when the panel
      it reaches is white, 0 otherwise. */
  function Step(r: Robot, paint: int, turn: int): (e: Exchange)
    ensures Valid(r) ==> Valid(e.robot)
    ensures e.robot.positions == r.positions + {r.position}
    ensures r.position in e.robot.panels && (e.robot.panels[r.position] <==> paint != 0)
    ensures forall p :: p != r.position ==> Colour(e.robot.panels, p) == Colour(r.panels, p)
    ensures e.robot.facing != r.facing
    ensures (turn != 0 <==> Bearing(e.robot.facing) == (Bearing(r.facing) + 90) % 360)
    ensures e.robot.facing == TurnTo(r.facing, if turn == 0 then Left else Right)
    ensures e.robot.position == Move(e.robot.facing, r.position)
    ensures Abs(e.robot.position.x - r.position.x) + Abs(e.robot.position.y - r.position.y) == 1
    ensures e.sent == 1 <==> Colour(r.panels, e.robot.position)
    ensures e.sent == 0 || e.sent == 1
  {
    var panels := r.panels[r.position := paint != 0];
    var positions := r.positions + {r.position};
    var facing := TurnTo(r.facing, if turn == 0 then Left else Right);
    var position := Move(facing, r.position);
    var sent := if Colour(panels, position) then 1 else 0;
    Exchange(Robot(panels, positions, position, facing), sent)
  }

  /** The robot after answering every pair of outputs in turn. */
  function Drive(r: Robot, outputs: seq<(int, int)>): Robot
    decreases |outputs|
  {
    if |outputs| == 0 then r
    else Drive(Step(r, outputs[0].0, outputs[0].1).robot, outputs[1..])
  }

  /** Driving keeps the robot's books straight, never forgets a visited
      panel, and visits at most one new panel per exchange. */
  lemma {:induction false} DriveInvariant(r: Robot, outputs: seq<(int, int)>)
    requires Valid(r)
    ensures Valid(Drive(r, outputs))
    ensures r.positions <= Drive(r, outputs).positions
    ensures |Drive(r, outputs).positions| <= |r.positions| + |outputs|
    decreases |outputs|
  {
    if |outputs| > 0 {
      var next := Step(r, outputs[0].0, outputs[0].1).robot;
      DriveInvariant(next, outputs[1..]);
      assert next.positions == r.positions + {r.position};
      assert |next.positions| <= |r.positions| + 1;
    }
  }

  /** Driving through two runs of outputs is driving through their
      concatenation. */
  lemma {:induction false} DriveConcat(r: Robot, a: seq<(int, int)>, b: seq<(int, int)>)
    ensures Drive(Drive(r, a), b) == Drive(r, a + b)
    decreases |a|
  {
    if |a| > 0 {
      assert (a + b)[0] == a[0] && (a + b)[1..] == a[1..] + b;
      DriveConcat(Step(r, a[0].0, a[0].1).robot, a[1..], b);
    } else {
      assert a + b == b;
    }
  }

  /** Four right turns in a row walk a unit square back to the starting
      panel and facing, whatever is painted on the way. */
  lemma SquareReturns(r: Robot, c0: int, c1: int, c2: int, c3: int)
    ensures Drive(r, [(c0, 1), (c1, 1), (c2, 1), (c3, 1)]).position == r.position
    ensures Drive(r, [(c0, 1), (c1, 1), (c2, 1), (c3, 1)]).facing == r.facing
  {
    var outputs: seq<(int, int)> := [(c0, 1), (c1, 1), (c2, 1), (c3, 1)];
    var r1 := Step(r, c0, 1).robot;
    var r2 := Step(r1, c1, 1).robot;
    var r3 := Step(r2, c2, 1).robot;
    var r4 := Step(r3, c3, 1).robot;
    assert outputs[1..] == [(c1, 1), (c2, 1), (c3, 1)];
    assert outputs[1..][1..] == [(c2, 1), (c3, 1)];
    assert outputs[1..][1..][1..] == [(c3, 1)];
    assert Drive(r3, outputs[1..][1..][1..]) == r4;
    assert Drive(r2, outputs[1..][1..]) == r4;
    assert Drive(r1, outputs[1..]) == r4;
    assert Drive(r, outputs) == r4;
    RightStep(r, c0);
    RightStep(r1, c1);
    RightStep(r2, c2);
    RightStep(r3, c3);
    SquareMoves(r.facing, r.position);
  }

  /** A right turn, whatever is painted, turns right and moves on. */
  lemma RightStep(r: Robot, paint: int)
    ensures Step(r, paint, 1).robot.facing == TurnTo(r.facing, Right)
    ensures Step(r, paint, 1).robot.position == Move(TurnTo(r.facing, Right), r.position)
  {
  }

  /** Four unit moves, turning right before each, close a square. */
  lemma SquareMoves(f: Facing, p: Position)
    ensures var f1 := TurnTo(f, Right);
      var f2 := TurnTo(f1, Right);
      var f3 := TurnTo(f2, Right);
      var f4 := TurnTo(f3, Right);
      f4 == f && Move(f4, Move(f3, Move(f2, Move(f1, p)))) == p
  {
    FourTurns(f, Right);
  }
}
