/** `src/day12/main.rs`: moons pulling on each other along each axis. In a
    step every moon's velocity moves one unit towards each other moon on
    each axis, then every moon moves by its new velocity. The axes never
    interact, so one axis on its own is the `SingleDimensionalSystem`. */
module NBody {
  import opened Outcome
  import opened Text
  import opened Numbers

  const I32_MIN: int := -0x8000_0000
  const I32_MAX: int := 0x7FFF_FFFF

  datatype Vector = Vector(x: int, y: int, z: int)

  datatype Asteroid = Asteroid(x: int, y: int, z: int, velocity: Vector)

  datatype Axis = X | Y | Z

  const Still := Vector(0, 0, 0)

  /** `Asteroid::new`: a moon at rest. */
  function NewAsteroid(x: int, y: int, z: int): (a: Asteroid)
    ensures a.velocity == Still
    ensures Coord(a, X) == x && Coord(a, Y) == y && Coord(a, Z) == z
  {
    Asteroid(x, y, z, Still)
  }

  function Coord(a: Asteroid, k: Axis): int {
    match k
    case X => a.x
    case Y => a.y
    case Z => a.z
  }

  function Speed(a: Asteroid, k: Axis): int {
    match k
    case X => a.velocity.x
    case Y => a.velocity.y
    case Z => a.velocity.z
  }

  // ---------------------------------------------------------------------
  // Energy

  /** `Vector::energy`: the sum of the absolute components. */
  function VectorEnergy(v: Vector): (e: nat)
    ensures e == 0 <==> v == Still
    ensures e >= Abs(v.x) && e >= Abs(v.y) && e >= Abs(v.z)
  {
    Abs(v.x) + Abs(v.y) + Abs(v.z)
  }

  /** `Asteroid::potential_energy`: the sum of the absolute coordinates. */
  function PotentialEnergy(a: Asteroid): (e: nat)
    ensures e == VectorEnergy(Vector(a.x, a.y, a.z))
  {
    Abs(a.x) + Abs(a.y) + Abs(a.z)
  }

  /** `Asteroid::energy`: potential times kinetic energy, so a moon at rest
      or at the origin has none. */
  function Energy(a: Asteroid): (e: nat)
    ensures e == 0 <==> a.velocity == Still || (a.x == 0 && a.y == 0 && a.z == 0)
    ensures a.velocity != Still ==> e >= PotentialEnergy(a)
    ensures PotentialEnergy(a) != 0 ==> e >= VectorEnergy(a.velocity)
  {
    var p, k := PotentialEnergy(a), VectorEnergy(a.velocity);
    ProductBounds(p, k);
    p * k
  }

  lemma ProductBounds(p: nat, k: nat)
    ensures p * k == 0 <==> p == 0 || k == 0
    ensures k >= 1 ==> p * k >= p
    ensures p >= 1 ==> p * k >= k
  {
    if k >= 1 {
      assert p * k == p * (k - 1) + p;
    }
    if p >= 1 {
      assert p * k == (p - 1) * k + k;
    }
  }

  /** The energy of every moon, in order. */
  function Energies(s: seq<Asteroid>): (r: seq<nat>)
    ensures |r| == |s| && forall i :: 0 <= i < |s| ==> r[i] == Energy(s[i])
  {
    seq(|s|, i requires 0 <= i < |s| => Energy(s[i]))
  }

  /** `System::energy`: the energy of all the moons together. */
  function SystemEnergy(s: seq<Asteroid>): nat {
    Sum(Energies(s))
  }

  /** The system's energy bounds every moon's, and is zero exactly when
      every moon's is. */
  lemma SystemEnergyBounds(s: seq<Asteroid>)
    ensures forall i :: 0 <= i < |s| ==> Energy(s[i]) <= SystemEnergy(s)
    ensures SystemEnergy(s) == 0 <==> forall i :: 0 <= i < |s| ==> Energy(s[i]) == 0
  {
    var es := Energies(s);
    SumBounds(es);
    assert forall i :: 0 <= i < |s| ==> es[i] == Energy(s[i]);
  }

  /** A moon that has just been read has no energy, wherever it is. */
  lemma NewAsteroidHasNoEnergy(x: int, y: int, z: int)
    ensures Energy(NewAsteroid(x, y, z)) == 0
  {
  }

  /** A system that has just been read is at rest and has no energy. */
  lemma RestingSystemHasNoEnergy(s: seq<Asteroid>)
    requires forall i :: 0 <= i < |s| ==> s[i].velocity == Still
    ensures SystemEnergy(s) == 0
  {
    SystemEnergyBounds(s);
  }

  // ---------------------------------------------------------------------
  // One axis: `SingleDimensionalSystem`

  /** The change in velocity one moon at `c` gets from one at `o`: the
      `cmp` match of both `step`s, one unit towards the other moon. */
  function Pull(c: int, o: int): (d: int)
    ensures d == 1 <==> c < o
    ensures d == -1 <==> c > o
    ensures d == 0 <==> c == o
  {
    if c < o then 1 else if c == o then 0 else -1
  }

  /** Two moons pull each other equally hard in opposite directions. */
  lemma PullAntisymmetric(c: int, o: int)
    ensures Pull(c, o) == -Pull(o, c)
  {
  }

  /** The total pull on a moon at `c` from moons at `others`, itself among
      them: the fold of `SingleDimensionalSystem::step`. */
  function Gravity(c: int, others: seq<int>): (g: int)
    ensures -|others| <= g <= |others|
    decreases |others|
  {
    if |others| == 0 then 0 else Gravity(c, others[..|others| - 1]) + Pull(c, others[|others| - 1])
  }

  /** Moons all on one side of `c` can only pull it towards that side. */
  lemma {:induction false} GravitySign(c: int, others: seq<int>)
    ensures (forall j :: 0 <= j < |others| ==> others[j] >= c) ==> Gravity(c, others) >= 0
    ensures (forall j :: 0 <= j < |others| ==> others[j] <= c) ==> Gravity(c, others) <= 0
    decreases |others|
  {
    if |others| > 0 {
      var n := |others| - 1;
      GravitySign(c, others[..n]);
      assert forall j :: 0 <= j < n ==> others[..n][j] == others[j];
    }
  }

  /** Gravity adds up over a split of the other moons. */
  lemma {:induction false} GravityAppend(c: int, a: seq<int>, b: seq<int>)
    ensures Gravity(c, a + b) == Gravity(c, a) + Gravity(c, b)
    decreases |b|
  {
    if |b| == 0 {
      assert a + b == a;
    } else {
      var n := |b| - 1;
      assert (a + b)[..|a + b| - 1] == a + b[..n];
      GravityAppend(c, a, b[..n]);
    }
  }

  /** A moon feels no pull from itself. */
  lemma GravitySelf(c: int)
    ensures Gravity(c, [c]) == 0
  {
    assert [c][..0] == [];
  }

  /** A one-dimensional moon: its position and its velocity. */
  type Body = (int, int)

  /** The positions of a one-dimensional system. */
  function Positions(s: seq<Body>): (r: seq<int>)
    ensures |r| == |s| && forall i :: 0 <= i < |s| ==> r[i] == s[i].0
  {
    seq(|s|, i requires 0 <= i < |s| => s[i].0)
  }

  /** The sum of the velocities of a one-dimensional system. */
  function Momentum(s: seq<Body>): int
    decreases |s|
  {
    if |s| == 0 then 0 else Momentum(s[..|s| - 1]) + s[|s| - 1].1
  }

  /** One moon's step on one axis, with `all` the whole system. */
  function LineMove(b: Body, all: seq<Body>): (r: Body)
    ensures r.1 - b.1 == Gravity(b.0, Positions(all))
    ensures r.0 - b.0 == r.1
  {
    var diff := Gravity(b.0, Positions(all));
    (b.0 + b.1 + diff, b.1 + diff)
  }

  /** `SingleDimensionalSystem::step`: every moon takes its step against the
      system as it was before the step. */
  function StepLine(s: seq<Body>): (r: seq<Body>)
    ensures |r| == |s|
    ensures forall i :: 0 <= i < |s| ==> r[i] == LineMove(s[i], s)
  {
    seq(|s|, i requires 0 <= i < |s| => LineMove(s[i], s))
  }

  /** The pull of the moons at `qs` on each of the moons at `ps`, in total. */
  function CrossPull(ps: seq<int>, qs: seq<int>): int
    decreases |ps|
  {
    if |ps| == 0 then 0 else CrossPull(ps[..|ps| - 1], qs) + Gravity(ps[|ps| - 1], qs)
  }

  /** The pull of one moon at `q` on each of the moons at `ps`, in total. */
  lemma {:induction false} ColumnPull(ps: seq<int>, q: int)
    ensures CrossPull(ps, [q]) == -Gravity(q, ps)
    decreases |ps|
  {
    if |ps| > 0 {
      var n := |ps| - 1;
      ColumnPull(ps[..n], q);
      assert [q][..0] == [];
      PullAntisymmetric(ps[n], q);
    }
  }

  lemma {:induction false} CrossPullAppend(ps: seq<int>, qs: seq<int>, q: int)
    ensures CrossPull(ps, qs + [q]) == CrossPull(ps, qs) + CrossPull(ps, [q])
    decreases |ps|
  {
    if |ps| > 0 {
      var n := |ps| - 1;
      CrossPullAppend(ps[..n], qs, q);
      GravityAppend(ps[n], qs, [q]);
    }
  }

  /** What one group of moons does to another, the other does back in the
      opposite direction. */
  lemma {:induction false} CrossPullAntisymmetric(ps: seq<int>, qs: seq<int>)
    ensures CrossPull(ps, qs) == -CrossPull(qs, ps)
    decreases |qs|
  {
    if |qs| == 0 {
      assert CrossPull(ps, qs) == 0 by {
        ZeroPull(ps, qs);
      }
    } else {
      var n := |qs| - 1;
      var front, q := qs[..n], qs[n];
      assert qs == front + [q];
      CrossPullAntisymmetric(ps, front);
      CrossPullAppend(ps, front, q);
      ColumnPull(ps, q);
    }
  }

  lemma {:induction false} ZeroPull(ps: seq<int>, qs: seq<int>)
    requires |qs| == 0
    ensures CrossPull(ps, qs) == 0
    decreases |ps|
  {
    if |ps| > 0 {
      ZeroPull(ps[..|ps| - 1], qs);
    }
  }

  /** Moving every moon of `s` against the system `all` changes the total
      velocity by the total pull of `all` on `s`. */
  lemma {:induction false} MomentumOfMoves(s: seq<Body>, all: seq<Body>, r: seq<Body>)
    requires |r| == |s|
    requires forall i :: 0 <= i < |s| ==> r[i] == LineMove(s[i], all)
    ensures Momentum(r) == Momentum(s) + CrossPull(Positions(s), Positions(all))
    decreases |s|
  {
    if |s| > 0 {
      var n := |s| - 1;
      MomentumOfMoves(s[..n], all, r[..n]);
      assert Positions(s)[..n] == Positions(s[..n]);
    }
  }

  /** A step never changes the total velocity along an axis: every pull has
      an equal and opposite pull. */
  lemma MomentumConserved(s: seq<Body>)
    ensures Momentum(StepLine(s)) == Momentum(s)
  {
    MomentumOfMoves(s, s, StepLine(s));
    CrossPullAntisymmetric(Positions(s), Positions(s));
  }

  // ---------------------------------------------------------------------
  // Three axes: `System`

  /** A three-dimensional system seen along one axis. */
  function Project(s: seq<Asteroid>, k: Axis): (r: seq<Body>)
    ensures |r| == |s| && forall i :: 0 <= i < |s| ==> r[i] == (Coord(s[i], k), Speed(s[i], k))
  {
    seq(|s|, i requires 0 <= i < |s| => (Coord(s[i], k), Speed(s[i], k)))
  }

  /** The positions of all the moons along one axis. */
  function Coords(s: seq<Asteroid>, k: Axis): (r: seq<int>)
    ensures |r| == |s| && forall i :: 0 <= i < |s| ==> r[i] == Coord(s[i], k)
  {
    seq(|s|, i requires 0 <= i < |s| => Coord(s[i], k))
  }

  /** One moon's step in `System::step`, with `all` the whole system: on
      every axis the velocity changes by the pull of all the moons, and the
      position by the new velocity. */
  function Move(a: Asteroid, all: seq<Asteroid>): (m: Asteroid)
    ensures forall k :: Speed(m, k) == Speed(a, k) + Gravity(Coord(a, k), Coords(all, k))
    ensures forall k :: Coord(m, k) == Coord(a, k) + Speed(m, k)
  {
    var velocity := Vector(
      a.velocity.x + Gravity(a.x, Coords(all, X)),
      a.velocity.y + Gravity(a.y, Coords(all, Y)),
      a.velocity.z + Gravity(a.z, Coords(all, Z)));
    Asteroid(a.x + velocity.x, a.y + velocity.y, a.z + velocity.z, velocity)
  }

  /** `System::step`: every moon keeps its place in the list and takes its
      step against the system as it was before the step. */
  function SystemStep(s: seq<Asteroid>): (r: seq<Asteroid>)
    ensures |r| == |s| && forall i :: 0 <= i < |s| ==> r[i] == Move(s[i], s)
  {
    seq(|s|, i requires 0 <= i < |s| => Move(s[i], s))
  }

  /** The moon itself contributes nothing to its own pull, so the pull is
      bounded by the number of other moons. */
  lemma SelfIsNoPull(s: seq<Asteroid>, i: int, k: Axis)
    requires 0 <= i < |s|
    ensures Abs(Gravity(Coord(s[i], k), Coords(s, k))) < |s|
  {
    var cs := Coords(s, k);
    var c := Coord(s[i], k);
    assert cs == cs[..i] + [c] + cs[i + 1..];
    GravityAppend(c, cs[..i] + [c], cs[i + 1..]);
    GravityAppend(c, cs[..i], [c]);
    GravitySelf(c);
  }

  /** In a step, along every axis, a moon's velocity changes by less than
      the number of moons (one unit per other moon at most), and it then
      moves by its new velocity. */
  lemma StepBounds(s: seq<Asteroid>, i: int, k: Axis)
    requires 0 <= i < |s|
    ensures Abs(Speed(SystemStep(s)[i], k) - Speed(s[i], k)) < |s|
    ensures Coord(SystemStep(s)[i], k) == Coord(s[i], k) + Speed(SystemStep(s)[i], k)
  {
    SelfIsNoPull(s, i, k);
  }

  /** The axes do not interact: along each axis, `System::step` is exactly
      `SingleDimensionalSystem::step` of that axis, which `main` relies on
      when it looks for the cycle of each axis on its own. */
  lemma StepProjects(s: seq<Asteroid>, k: Axis)
    ensures Project(SystemStep(s), k) == StepLine(Project(s, k))
  {
    var left, right := Project(SystemStep(s), k), StepLine(Project(s, k));
    forall i | 0 <= i < |s| ensures left[i] == right[i] {
      StepProjectsAt(s, k, i);
    }
  }

  /** Seen along one axis, the positions of the one-dimensional system are
      the moons' coordinates on that axis, in order. */
  lemma PositionsOfProject(s: seq<Asteroid>, k: Axis)
    ensures Positions(Project(s, k)) == Coords(s, k)
  {
    var ps, cs := Positions(Project(s, k)), Coords(s, k);
    assert forall j :: 0 <= j < |s| ==> ps[j] == cs[j];
  }

  lemma StepProjectsAt(s: seq<Asteroid>, k: Axis, i: int)
    requires 0 <= i < |s|
    ensures Project(SystemStep(s), k)[i] == StepLine(Project(s, k))[i]
  {
    var p := Project(s, k);
    var m := Move(s[i], s);
    var ps, cs := Positions(p), Coords(s, k);
    PositionsOfProject(s, k);
    var g := Gravity(Coord(s[i], k), cs);
    assert Speed(m, k) == Speed(s[i], k) + g && Coord(m, k) == Coord(s[i], k) + Speed(m, k);
    assert p[i] == (Coord(s[i], k), Speed(s[i], k));
    var b := LineMove(p[i], p);
    assert Gravity(p[i].0, ps) == g;
    assert b.1 == Speed(m, k) && b.0 == Coord(m, k);
    assert StepLine(p)[i] == b;
    assert SystemStep(s)[i] == m;
  }

  /** The total velocity of the moons along each axis never changes. */
  lemma SystemMomentumConserved(s: seq<Asteroid>, k: Axis)
    ensures Momentum(Project(SystemStep(s), k)) == Momentum(Project(s, k))
  {
    StepProjects(s, k);
    MomentumConserved(Project(s, k));
  }

  // ---------------------------------------------------------------------
  // Reading a moon

  /** `Unparsable` is the panic of `unwrap` on a component that is not an
      `i32`; `WrongCount` is the error for any number of components but 3. */
  datatype ParseError = Unparsable | WrongCount

  /** A component of a moon's line: an `i32`, surrounded by whitespace. */
  function Component(piece: string): Option<int> {
    ParseSigned(Trim(piece), I32_MIN, I32_MAX)
  }

  /** The values of all the options, or `None` when any of them has none:
      the components collected once every `unwrap` has succeeded. */
  function Collect(xs: seq<Option<int>>): (r: Option<seq<int>>)
    ensures r.Some? <==> forall i :: 0 <= i < |xs| ==> xs[i].Some?
    ensures r.Some? ==> |r.value| == |xs| && forall i :: 0 <= i < |xs| ==> xs[i] == Some(r.value[i])
    decreases |xs|
  {
    if |xs| == 0 then Some([])
    else
      var n := |xs| - 1;
      assert forall i :: 0 <= i < n ==> xs[..n][i] == xs[i];
      match Collect(xs[..n])
      case None => None
      case Some(front) =>
        match xs[n]
        case None => None
        case Some(last) => Some(front + [last])
  }

  /** Every piece of a line, parsed as a component. */
  function ComponentsOf(pieces: seq<string>): (r: seq<Option<int>>)
    ensures |r| == |pieces| && forall i :: 0 <= i < |pieces| ==> r[i] == Component(pieces[i])
  {
    seq(|pieces|, i requires 0 <= i < |pieces| => Component(pieces[i]))
  }

  /** `Asteroid::from_str`. Every comma-separated piece is parsed before the
      count is looked at, so a bad component panics even on a line with the
      wrong number of pieces. */
  function ParseAsteroid(s: string): (r: Result<Asteroid, ParseError>)
    ensures r == Err(Unparsable) <==>
      exists i :: 0 <= i < |Split(s, ',')| && ComponentsOf(Split(s, ','))[i].None?
    ensures r == Err(WrongCount) ==> |Split(s, ',')| != 3
    ensures r.Ok? ==> |Split(s, ',')| == 3 && r.value.velocity == Still
    ensures r.Ok? ==> ComponentsOf(Split(s, ',')) == [Some(r.value.x), Some(r.value.y), Some(r.value.z)]
  {
    FromComponents(ComponentsOf(Split(s, ',')))
  }

  /** `from_str` once every piece of the line is parsed. */
  function FromComponents(parsed: seq<Option<int>>): (r: Result<Asteroid, ParseError>)
    ensures r == Err(Unparsable) <==> exists i :: 0 <= i < |parsed| && parsed[i].None?
    ensures r == Err(WrongCount) ==> |parsed| != 3
    ensures r.Ok? ==> r.value.velocity == Still
    ensures r.Ok? ==> parsed == [Some(r.value.x), Some(r.value.y), Some(r.value.z)]
  {
    match Collect(parsed)
    case None => Err(Unparsable)
    case Some(cs) =>
      if |cs| == 3 then Ok(NewAsteroid(cs[0], cs[1], cs[2])) else Err(WrongCount)
  }

  /** An integer written out with whitespace around it. */
  function Padded(before: string, v: int, after: string): string {
    before + IntToString(v) + after
  }

  /** Whitespace around an `i32` is trimmed away before it is parsed. */
  lemma ComponentPadded(before: string, v: int, after: string)
    requires AllWhitespace(before) && AllWhitespace(after)
    requires I32_MIN <= v <= I32_MAX
    ensures Component(Padded(before, v, after)) == Some(v)
  {
    var t := IntToString(v);
    IntToStringShape(v);
    assert !IsWhitespace(t[0]) && !IsWhitespace(t[|t| - 1]);
    TrimIgnoresPadding(before, t, after);
    TrimUnpadded(t);
    assert Trim(Padded(before, v, after)) == t;
    ParseIntToString(v, I32_MIN, I32_MAX);
  }

  /** A padded integer holds no comma. */
  lemma PaddedHasNoComma(before: string, v: int, after: string)
    requires AllWhitespace(before) && AllWhitespace(after)
    ensures ',' !in Padded(before, v, after)
  {
    var t := IntToString(v);
    IntToStringShape(v);
    var p := Padded(before, v, after);
    forall k | 0 <= k < |p| ensures p[k] != ',' {
      if k < |before| {
        assert p[k] == before[k];
      } else if k < |before| + |t| {
        assert p[k] == t[k - |before|];
      } else {
        assert p[k] == after[k - |before| - |t|];
      }
    }
  }

  /** Three `i32`s written out with commas between them, and any whitespace
      around each, read back as a moon at rest at that position. */
  lemma ParseFormatted(x: int, y: int, z: int, w: seq<string>)
    requires |w| == 6 && forall i :: 0 <= i < 6 ==> AllWhitespace(w[i])
    requires I32_MIN <= x <= I32_MAX && I32_MIN <= y <= I32_MAX && I32_MIN <= z <= I32_MAX
    ensures ParseAsteroid(Padded(w[0], x, w[1]) + "," + Padded(w[2], y, w[3]) + "," + Padded(w[4], z, w[5]))
      == Ok(NewAsteroid(x, y, z))
  {
    var p0, p1, p2 := Padded(w[0], x, w[1]), Padded(w[2], y, w[3]), Padded(w[4], z, w[5]);
    ComponentPadded(w[0], x, w[1]);
    ComponentPadded(w[2], y, w[3]);
    ComponentPadded(w[4], z, w[5]);
    PaddedHasNoComma(w[0], x, w[1]);
    PaddedHasNoComma(w[2], y, w[3]);
    PaddedHasNoComma(w[4], z, w[5]);
    ParseThree(p0, p1, p2, x, y, z);
  }

  /** Three pieces that parse, with commas between them. */
  lemma ParseThree(p0: string, p1: string, p2: string, x: int, y: int, z: int)
    requires ',' !in p0 && ',' !in p1 && ',' !in p2
    requires Component(p0) == Some(x) && Component(p1) == Some(y) && Component(p2) == Some(z)
    ensures ParseAsteroid(p0 + "," + p1 + "," + p2) == Ok(NewAsteroid(x, y, z))
  {
    var s := p0 + "," + p1 + "," + p2;
    SplitThree(p0, p1, p2);
    ComponentsOfThree(p0, p1, p2, x, y, z);
    FromThree(x, y, z);
    assert ParseAsteroid(s) == FromComponents(ComponentsOf([p0, p1, p2]));
  }

  lemma ComponentsOfThree(p0: string, p1: string, p2: string, x: int, y: int, z: int)
    requires Component(p0) == Some(x) && Component(p1) == Some(y) && Component(p2) == Some(z)
    ensures ComponentsOf([p0, p1, p2]) == [Some(x), Some(y), Some(z)]
  {
    var pieces, parsed := [p0, p1, p2], [Some(x), Some(y), Some(z)];
    forall i | 0 <= i < 3 ensures Component(pieces[i]) == parsed[i] {
      if i == 0 {
        assert pieces[i] == p0 && parsed[i] == Some(x);
      } else if i == 1 {
        assert pieces[i] == p1 && parsed[i] == Some(y);
      } else {
        assert pieces[i] == p2 && parsed[i] == Some(z);
      }
    }
    ComponentsOfEach(pieces, parsed);
  }

  lemma ComponentsOfEach(pieces: seq<string>, parsed: seq<Option<int>>)
    requires |pieces| == |parsed|
    requires forall i :: 0 <= i < |pieces| ==> Component(pieces[i]) == parsed[i]
    ensures ComponentsOf(pieces) == parsed
  {
  }

  lemma SplitThree(p0: string, p1: string, p2: string)
    requires ',' !in p0 && ',' !in p1 && ',' !in p2
    ensures Split(p0 + "," + p1 + "," + p2, ',') == [p0, p1, p2]
  {
    assert p0 + "," + p1 + "," + p2 == p0 + [','] + (p1 + [','] + p2);
    SplitFirst(p0, p1 + [','] + p2, ',');
    SplitFirst(p1, p2, ',');
    SplitNone(p2, ',');
  }

  lemma FromThree(x: int, y: int, z: int)
    ensures FromComponents([Some(x), Some(y), Some(z)]) == Ok(NewAsteroid(x, y, z))
  {
  }

  // ---------------------------------------------------------------------
  // The unit tests of the program, as the code answers them

  /** The pull on a moon from a system of four. */
  lemma GravityOfFour(c: int, qs: seq<int>)
    requires |qs| == 4
    ensures Gravity(c, qs) == Pull(c, qs[0]) + Pull(c, qs[1]) + Pull(c, qs[2]) + Pull(c, qs[3])
  {
    var q3, q2, q1 := qs[..3], qs[..2], qs[..1];
    assert qs[..|qs| - 1] == q3 && q3[..2] == q2 && q2[..1] == q1 && q1[..0] == [];
    assert Gravity(c, q1) == Pull(c, qs[0]);
    assert Gravity(c, q2) == Gravity(c, q1) + Pull(c, qs[1]);
    assert Gravity(c, q3) == Gravity(c, q2) + Pull(c, qs[2]);
  }

  /** A moon's step in a system of four, spelt out pull by pull. */
  function MoveInFour(a: Asteroid, s: seq<Asteroid>): Asteroid
    requires |s| == 4
  {
    var v := Vector(
      a.velocity.x + Pull(a.x, s[0].x) + Pull(a.x, s[1].x) + Pull(a.x, s[2].x) + Pull(a.x, s[3].x),
      a.velocity.y + Pull(a.y, s[0].y) + Pull(a.y, s[1].y) + Pull(a.y, s[2].y) + Pull(a.y, s[3].y),
      a.velocity.z + Pull(a.z, s[0].z) + Pull(a.z, s[1].z) + Pull(a.z, s[2].z) + Pull(a.z, s[3].z));
    Asteroid(a.x + v.x, a.y + v.y, a.z + v.z, v)
  }

  lemma MoveIsMoveInFour(a: Asteroid, s: seq<Asteroid>)
    requires |s| == 4
    ensures Move(a, s) == MoveInFour(a, s)
  {
    GravityOfFour(a.x, Coords(s, X));
    GravityOfFour(a.y, Coords(s, Y));
    GravityOfFour(a.z, Coords(s, Z));
  }

  /** A moon's place after a step. */
  lemma StepAt(s: seq<Asteroid>, i: int)
    requires 0 <= i < |s|
    ensures SystemStep(s)[i] == Move(s[i], s)
  {
  }

  /** A step of a system of four, spelt out moon by moon. */
  lemma StepOfFour(s: seq<Asteroid>)
    requires |s| == 4
    ensures SystemStep(s) == [MoveInFour(s[0], s), MoveInFour(s[1], s), MoveInFour(s[2], s), MoveInFour(s[3], s)]
  {
    var r := [MoveInFour(s[0], s), MoveInFour(s[1], s), MoveInFour(s[2], s), MoveInFour(s[3], s)];
    var t := SystemStep(s);
    forall i | 0 <= i < 4 ensures t[i] == r[i] {
      StepOfFourAt(s, i);
    }
    assert t == r;
  }

  /** A step of four moons, given where each one goes. */
  lemma StepOfFourIs(s: seq<Asteroid>, t: seq<Asteroid>)
    requires |s| == 4 && |t| == 4
    requires MoveInFour(s[0], s) == t[0] && MoveInFour(s[1], s) == t[1]
    requires MoveInFour(s[2], s) == t[2] && MoveInFour(s[3], s) == t[3]
    ensures SystemStep(s) == t
  {
    StepOfFour(s);
    assert t == [t[0], t[1], t[2], t[3]];
  }

  lemma StepOfFourAt(s: seq<Asteroid>, i: int)
    requires |s| == 4 && 0 <= i < 4
    ensures SystemStep(s)[i] == MoveInFour(s[i], s)
  {
    MoveIsMoveInFour(s[i], s);
    StepAt(s, i);
  }

  /** The energy of a system of four. */
  lemma SystemEnergyOfFour(s: seq<Asteroid>)
    requires |s| == 4
    ensures SystemEnergy(s) == Energy(s[0]) + Energy(s[1]) + Energy(s[2]) + Energy(s[3])
  {
    SumOfFour(Energies(s));
  }

  /** The system of `system_step` and `system_energy`, as read. */
  const FirstSystem := [NewAsteroid(10, 1, 11), NewAsteroid(5, 20, 30), NewAsteroid(4, -19, 10), NewAsteroid(15, -4, -4)]

  /** The same system after one step, as `system_step` expects it. */
  const FirstSystemAfterStep := [
    Asteroid(9, 0, 10, Vector(-1, -1, -1)),
    Asteroid(6, 17, 27, Vector(1, -3, -3)),
    Asteroid(7, -16, 11, Vector(3, 3, 1)),
    Asteroid(12, -3, -1, Vector(-3, 1, 3))]

  /** `system_step`: the moons after one step. */
  lemma FirstSystemStep()
    ensures SystemStep(FirstSystem) == FirstSystemAfterStep
  {
    var s, t := FirstSystem, FirstSystemAfterStep;
    assert MoveInFour(s[0], s) == t[0] by {}
    assert MoveInFour(s[1], s) == t[1] by {}
    assert MoveInFour(s[2], s) == t[2] by {}
    assert MoveInFour(s[3], s) == t[3] by {}
    StepOfFourIs(s, t);
  }

  /** `system_energy`, first half: the system has no energy as read,
      since nothing moves yet. */
  lemma FirstSystemEnergy()
    ensures SystemEnergy(FirstSystem) == 0
  {
    RestingSystemHasNoEnergy(FirstSystem);
  }

  /** `system_energy`, second half: 757 after one step. */
  lemma FirstSystemStepEnergy()
    ensures SystemEnergy(FirstSystemAfterStep) == 757
  {
    var s := FirstSystemAfterStep;
    SystemEnergyOfFour(s);
    assert Energy(s[0]) == 57 && Energy(s[1]) == 350 && Energy(s[2]) == 238 && Energy(s[3]) == 112;
  }

  /** The system of `system_energy_eg1`, as read. */
  const SecondSystem := [NewAsteroid(-1, 0, 2), NewAsteroid(2, -10, -7), NewAsteroid(4, -8, 8), NewAsteroid(3, 5, -1)]

  const SecondSystem1 := [
    Asteroid(2, -1, 1, Vector(3, -1, -1)),
    Asteroid(3, -7, -4, Vector(1, 3, 3)),
    Asteroid(1, -7, 5, Vector(-3, 1, -3)),
    Asteroid(2, 2, 0, Vector(-1, -3, 1))]

  const SecondSystem2 := [
    Asteroid(5, -3, -1, Vector(3, -2, -2)),
    Asteroid(1, -2, 2, Vector(-2, 5, 6)),
    Asteroid(1, -4, -1, Vector(0, 3, -6)),
    Asteroid(1, -4, 2, Vector(-1, -6, 2))]

  const SecondSystem3 := [
    Asteroid(5, -6, -1, Vector(0, -3, 0)),
    Asteroid(0, 0, 6, Vector(-1, 2, 4)),
    Asteroid(2, 1, -5, Vector(1, 5, -4)),
    Asteroid(1, -8, 2, Vector(0, -4, 0))]

  const SecondSystem4 := [
    Asteroid(2, -8, 0, Vector(-3, -2, 1)),
    Asteroid(2, 1, 7, Vector(2, 1, 1)),
    Asteroid(2, 3, -6, Vector(0, 2, -1)),
    Asteroid(2, -9, 1, Vector(1, -1, -1))]

  const SecondSystem5 := [
    Asteroid(-1, -9, 2, Vector(-3, -1, 2)),
    Asteroid(4, 1, 5, Vector(2, 0, -2)),
    Asteroid(2, 2, -4, Vector(0, -1, 2)),
    Asteroid(3, -7, -1, Vector(1, 2, -2))]

  const SecondSystem6 := [
    Asteroid(-1, -7, 3, Vector(0, 2, 1)),
    Asteroid(3, 0, 0, Vector(-1, -1, -5)),
    Asteroid(3, -2, 1, Vector(1, -4, 5)),
    Asteroid(3, -4, -2, Vector(0, 3, -1))]

  const SecondSystem7 := [
    Asteroid(2, -2, 1, Vector(3, 5, -2)),
    Asteroid(1, -4, -4, Vector(-2, -4, -4)),
    Asteroid(3, -7, 5, Vector(0, -5, 4)),
    Asteroid(2, 0, 0, Vector(-1, 4, 2))]

  const SecondSystem8 := [
    Asteroid(5, 2, -2, Vector(3, 4, -3)),
    Asteroid(2, -7, -5, Vector(1, -3, -1)),
    Asteroid(0, -9, 6, Vector(-3, -2, 1)),
    Asteroid(1, 1, 3, Vector(-1, 1, 3))]

  const SecondSystem9 := [
    Asteroid(5, 3, -4, Vector(0, 1, -2)),
    Asteroid(2, -9, -3, Vector(0, -2, 2)),
    Asteroid(0, -8, 4, Vector(0, 1, -2)),
    Asteroid(1, 1, 5, Vector(0, 0, 2))]

  const SecondSystem10 := [
    Asteroid(2, 1, -3, Vector(-3, -2, 1)),
    Asteroid(1, -8, 0, Vector(-1, 1, 3)),
    Asteroid(3, -6, 1, Vector(3, 2, -3)),
    Asteroid(2, 0, 4, Vector(1, -1, -1))]

  /** `n` steps of the system. */
  function Steps(s: seq<Asteroid>, n: nat): (r: seq<Asteroid>)
    ensures |r| == |s|
    decreases n
  {
    if n == 0 then s else Steps(SystemStep(s), n - 1)
  }

  lemma SecondSystemStep1()
    ensures SystemStep(SecondSystem) == SecondSystem1
  {
    var s, t := SecondSystem, SecondSystem1;
    assert MoveInFour(s[0], s) == t[0] by {}
    assert MoveInFour(s[1], s) == t[1] by {}
    assert MoveInFour(s[2], s) == t[2] by {}
    assert MoveInFour(s[3], s) == t[3] by {}
    StepOfFourIs(s, t);
  }

  lemma SecondSystemStep2()
    ensures SystemStep(SecondSystem1) == SecondSystem2
  {
    var s, t := SecondSystem1, SecondSystem2;
    assert MoveInFour(s[0], s) == t[0] by {}
    assert MoveInFour(s[1], s) == t[1] by {}
    assert MoveInFour(s[2], s) == t[2] by {}
    assert MoveInFour(s[3], s) == t[3] by {}
    StepOfFourIs(s, t);
  }

  lemma SecondSystemStep3()
    ensures SystemStep(SecondSystem2) == SecondSystem3
  {
    var s, t := SecondSystem2, SecondSystem3;
    assert MoveInFour(s[0], s) == t[0] by {}
    assert MoveInFour(s[1], s) == t[1] by {}
    assert MoveInFour(s[2], s) == t[2] by {}
    assert MoveInFour(s[3], s) == t[3] by {}
    StepOfFourIs(s, t);
  }

  lemma SecondSystemStep4()
    ensures SystemStep(SecondSystem3) == SecondSystem4
  {
    var s, t := SecondSystem3, SecondSystem4;
    assert MoveInFour(s[0], s) == t[0] by {}
    assert MoveInFour(s[1], s) == t[1] by {}
    assert MoveInFour(s[2], s) == t[2] by {}
    assert MoveInFour(s[3], s) == t[3] by {}
    StepOfFourIs(s, t);
  }

  lemma SecondSystemStep5()
    ensures SystemStep(SecondSystem4) == SecondSystem5
  {
    var s, t := SecondSystem4, SecondSystem5;
    assert MoveInFour(s[0], s) == t[0] by {}
    assert MoveInFour(s[1], s) == t[1] by {}
    assert MoveInFour(s[2], s) == t[2] by {}
    assert MoveInFour(s[3], s) == t[3] by {}
    StepOfFourIs(s, t);
  }

  lemma SecondSystemStep6()
    ensures SystemStep(SecondSystem5) == SecondSystem6
  {
    var s, t := SecondSystem5, SecondSystem6;
    assert MoveInFour(s[0], s) == t[0] by {}
    assert MoveInFour(s[1], s) == t[1] by {}
    assert MoveInFour(s[2], s) == t[2] by {}
    assert MoveInFour(s[3], s) == t[3] by {}
    StepOfFourIs(s, t);
  }

  lemma SecondSystemStep7()
    ensures SystemStep(SecondSystem6) == SecondSystem7
  {
    var s, t := SecondSystem6, SecondSystem7;
    assert MoveInFour(s[0], s) == t[0] by {}
    assert MoveInFour(s[1], s) == t[1] by {}
    assert MoveInFour(s[2], s) == t[2] by {}
    assert MoveInFour(s[3], s) == t[3] by {}
    StepOfFourIs(s, t);
  }

  lemma SecondSystemStep8()
    ensures SystemStep(SecondSystem7) == SecondSystem8
  {
    var s, t := SecondSystem7, SecondSystem8;
    assert MoveInFour(s[0], s) == t[0] by {}
    assert MoveInFour(s[1], s) == t[1] by {}
    assert MoveInFour(s[2], s) == t[2] by {}
    assert MoveInFour(s[3], s) == t[3] by {}
    StepOfFourIs(s, t);
  }

  lemma SecondSystemStep9()
    ensures SystemStep(SecondSystem8) == SecondSystem9
  {
    var s, t := SecondSystem8, SecondSystem9;
    assert MoveInFour(s[0], s) == t[0] by {}
    assert MoveInFour(s[1], s) == t[1] by {}
    assert MoveInFour(s[2], s) == t[2] by {}
    assert MoveInFour(s[3], s) == t[3] by {}
    StepOfFourIs(s, t);
  }

  lemma SecondSystemStep10()
    ensures SystemStep(SecondSystem9) == SecondSystem10
  {
    var s, t := SecondSystem9, SecondSystem10;
    assert MoveInFour(s[0], s) == t[0] by {}
    assert MoveInFour(s[1], s) == t[1] by {}
    assert MoveInFour(s[2], s) == t[2] by {}
    assert MoveInFour(s[3], s) == t[3] by {}
    StepOfFourIs(s, t);
  }

  /** `system_energy_eg1`, first half: ten steps reach the tenth state. */
  lemma SecondSystemTenSteps()
    ensures Steps(SecondSystem, 10) == SecondSystem10
  {
    SecondSystemStep1();
    SecondSystemStep2();
    SecondSystemStep3();
    SecondSystemStep4();
    SecondSystemStep5();
    SecondSystemStep6();
    SecondSystemStep7();
    SecondSystemStep8();
    SecondSystemStep9();
    SecondSystemStep10();
    assert Steps(SecondSystem, 10) == Steps(SecondSystem1, 9) == Steps(SecondSystem2, 8) == Steps(SecondSystem3, 7) == Steps(SecondSystem4, 6) == Steps(SecondSystem5, 5) == Steps(SecondSystem6, 4) == Steps(SecondSystem7, 3) == Steps(SecondSystem8, 2) == Steps(SecondSystem9, 1) == Steps(SecondSystem10, 0);
  }

  /** `system_energy_eg1`, second half: the tenth state has energy 179. */
  lemma SecondSystemEnergy()
    ensures SystemEnergy(SecondSystem10) == 179
  {
    var s := SecondSystem10;
    SystemEnergyOfFour(s);
    assert Energy(s[0]) == 36 && Energy(s[1]) == 45 && Energy(s[2]) == 80 && Energy(s[3]) == 18;
  }

  /** `asteroid_from_string`. */
  lemma ParseExample()
    ensures ParseAsteroid("  24,  12   , 42 ") == Ok(NewAsteroid(24, 12, 42))
  {
    var w := ["  ", "", "  ", "   ", " ", " "];
    ExampleIsPadded(w);
    ParseFormatted(24, 12, 42, w);
  }

  lemma ExampleIsPadded(w: seq<string>)
    requires w == ["  ", "", "  ", "   ", " ", " "]
    ensures "  24,  12   , 42 " == Padded(w[0], 24, w[1]) + "," + Padded(w[2], 12, w[3]) + "," + Padded(w[4], 42, w[5])
  {
    assert IntToString(24) == "24" && IntToString(12) == "12" && IntToString(42) == "42";
  }
}
