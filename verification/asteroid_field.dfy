/** `src/day10/main.rs`, the grid parser `get_field` and the ordering of
    `Point`: a map of `#` (asteroid) and `.` (empty) characters becomes the
    set of asteroid coordinates, `x` counting characters of a trimmed line
    and `y` counting lines. */
module AsteroidField {
  import opened Text

  datatype Point = Point(x: int, y: int)

  /** The derived `Ord` of `Point`: by `x`, then by `y`. */
  predicate Less(a: Point, b: Point) {
    a.x < b.x || (a.x == b.x && a.y < b.y)
  }

  /** `Less` is a strict total order, so the set iterates in one order. */
  lemma LessIsStrictTotalOrder(a: Point, b: Point, c: Point)
    ensures !Less(a, a)
    ensures Less(a, b) ==> !Less(b, a)
    ensures Less(a, b) && Less(b, c) ==> Less(a, c)
    ensures a == b || Less(a, b) || Less(b, a)
  {
  }

  /** The asteroids of one trimmed line at height `y`. */
  function RowPoints(line: string, y: int): (r: set<Point>)
    ensures forall p :: p in r <==> p.y == y && 0 <= p.x < |line| && line[p.x] == '#'
  {
    if |line| == 0 then {}
    else
      var last := |line| - 1;
      var rest := RowPoints(line[..last], y);
      if line[last] == '#' then rest + {Point(last, y)} else rest
  }

  /** The asteroids of the first `|lines|` lines. */
  function FieldOf(lines: seq<string>): (r: set<Point>)
    ensures forall p :: p in r <==>
      0 <= p.y < |lines| && 0 <= p.x < |Trim(lines[p.y])| && Trim(lines[p.y])[p.x] == '#'
  {
    if |lines| == 0 then {}
    else
      var last := |lines| - 1;
      assert forall y :: 0 <= y < last ==> lines[..last][y] == lines[y];
      FieldOf(lines[..last]) + RowPoints(Trim(lines[last]), last)
  }

  /** `get_field`. */
  function GetField(input: string): (r: set<Point>)
    ensures forall p :: p in r ==> 0 <= p.y < |Lines(input)| && 0 <= p.x < |Trim(Lines(input)[p.y])|
  {
    FieldOf(Lines(input))
  }

  /** A point is an asteroid exactly when its character, counted in the
      trimmed line, is `#`; every other character is empty space. */
  lemma GetFieldSpec(input: string, p: Point)
    ensures p in GetField(input) <==>
      var lines := Lines(input);
      0 <= p.y < |lines| && 0 <= p.x < |Trim(lines[p.y])| && Trim(lines[p.y])[p.x] == '#'
  {
  }

  /** Indenting a line, as the tests do with their grids, does not move its
      asteroids. */
  lemma IndentationIgnored(before: string, line: string, after: string, y: int)
    requires AllWhitespace(before) && AllWhitespace(after)
    ensures RowPoints(Trim(before + line + after), y) == RowPoints(Trim(line), y)
  {
    TrimIgnoresPadding(before, line, after);
  }
}
