/** `src/day6/main.rs`: a map from each body to the body it orbits, built
    from lines `A)B` ("B orbits A"), and the total number of direct and
    indirect orbits, which is the sum of every body's distance to `COM`. */
module Orbits {
  import opened Outcome

  const Root: string := "COM"

  type Parents = map<string, string>

  /** Following `n` parent links from `node` reaches `COM`, and no earlier
      link does. The parent chain is deterministic, so `n` is unique. */
  predicate ChainReaches(parents: Parents, node: string, n: nat)
    decreases n
  {
    if node == Root then n == 0
    else n > 0 && node in parents && ChainReaches(parents, parents[node], n - 1)
  }

  /** The parent chain from `node` ends at `COM`: no missing parent, no cycle. */
  ghost predicate Rooted(parents: Parents, node: string) {
    exists n :: ChainReaches(parents, node, n)
  }

  lemma {:induction false} ChainUnique(parents: Parents, node: string, n: nat, m: nat)
    requires ChainReaches(parents, node, n) && ChainReaches(parents, node, m)
    ensures n == m
    decreases n
  {
    if node != Root {
      ChainUnique(parents, parents[node], n - 1, m - 1);
    }
  }

  /** The number of links from `node` to `COM`. */
  ghost function Height(parents: Parents, node: string): (h: nat)
    requires Rooted(parents, node)
    ensures ChainReaches(parents, node, h)
  {
    var n :| ChainReaches(parents, node, n); n
  }

  /** `distance_from_root`. It panics on a missing parent and recurses
      forever on a cycle, so it is only defined for rooted bodies. */
  function DistanceFromRoot(parents: Parents, node: string): (d: nat)
    requires Rooted(parents, node)
    ensures ChainReaches(parents, node, d)
    ensures node != Root ==> d >= 1
    decreases Height(parents, node)
  {
    if node == Root then 0
    else
      var h := Height(parents, node);
      assert ChainReaches(parents, parents[node], h - 1);
      ChainUnique(parents, parents[node], h - 1, Height(parents, parents[node]));
      1 + DistanceFromRoot(parents, parents[node])
  }

  // ---------------------------------------------------------------------
  // Building the map

  /** `line.splitn(2, ')')`, then `input[1]`: the text before the first `)`
      and the text after it; `None` is the panic of a line with no `)`. */
  function ParseOrbit(line: string): (r: Option<(string, string)>)
    ensures r.None? <==> ')' !in line
    ensures r.Some? ==> line == r.value.0 + ")" + r.value.1 && ')' !in r.value.0
  {
    if |line| == 0 then None
    else if line[0] == ')' then
      assert line == "" + ")" + line[1..];
      Some(("", line[1..]))
    else
      match ParseOrbit(line[1..])
      case None => None
      case Some((a, b)) =>
        assert line == [line[0]] + line[1..];
        Some(([line[0]] + a, b))
  }

  /** The lines `main` reads: all of them up to the first empty one. */
  function Read(lines: seq<string>): (r: seq<string>)
    ensures r <= lines
    ensures forall i :: 0 <= i < |r| ==> r[i] != ""
    ensures |r| < |lines| ==> lines[|r|] == ""
  {
    if |lines| == 0 || lines[0] == "" then [] else [lines[0]] + Read(lines[1..])
  }

  /** The insertion loop over the lines read; later lines overwrite earlier
      ones with the same orbiter. `None` is the panic of a line with no `)`. */
  function Insert(lines: seq<string>): Option<Parents> {
    if |lines| == 0 then Some(map[])
    else
      match Insert(lines[..|lines| - 1])
      case None => None
      case Some(parents) =>
        match ParseOrbit(lines[|lines| - 1])
        case None => None
        case Some((orbitee, orbiter)) => Some(parents[orbiter := orbitee])
  }

  /** The map `main` builds from its input lines: it fails exactly when a
      line read lacks a `)`. */
  function BuildParents(lines: seq<string>): (r: Option<Parents>)
    ensures r.None? <==> exists k :: 0 <= k < |Read(lines)| && ParseOrbit(Read(lines)[k]).None?
  {
    InsertFails(Read(lines));
    Insert(Read(lines))
  }

  /** The line `k` of `lines` names `b` as its orbiter. */
  predicate OrbiterAt(lines: seq<string>, k: int, b: string)
    requires 0 <= k < |lines|
  {
    var o := ParseOrbit(lines[k]);
    o.Some? && o.value.1 == b
  }

  /** Line `k` is the last line naming `b` as its orbiter. */
  predicate LastOrbiterAt(lines: seq<string>, k: int, b: string) {
    && 0 <= k < |lines|
    && OrbiterAt(lines, k, b)
    && forall j :: k < j < |lines| ==> !OrbiterAt(lines, j, b)
  }

  /** Building fails exactly when some line lacks a `)`. */
  lemma {:induction false} InsertFails(lines: seq<string>)
    ensures Insert(lines).None? <==> exists k :: 0 <= k < |lines| && ParseOrbit(lines[k]).None?
  {
    if |lines| > 0 {
      var prefix := lines[..|lines| - 1];
      var n := |lines| - 1;
      InsertFails(prefix);
      if Insert(prefix).None? {
        var k :| 0 <= k < n && ParseOrbit(prefix[k]).None?;
        assert ParseOrbit(lines[k]).None?;
      } else if Insert(lines).Some? {
        forall k | 0 <= k < |lines| ensures ParseOrbit(lines[k]).Some? {
          if k < n { assert lines[k] == prefix[k]; }
        }
      }
    }
  }

  /** The keys of the map are the orbiters of the lines. */
  lemma {:induction false} InsertKeys(lines: seq<string>, b: string)
    requires Insert(lines).Some?
    ensures b in Insert(lines).value <==> exists k :: 0 <= k < |lines| && OrbiterAt(lines, k, b)
  {
    if |lines| > 0 {
      var prefix := lines[..|lines| - 1];
      var n := |lines| - 1;
      InsertKeys(prefix, b);
      var b0 := ParseOrbit(lines[n]).value.1;
      if b == b0 {
        assert OrbiterAt(lines, n, b);
      } else if b in Insert(prefix).value {
        var k :| 0 <= k < n && OrbiterAt(prefix, k, b);
        assert OrbiterAt(lines, k, b);
      } else {
        forall k | 0 <= k < |lines| ensures !OrbiterAt(lines, k, b) {
          if k < n { assert lines[k] == prefix[k] && !OrbiterAt(prefix, k, b); }
        }
      }
    }
  }

  /** Each orbiter maps to the orbitee of the last line that names it:
      later lines overwrite earlier ones. */
  lemma {:induction false} InsertLastWins(lines: seq<string>, b: string)
    requires Insert(lines).Some? && b in Insert(lines).value
    ensures exists k :: LastOrbiterAt(lines, k, b) && ParseOrbit(lines[k]).value.0 == Insert(lines).value[b]
  {
    var prefix := lines[..|lines| - 1];
    var n := |lines| - 1;
    var (a, b0) := ParseOrbit(lines[n]).value;
    if b == b0 {
      assert LastOrbiterAt(lines, n, b);
    } else {
      InsertLastWins(prefix, b);
      var k :| LastOrbiterAt(prefix, k, b) && ParseOrbit(prefix[k]).value.0 == Insert(prefix).value[b];
      assert LastOrbiterAt(prefix, k, b);
      assert lines[k] == prefix[k];
      forall j | k < j < |lines| ensures !OrbiterAt(lines, j, b) {
        if j < n { assert lines[j] == prefix[j]; assert !OrbiterAt(prefix, j, b); }
      }
      assert LastOrbiterAt(lines, k, b);
    }
  }

  /** The built map has a key for each orbiter named by a line read before
      the first empty line, mapped to the orbitee of the last such line. */
  lemma BuildParentsSpec(lines: seq<string>, b: string)
    requires BuildParents(lines).Some?
    ensures b in BuildParents(lines).value <==>
      exists k :: 0 <= k < |Read(lines)| && OrbiterAt(Read(lines), k, b)
    ensures b in BuildParents(lines).value ==>
      exists k :: LastOrbiterAt(Read(lines), k, b) && ParseOrbit(Read(lines)[k]).value.0 == BuildParents(lines).value[b]
  {
    var read := Read(lines);
    assert BuildParents(lines) == Insert(read);
    InsertKeys(read, b);
    if b in Insert(read).value {
      InsertLastWins(read, b);
      var j :| LastOrbiterAt(read, j, b) && ParseOrbit(read[j]).value.0 == Insert(read).value[b];
      assert 0 <= j < |Read(lines)| && OrbiterAt(Read(lines), j, b);
    } else {
      assert !exists k :: 0 <= k < |read| && OrbiterAt(read, k, b);
    }
  }

  // ---------------------------------------------------------------------
  // The total

  ghost predicate AllRooted(parents: Parents) {
    forall b :: b in parents ==> exists n :: ChainReaches(parents, b, n)
  }

  /** The sum of the distances of the bodies in `keys`. */
  ghost function SumDistances(parents: Parents, keys: set<string>): nat
    requires AllRooted(parents) && keys <= parents.Keys
    decreases keys
  {
    if keys == {} then 0
    else
      var k :| k in keys;
      DistanceFromRoot(parents, k) + SumDistances(parents, keys - {k})
  }

  /** The sum does not depend on which body is taken first. */
  lemma {:induction false} SumDistancesPick(parents: Parents, keys: set<string>, k: string)
    requires AllRooted(parents) && keys <= parents.Keys && k in keys
    ensures SumDistances(parents, keys) == DistanceFromRoot(parents, k) + SumDistances(parents, keys - {k})
    decreases keys
  {
    var j :| j in keys && SumDistances(parents, keys) == DistanceFromRoot(parents, j) + SumDistances(parents, keys - {j});
    if j != k {
      SumDistancesPick(parents, keys - {j}, k);
      SumDistancesPick(parents, keys - {k}, j);
      assert keys - {j} - {k} == keys - {k} - {j};
    }
  }

  /** The total of `main`: every key's distance to `COM`, summed in the
      map's iteration order, which does not matter. */
  method TotalOrbits(parents: Parents) returns (total: nat)
    requires AllRooted(parents)
    ensures total == SumDistances(parents, parents.Keys)
  {
    total := 0;
    var todo := parents.Keys;
    while todo != {}
      invariant todo <= parents.Keys
      invariant total + SumDistances(parents, todo) == SumDistances(parents, parents.Keys)
      decreases todo
    {
      var k :| k in todo;
      SumDistancesPick(parents, todo, k);
      total := total + DistanceFromRoot(parents, k);
      todo := todo - {k};
    }
  }
}
