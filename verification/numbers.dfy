/** Integer helpers shared by the puzzles that measure distances and
    energies. */
module Numbers {

  /** `i32::abs` on unbounded integers. */
  function Abs(n: int): (a: nat)
    ensures a == n || a == -n
  {
    if n < 0 then -n else n
  }

  /** The sum of a sequence of naturals. */
  function Sum(xs: seq<nat>): nat
    decreases |xs|
  {
    if |xs| == 0 then 0 else Sum(xs[..|xs| - 1]) + xs[|xs| - 1]
  }

  /** The sum bounds every term, and is zero exactly when every term is. */
  lemma {:induction false} SumBounds(xs: seq<nat>)
    ensures forall i :: 0 <= i < |xs| ==> xs[i] <= Sum(xs)
    ensures Sum(xs) == 0 <==> forall i :: 0 <= i < |xs| ==> xs[i] == 0
    decreases |xs|
  {
    if |xs| > 0 {
      var n := |xs| - 1;
      SumBounds(xs[..n]);
      assert forall i :: 0 <= i < n ==> xs[..n][i] == xs[i];
    }
  }

  lemma SumOfFour(xs: seq<nat>)
    requires |xs| == 4
    ensures Sum(xs) == xs[0] + xs[1] + xs[2] + xs[3]
  {
    var x3, x2, x1 := xs[..3], xs[..2], xs[..1];
    assert xs[..|xs| - 1] == x3 && x3[..2] == x2 && x2[..1] == x1 && x1[..0] == [];
    assert Sum(x1) == xs[0];
    assert Sum(x2) == Sum(x1) + xs[1];
    assert Sum(x3) == Sum(x2) + xs[2];
  }
}
