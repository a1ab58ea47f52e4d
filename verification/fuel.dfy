/** `src/day1/main.rs`: the fuel a module of a given mass needs, counting
    the fuel the fuel itself needs. */
module Fuel {

  /** `fuel_required`: a third of the mass rounded down, less two, plus the
      fuel for that fuel, while that amount stays positive. */
  function FuelRequired(mass: nat): (fuel: nat)
    ensures mass <= 8 ==> fuel == 0
    ensures mass >= 9 ==> mass / 3 - 2 >= 1 && fuel >= mass / 3 - 2
    ensures 2 * fuel <= mass
    decreases mass
  {
    var f := mass / 3 - 2;
    if f <= 0 then 0 else f + FuelRequired(f)
  }

  /** Heavier modules never need less fuel. */
  lemma {:induction false} FuelMonotone(m1: nat, m2: nat)
    requires m1 <= m2
    ensures FuelRequired(m1) <= FuelRequired(m2)
    decreases m2
  {
    var f1 := m1 / 3 - 2;
    var f2 := m2 / 3 - 2;
    assert f1 <= f2;
    if f1 > 0 {
      FuelMonotone(f1, f2);
      assert FuelRequired(m1) == f1 + FuelRequired(f1);
      assert FuelRequired(m2) == f2 + FuelRequired(f2);
    }
  }

  /** The sum `main` prints: fuel for every module, added up. */
  function TotalFuel(masses: seq<nat>): nat {
    if |masses| == 0 then 0 else TotalFuel(masses[..|masses| - 1]) + FuelRequired(masses[|masses| - 1])
  }

  /** The summing loop of `main`, with the masses already parsed. */
  method SumFuel(masses: seq<nat>) returns (total: nat)
    ensures total == TotalFuel(masses)
  {
    total := 0;
    var i := 0;
    while i < |masses|
      invariant 0 <= i <= |masses|
      invariant total == TotalFuel(masses[..i])
    {
      assert masses[..i + 1][..i] == masses[..i];
      total := total + FuelRequired(masses[i]);
      i := i + 1;
    }
    assert masses[..i] == masses;
  }

  lemma {:induction false} TotalFuelAppend(a: seq<nat>, b: seq<nat>)
    ensures TotalFuel(a + b) == TotalFuel(a) + TotalFuel(b)
    decreases |b|
  {
    if |b| == 0 {
      assert a + b == a;
    } else {
      assert (a + b)[..|a + b| - 1] == a + b[..|b| - 1];
      TotalFuelAppend(a, b[..|b| - 1]);
    }
  }

  /** The total does not depend on the order the masses arrive in. */
  lemma {:induction false} TotalFuelPermutation(a: seq<nat>, b: seq<nat>)
    requires multiset(a) == multiset(b)
    ensures TotalFuel(a) == TotalFuel(b)
    decreases |a|
  {
    if |a| == 0 {
      assert |b| == |multiset(b)| == 0;
    } else {
      var last := a[|a| - 1];
      var rest := a[..|a| - 1];
      assert a == rest + [last];
      assert multiset(a) == multiset(rest) + multiset{last};
      assert last in multiset(b);
      var k :| 0 <= k < |b| && b[k] == last;
      var others := PickOut(b, k);
      assert multiset(rest) == multiset(a) - multiset{last};
      assert multiset(others) == multiset(b) - multiset{last};
      TotalFuelPermutation(rest, others);
    }
  }

  /** Taking out the mass at `k` leaves the others, whose total falls by that
      mass's fuel. */
  lemma PickOut(b: seq<nat>, k: nat) returns (others: seq<nat>)
    requires k < |b|
    ensures others == b[..k] + b[k + 1..]
    ensures multiset(b) == multiset(others) + multiset{b[k]}
    ensures TotalFuel(b) == TotalFuel(others) + FuelRequired(b[k])
  {
    others := b[..k] + b[k + 1..];
    var last := b[k];
    assert b == b[..k] + [last] + b[k + 1..];
    TotalFuelAppend(b[..k] + [last], b[k + 1..]);
    TotalFuelAppend(b[..k], [last]);
    TotalFuelAppend(b[..k], b[k + 1..]);
    assert TotalFuel([last]) == FuelRequired(last) by {
      assert [last][..0] == [];
    }
  }
}
