/** `src/day8/main.rs`: an image sent as one line of digits, cut into layers
    of 25 x 6 pixels; the check value is the number of 1 digits times the
    number of 2 digits in the layer with the fewest 0 digits. */
module Image {
  import opened Outcome
  import opened Text

  const LAYER_LEN: nat := 25 * 6

  /** `to_digit(10).unwrap()` on every character; `None` is the panic on a
      character that is not a decimal digit. */
  function Digits(s: string): (r: Option<seq<nat>>)
    ensures r.Some? <==> AllDigits(s)
    ensures r.Some? ==> |r.value| == |s| && forall i :: 0 <= i < |s| ==> r.value[i] == DigitValue(s[i])
  {
    if |s| == 0 then Some([])
    else if !IsDigit(s[|s| - 1]) then None
    else match Digits(s[..|s| - 1])
      case None => None
      case Some(ds) => Some(ds + [DigitValue(s[|s| - 1])])
  }

  /** `chunks(n)`: consecutive pieces of `n`, the last one possibly shorter. */
  function Chunks(xs: seq<nat>, n: nat): (r: seq<seq<nat>>)
    requires n > 0
    ensures forall i :: 0 <= i < |r| ==> 0 < |r[i]| <= n
    ensures forall i :: 0 <= i < |r| - 1 ==> |r[i]| == n
    ensures |xs| == 0 <==> |r| == 0
    decreases |xs|
  {
    if |xs| == 0 then []
    else if |xs| <= n then [xs]
    else [xs[..n]] + Chunks(xs[n..], n)
  }

  function Flatten(layers: seq<seq<nat>>): seq<nat> {
    if |layers| == 0 then [] else layers[0] + Flatten(layers[1..])
  }

  /** Cutting into layers loses and reorders nothing. */
  lemma {:induction false} ChunksFlatten(xs: seq<nat>, n: nat)
    requires n > 0
    ensures Flatten(Chunks(xs, n)) == xs
    decreases |xs|
  {
    if |xs| > n {
      ChunksFlatten(xs[n..], n);
      var r := Chunks(xs, n);
      assert r[1..] == Chunks(xs[n..], n);
      assert xs == xs[..n] + xs[n..];
    } else if |xs| > 0 {
      assert Chunks(xs, n)[1..] == [];
    }
  }

  /** The number of pixels of `layer` equal to `v`. */
  function CountOf(layer: seq<nat>, v: nat): (c: nat)
    ensures c <= |layer|
  {
    if |layer| == 0 then 0
    else CountOf(layer[..|layer| - 1], v) + (if layer[|layer| - 1] == v then 1 else 0)
  }

  /** Layer `k` has no more zeros than any layer, and strictly fewer than
      every layer before it. */
  predicate FirstFewestZeros(layers: seq<seq<nat>>, k: nat) {
    && k < |layers|
    && (forall j :: 0 <= j < |layers| ==> CountOf(layers[k], 0) <= CountOf(layers[j], 0))
    && (forall j :: 0 <= j < k ==> CountOf(layers[j], 0) > CountOf(layers[k], 0))
  }

  /** `min_by_key` on the count of zeros: the index of the first layer with
      the fewest zeros. */
  method FewestZeros(layers: seq<seq<nat>>) returns (best: nat)
    requires |layers| > 0
    ensures FirstFewestZeros(layers, best)
  {
    best := 0;
    var i := 1;
    while i < |layers|
      invariant 1 <= i <= |layers| && best < i
      invariant forall j :: 0 <= j < i ==> CountOf(layers[best], 0) <= CountOf(layers[j], 0)
      invariant forall j :: 0 <= j < best ==> CountOf(layers[j], 0) > CountOf(layers[best], 0)
    {
      if CountOf(layers[i], 0) < CountOf(layers[best], 0) {
        best := i;
      }
      i := i + 1;
    }
  }

  /** The number of 1 digits of a layer times its number of 2 digits. */
  function OnesTimesTwos(layer: seq<nat>): nat {
    CountOf(layer, 1) * CountOf(layer, 2)
  }

  /** `v` is the number of 1 digits times the number of 2 digits in the
      first of `layers` with the fewest 0 digits. */
  predicate IsChecksum(layers: seq<seq<nat>>, v: nat) {
    exists k: nat | k < |layers| :: FirstFewestZeros(layers, k) && v == OnesTimesTwos(layers[k])
  }

  /** The check value of the layers of the digits of `text`. */
  predicate ChecksumOf(text: string, v: nat) {
    Digits(text).Some? && IsChecksum(Chunks(Digits(text).value, LAYER_LEN), v)
  }

  /** The layer `min_by_key` chooses gives the check value. */
  lemma ChecksumWitness(layers: seq<seq<nat>>, k: nat)
    requires FirstFewestZeros(layers, k)
    ensures IsChecksum(layers, OnesTimesTwos(layers[k]))
  {
  }

  /** The check value `main` prints for one line of input; `None` is a panic:
      a character other than a digit after trimming, or no layer at all. */
  method Checksum(input: string) returns (r: Option<nat>)
    ensures r.None? <==> !AllDigits(Trim(input)) || |Trim(input)| == 0
    ensures r.Some? ==> ChecksumOf(Trim(input), r.value)
  {
    var text := Trim(input);
    var digits := Digits(text);
    if digits.None? {
      return None;
    }
    var layers := Chunks(digits.value, LAYER_LEN);
    assert |layers| == 0 <==> |text| == 0;
    if |layers| == 0 {
      return None;
    }
    var k := FewestZeros(layers);
    ChecksumWitness(layers, k);
    r := Some(OnesTimesTwos(layers[k]));
  }
}
