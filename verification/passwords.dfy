/** `src/day4/main.rs`: the password rules, and the count of the numbers in
    a range whose decimal text satisfies them. */
module Passwords {
  import opened Outcome
  import opened Text

  /** Bytes the UTF-8 encoding of `c` takes. */
  function Utf8Width(c: char): (w: nat)
    ensures 1 <= w <= 4
    ensures w == 1 <==> c as int < 0x80
  {
    if c as int < 0x80 then 1
    else if c as int < 0x800 then 2
    else if c as int < 0x10000 then 3
    else 4
  }

  /** `str::len`: the length in bytes, not in characters. */
  function ByteLength(s: string): (n: nat)
    ensures n >= |s|
    ensures n == |s| <==> forall i :: 0 <= i < |s| ==> s[i] as int < 0x80
  {
    if |s| == 0 then 0 else Utf8Width(s[0]) + ByteLength(s[1..])
  }

  /** `is_correct_length`: six bytes. */
  predicate IsCorrectLength(s: string) {
    ByteLength(s) == 6
  }

  /** The fold of `is_increasing`: the accumulator is the previous digit
      (starting at 0), and `None` is the error it carries to the end. */
  function IncreasingFold(s: string, acc: Option<nat>): Option<nat>
    decreases |s|
  {
    if |s| == 0 then acc
    else if !IsDigit(s[0]) then IncreasingFold(s[1..], None)
    else
      var d := DigitValue(s[0]);
      match acc
      case None => IncreasingFold(s[1..], None)
      case Some(prev) => IncreasingFold(s[1..], if prev <= d then Some(d) else None)
  }

  /** `is_increasing`. */
  predicate IsIncreasing(s: string) {
    IncreasingFold(s, Some(0)).Some?
  }

  /** Only digits, and no digit smaller than the one before it. */
  predicate DigitsNeverDecrease(s: string) {
    && AllDigits(s)
    && forall i :: 0 <= i < |s| - 1 ==> DigitValue(s[i]) <= DigitValue(s[i + 1])
  }

  lemma {:induction false} FoldStaysFailed(s: string)
    ensures IncreasingFold(s, None) == None
    decreases |s|
  {
    if |s| > 0 {
      FoldStaysFailed(s[1..]);
    }
  }

  lemma {:induction false} FoldSpec(s: string, prev: nat)
    ensures IncreasingFold(s, Some(prev)).Some? <==>
      DigitsNeverDecrease(s) && (|s| > 0 ==> prev <= DigitValue(s[0]))
    decreases |s|
  {
    if |s| > 0 {
      FoldStaysFailed(s[1..]);
      var rest := s[1..];
      if IsDigit(s[0]) {
        FoldSpec(rest, DigitValue(s[0]));
        assert DigitsNeverDecrease(s) <==>
          DigitsNeverDecrease(rest) && (|rest| > 0 ==> DigitValue(s[0]) <= DigitValue(rest[0])) by {
          if DigitsNeverDecrease(rest) && (|rest| > 0 ==> DigitValue(s[0]) <= DigitValue(rest[0])) {
            forall i | 0 <= i < |s| - 1 ensures DigitValue(s[i]) <= DigitValue(s[i + 1]) {
              if i > 0 { assert s[i] == rest[i - 1] && s[i + 1] == rest[i]; }
            }
          }
          if DigitsNeverDecrease(s) {
            forall i | 0 <= i < |rest| - 1 ensures DigitValue(rest[i]) <= DigitValue(rest[i + 1]) {
              assert rest[i] == s[i + 1] && rest[i + 1] == s[i + 2];
            }
          }
        }
      }
    }
  }

  /** `is_increasing` holds exactly of the digit strings whose digits never
      go down; the empty string counts, and any other character fails it. */
  lemma IsIncreasingSpec(s: string)
    ensures IsIncreasing(s) <==> DigitsNeverDecrease(s)
  {
    FoldSpec(s, 0);
  }

  /** `is_in_range`: both bounds inclusive. */
  predicate IsInRange(i: int, lower: int, upper: int) {
    i >= lower && i <= upper
  }

  /** Some maximal run of equal characters has length exactly two. */
  predicate HasIsolatedPair(s: string) {
    exists i | 0 <= i < |s| :: IsolatedPairAt(s, i)
  }

  /** Characters `i` and `i + 1` are equal and differ from their neighbours. */
  predicate IsolatedPairAt(s: string, i: int) {
    && 0 <= i < |s| - 1 && s[i] == s[i + 1]
    && (i == 0 || s[i - 1] != s[i])
    && (i + 2 == |s| || s[i + 2] != s[i + 1])
  }

  /** The `windows(4)` test: a pair with a different character on each side. */
  predicate InnerPair(s: string) {
    exists k | 0 <= k < |s| :: InnerPairAt(s, k)
  }

  predicate InnerPairAt(s: string, k: int) {
    0 <= k < |s| - 3 && s[k + 1] == s[k + 2] && s[k] != s[k + 1] && s[k + 2] != s[k + 3]
  }

  /** `contains_pair`. `None` is the out-of-range index panic, which happens
      for fewer than two characters and for two equal ones (the third
      character is read only after the first two compare equal). */
  function ContainsPair(s: string): (r: Option<bool>)
    ensures r.None? <==> |s| < 2 || (|s| == 2 && s[0] == s[1])
    ensures |s| == 2 && s[0] != s[1] ==> r == Some(false)
  {
    if |s| < 2 then None
    else if s[0] == s[1] && (|s| < 3 || s[1] != s[2]) then
      if |s| < 3 then None else Some(true)
    else
      var n := |s|;
      if s[n - 2] == s[n - 1] && (n < 3 || s[n - 3] != s[n - 2]) then
        if n < 3 then None else Some(true)
      else Some(InnerPair(s))
  }

  /** From three characters on, `contains_pair` never panics and holds exactly
      when some run of equal characters is exactly two long: a pair at the
      start, at the end or in the middle, but never a part of a longer run. */
  lemma ContainsPairSpec(s: string)
    requires |s| >= 3
    ensures ContainsPair(s) == Some(HasIsolatedPair(s))
  {
    var n := |s|;
    if HasIsolatedPair(s) {
      var i :| IsolatedPairAt(s, i);
      assert IsolatedPairAt(s, i);
      if i != 0 && i + 2 != n {
        assert InnerPairAt(s, i - 1);
      }
    } else {
      assert !IsolatedPairAt(s, 0) && !IsolatedPairAt(s, n - 2);
      assert !InnerPair(s) by {
        if InnerPair(s) {
          var k :| InnerPairAt(s, k);
          assert InnerPairAt(s, k);
          assert IsolatedPairAt(s, k + 1);
        }
      }
    }
  }

  /** A pair inside a longer run does not count. */
  lemma LongRunIsNoPair()
    ensures ContainsPair("abbbbc") == Some(false)
  {
    ContainsPairSpec("abbbbc");
    var s := "abbbbc";
    assert !HasIsolatedPair(s) by {
      forall i ensures !IsolatedPairAt(s, i) {
      }
    }
  }

  /** The password rules of the counting fold, the range test left out. */
  predicate IsPassword(s: string) {
    IsCorrectLength(s) && ContainsPair(s) == Some(true) && IsIncreasing(s)
  }

  /** The condition of the counting fold, in the order `main` evaluates it;
      `contains_pair` is reached only for six-byte texts, so it never panics. */
  predicate Counted(i: int, lower: int, upper: int) {
    var s := IntToString(i);
    IsCorrectLength(s) && IsInRange(i, lower, upper) && ContainsPair(s) == Some(true) && IsIncreasing(s)
  }

  /** The range test of the fold is redundant: every `i` it visits is in range. */
  lemma RangeTestRedundant(i: int, lower: int, upper: int)
    requires lower <= i <= upper
    ensures Counted(i, lower, upper) <==> IsPasswordNumber(i)
  {
  }

  /** Only six-digit numbers can pass: negative numbers carry a `-`, which
      `is_increasing` rejects, and any other number has six bytes of text
      only between 100000 and 999999. */
  lemma PasswordIsSixDigits(i: int)
    requires IsPassword(IntToString(i))
    ensures 100000 <= i <= 999999
  {
    var s := IntToString(i);
    IsIncreasingSpec(s);
    if i >= 0 {
      assert ByteLength(s) == |s|;
      if i < 100000 {
        assert Pow10(5) == 100000;
        NatToStringShort(i, 5);
      } else if i > 999999 {
        assert Pow10(6) == 1000000;
        NatToStringLong(i, 6);
      }
    }
  }

  /** The number `i` renders to a password. */
  predicate IsPasswordNumber(i: int) {
    IsPassword(IntToString(i))
  }

  /** The numbers of `lower..=upper` that are passwords. */
  function Passwords(lower: int, upper: int): set<int> {
    Below(lower, upper + 1, IsPasswordNumber)
  }

  /** The numbers of `lower..i` (exclusive) that satisfy `p`. */
  function Below(lower: int, i: int, p: int -> bool): set<int> {
    set k | lower <= k < i && p(k)
  }

  lemma BelowStep(lower: int, i: int, p: int -> bool)
    requires lower <= i
    ensures |Below(lower, i + 1, p)| == |Below(lower, i, p)| + (if p(i) then 1 else 0)
  {
    if p(i) {
      assert Below(lower, i + 1, p) == Below(lower, i, p) + {i};
    } else {
      assert Below(lower, i + 1, p) == Below(lower, i, p);
    }
  }

  /** The closure of the counting fold: one more for a counted number. */
  function CountStep(acc: nat, i: int, lower: int, upper: int): (r: nat)
    requires lower <= i <= upper
    ensures r == acc + (if IsPasswordNumber(i) then 1 else 0)
  {
    RangeTestRedundant(i, lower, upper);
    if Counted(i, lower, upper) then acc + 1 else acc
  }

  /** The counting fold of `main`. */
  method CountPasswords(lower: int, upper: int) returns (count: nat)
    ensures count == |Passwords(lower, upper)|
  {
    count := 0;
    var i := lower;
    while i < upper + 1
      invariant lower <= i <= if lower <= upper + 1 then upper + 1 else lower
      invariant count == |Below(lower, i, IsPasswordNumber)|
      decreases upper + 1 - i
    {
      BelowStep(lower, i, IsPasswordNumber);
      count := CountStep(count, i, lower, upper);
      i := i + 1;
    }
    if lower > upper + 1 {
      assert Passwords(lower, upper) == {};
      assert Below(lower, i, IsPasswordNumber) == {};
    }
  }

  // ---------------------------------------------------------------------
  // The unit tests of the program, as the code answers them

  lemma IncreasingTests()
    ensures IsIncreasing("12345") && IsIncreasing("11111") && !IsIncreasing("1234567898")
    ensures !IsIncreasing("hello")
  {
    IsIncreasingSpec("12345");
    IsIncreasingSpec("11111");
    var long := "1234567898";
    IsIncreasingSpec(long);
    assert DigitValue(long[8]) > DigitValue(long[9]);
    IsIncreasingSpec("hello");
    assert !IsDigit("hello"[0]);
  }

  lemma LengthTests()
    ensures IsCorrectLength("abcdef") && IsCorrectLength("123456")
    ensures !IsCorrectLength("12345") && !IsCorrectLength("1234567")
  {
  }

  lemma RangeTests()
    ensures IsInRange(5, 0, 10) && IsInRange(0, 0, 10) && IsInRange(10, 0, 10) && !IsInRange(11, 0, 10)
  {
  }

  lemma PairTests()
    ensures ContainsPair("aabc") == Some(true) && ContainsPair("abbc") == Some(true)
    ensures ContainsPair("abcc") == Some(true) && ContainsPair("abc") == Some(false)
  {
    assert InnerPairAt("abbc", 0);
  }
}
