/** The handful of string routines of Rust's standard library the programs
    rely on: `str::trim`, `str::lines`, `str::split`, integer parsing with
    `str::parse`, and `to_string` on integers. Strings are sequences of
    Unicode scalar values. */
module Text {
  import opened Outcome

  /** Unicode `White_Space` code points: exactly what `str::trim` removes. */
  predicate IsWhitespace(c: char) {
    var n := c as int;
    (0x09 <= n <= 0x0D) || n == 0x20 || n == 0x85 || n == 0xA0 || n == 0x1680
    || (0x2000 <= n <= 0x200A) || n == 0x2028 || n == 0x2029 || n == 0x202F
    || n == 0x205F || n == 0x3000
  }

  predicate AllWhitespace(s: string) {
    forall i :: 0 <= i < |s| ==> IsWhitespace(s[i])
  }

  /** `str::trim_start`: drops the longest whitespace prefix. */
  function TrimStart(s: string): (r: string)
    ensures |r| <= |s| && r == s[|s| - |r|..]
    ensures AllWhitespace(s[..|s| - |r|])
    ensures |r| > 0 ==> !IsWhitespace(r[0])
  {
    if |s| > 0 && IsWhitespace(s[0]) then TrimStart(s[1..]) else s
  }

  /** `str::trim_end`: drops the longest whitespace suffix. */
  function TrimEnd(s: string): (r: string)
    ensures |r| <= |s| && r == s[..|r|]
    ensures AllWhitespace(s[|r|..])
    ensures |r| > 0 ==> !IsWhitespace(r[|r| - 1])
  {
    if |s| > 0 && IsWhitespace(s[|s| - 1]) then TrimEnd(s[..|s| - 1]) else s
  }

  /** `str::trim`. */
  function Trim(s: string): string {
    TrimEnd(TrimStart(s))
  }

  lemma {:induction false} TrimStartSkips(pad: string, t: string)
    requires AllWhitespace(pad)
    requires |t| == 0 || !IsWhitespace(t[0])
    ensures TrimStart(pad + t) == t
  {
    if |pad| > 0 {
      assert (pad + t)[1..] == pad[1..] + t;
      TrimStartSkips(pad[1..], t);
    } else {
      assert pad + t == t;
    }
  }

  lemma {:induction false} TrimEndSkips(t: string, pad: string)
    requires AllWhitespace(pad)
    requires |t| == 0 || !IsWhitespace(t[|t| - 1])
    ensures TrimEnd(t + pad) == t
  {
    if |pad| > 0 {
      assert (t + pad)[..|t + pad| - 1] == t + pad[..|pad| - 1];
      TrimEndSkips(t, pad[..|pad| - 1]);
    } else {
      assert t + pad == t;
    }
  }

  lemma WhitespaceConcat(a: string, b: string)
    requires AllWhitespace(a) && AllWhitespace(b)
    ensures AllWhitespace(a + b)
  {
    forall i | 0 <= i < |a + b| ensures IsWhitespace((a + b)[i]) {
      if i < |a| { assert (a + b)[i] == a[i]; } else { assert (a + b)[i] == b[i - |a|]; }
    }
  }

  lemma SeqAssoc5(a: string, b: string, c: string, d: string, e: string)
    ensures a + (b + c + d) + e == (a + b) + (c + (d + e))
  {
  }

  /** `trim` splits its input into whitespace, the kept core, and whitespace. */
  lemma TrimSplits(s: string) returns (front: string, back: string)
    ensures s == front + Trim(s) + back
    ensures AllWhitespace(front) && AllWhitespace(back)
    ensures |Trim(s)| > 0 ==> !IsWhitespace(Trim(s)[0]) && !IsWhitespace(Trim(s)[|Trim(s)| - 1])
  {
    front, back := TrimPieces(s);
    TrimPiecesWhitespace(s);
    TrimEnds(s);
  }

  lemma TrimPieces(s: string) returns (front: string, back: string)
    ensures front == s[..|s| - |TrimStart(s)|] && back == TrimStart(s)[|Trim(s)|..]
    ensures s == front + Trim(s) + back
  {
    var t := TrimStart(s);
    var core := TrimEnd(t);
    front := s[..|s| - |t|];
    back := t[|core|..];
    TrimStartSplit(s);
    TrimEndSplit(t);
    SeqAssoc3(front, core, back);
  }

  lemma TrimPiecesWhitespace(s: string)
    ensures AllWhitespace(s[..|s| - |TrimStart(s)|]) && AllWhitespace(TrimStart(s)[|Trim(s)|..])
  {
  }

  lemma TrimEnds(s: string)
    ensures |Trim(s)| > 0 ==> !IsWhitespace(Trim(s)[0]) && !IsWhitespace(Trim(s)[|Trim(s)| - 1])
  {
    TrimEndSplit(TrimStart(s));
  }

  lemma SeqAssoc3(a: string, b: string, c: string)
    ensures a + (b + c) == a + b + c
  {
  }

  lemma TrimStartSplit(s: string)
    ensures var t := TrimStart(s); s == s[..|s| - |t|] + t
  {
    var t := TrimStart(s);
    assert t == s[|s| - |t|..];
  }

  lemma TrimEndSplit(t: string)
    ensures var core := TrimEnd(t); t == core + t[|core|..]
    ensures var core := TrimEnd(t); |core| > 0 && |t| > 0 ==> core[0] == t[0]
  {
    var core := TrimEnd(t);
    assert core == t[..|core|];
  }

  /** Whitespace around a text never changes what `trim` leaves of it: an
      indented line trims to the same characters as the unindented one. */
  lemma TrimIgnoresPadding(before: string, s: string, after: string)
    requires AllWhitespace(before) && AllWhitespace(after)
    ensures Trim(before + s + after) == Trim(s)
  {
    var core := Trim(s);
    var front, back := TrimSplits(s);
    WhitespaceConcat(before, front);
    WhitespaceConcat(back, after);
    var lead := before + front;
    var trail := back + after;
    calc {
      before + s + after;
      before + (front + core + back) + after;
      { SeqAssoc5(before, front, core, back, after); }
      lead + (core + trail);
    }
    if |core| == 0 {
      WhitespaceConcat(lead, trail);
      assert lead + (core + trail) == (lead + trail) + "";
      TrimStartSkips(lead + trail, "");
    } else {
      TrimStartSkips(lead, core + trail);
      TrimEndSkips(core, trail);
    }
  }

  /** `str::split(sep)`: the pieces between occurrences of `sep`; never empty. */
  function Split(s: string, sep: char): (r: seq<string>)
    ensures |r| >= 1
    ensures forall i :: 0 <= i < |r| ==> sep !in r[i]
  {
    SplitFrom(s, sep, "")
  }

  function SplitFrom(s: string, sep: char, piece: string): (r: seq<string>)
    requires sep !in piece
    ensures |r| >= 1
    ensures forall i :: 0 <= i < |r| ==> sep !in r[i]
    decreases |s|
  {
    if |s| == 0 then [piece]
    else if s[0] == sep then [piece] + SplitFrom(s[1..], sep, "")
    else SplitFrom(s[1..], sep, piece + [s[0]])
  }

  /** The pieces joined back with the separator give the original text. */
  function Join(pieces: seq<string>, sep: char): string
    requires |pieces| >= 1
  {
    if |pieces| == 1 then pieces[0] else pieces[0] + [sep] + Join(pieces[1..], sep)
  }

  lemma {:induction false} SplitFromJoin(s: string, sep: char, piece: string)
    requires sep !in piece
    ensures Join(SplitFrom(s, sep, piece), sep) == piece + s
    decreases |s|
  {
    if |s| == 0 {
    } else if s[0] == sep {
      SplitFromJoin(s[1..], sep, "");
      assert piece + s == piece + [sep] + s[1..];
    } else {
      SplitFromJoin(s[1..], sep, piece + [s[0]]);
      assert piece + s == (piece + [s[0]]) + s[1..];
    }
  }

  /** Splitting loses nothing: rejoining the pieces restores the text. */
  lemma SplitJoin(s: string, sep: char)
    ensures Join(Split(s, sep), sep) == s
  {
    SplitFromJoin(s, sep, "");
  }

  /** Text before the first separator comes out whole, and the rest is
      split on its own. */
  lemma {:induction false} SplitFromSkips(a: string, rest: string, sep: char, piece: string)
    requires sep !in a && sep !in piece
    ensures SplitFrom(a + rest, sep, piece) == SplitFrom(rest, sep, piece + a)
    decreases |a|
  {
    if |a| == 0 {
      assert a + rest == rest && piece + a == piece;
    } else {
      assert (a + rest)[0] == a[0] && (a + rest)[1..] == a[1..] + rest;
      assert (piece + [a[0]]) + a[1..] == piece + a;
      SplitFromSkips(a[1..], rest, sep, piece + [a[0]]);
    }
  }

  /** Splitting at the first separator. */
  lemma SplitFirst(a: string, b: string, sep: char)
    requires sep !in a
    ensures Split(a + [sep] + b, sep) == [a] + Split(b, sep)
  {
    assert a + [sep] + b == a + ([sep] + b);
    SplitFromSkips(a, [sep] + b, sep, "");
    assert "" + a == a && ([sep] + b)[1..] == b;
  }

  /** Text without a separator is a single piece. */
  lemma SplitNone(a: string, sep: char)
    requires sep !in a
    ensures Split(a, sep) == [a]
  {
    SplitFromSkips(a, "", sep, "");
    assert a + "" == a && "" + a == a;
  }

  /** `str::lines`: pieces between line feeds, a `\r` before the line feed
      dropped, and no empty last line after a final line feed. */
  function Lines(s: string): (r: seq<string>)
    ensures forall i :: 0 <= i < |r| ==> '\n' !in r[i]
    ensures |s| == 0 ==> |r| == 0
  {
    var pieces := Split(s, '\n');
    var last := pieces[|pieces| - 1];
    var body := DropCarriageReturns(pieces[..|pieces| - 1]);
    if |last| == 0 then body else body + [last]
  }

  /** A line that ended in `\r\n` loses its `\r`; any other line is kept. */
  function DropCarriageReturn(line: string): (r: string)
    ensures '\n' !in line ==> '\n' !in r
    ensures |line| > 0 && line[|line| - 1] == '\r' ==> line == r + "\r"
    ensures !(|line| > 0 && line[|line| - 1] == '\r') ==> r == line
  {
    if |line| > 0 && line[|line| - 1] == '\r' then line[..|line| - 1] else line
  }

  function DropCarriageReturns(lines: seq<string>): (r: seq<string>)
    ensures |r| == |lines| && forall i :: 0 <= i < |lines| ==> r[i] == DropCarriageReturn(lines[i])
  {
    seq(|lines|, i requires 0 <= i < |lines| => DropCarriageReturn(lines[i]))
  }

  /** Text without a line feed is one line, or none when it is empty. */
  lemma LinesNone(a: string)
    requires '\n' !in a
    ensures Lines(a) == if |a| == 0 then [] else [a]
  {
    SplitNone(a, '\n');
    assert Split(a, '\n')[..0] == [];
  }

  /** The text up to the first line feed is the first line, without a `\r`
      before the line feed; the rest of the text gives the other lines. A
      final line feed therefore adds no empty line. */
  lemma LinesCons(a: string, rest: string)
    requires '\n' !in a
    ensures Lines(a + "\n" + rest) == [DropCarriageReturn(a)] + Lines(rest)
  {
    SplitFirst(a, rest, '\n');
    var tail := Split(rest, '\n');
    var pieces := [a] + tail;
    assert Split(a + "\n" + rest, '\n') == pieces;
    assert pieces[|pieces| - 1] == tail[|tail| - 1];
    assert pieces[..|pieces| - 1] == [a] + tail[..|tail| - 1];
    var front := DropCarriageReturns(pieces[..|pieces| - 1]);
    assert front == [DropCarriageReturn(a)] + DropCarriageReturns(tail[..|tail| - 1]);
  }

  // ---------------------------------------------------------------------
  // Decimal numbers

  predicate IsDigit(c: char) {
    '0' <= c <= '9'
  }

  predicate AllDigits(s: string) {
    forall i :: 0 <= i < |s| ==> IsDigit(s[i])
  }

  function DigitValue(c: char): (d: nat)
    requires IsDigit(c)
    ensures d < 10
  {
    c as int - '0' as int
  }

  function DigitChar(d: nat): (c: char)
    requires d < 10
    ensures IsDigit(c) && DigitValue(c) == d
  {
    ('0' as int + d) as char
  }

  /** The number a string of decimal digits denotes, most significant first. */
  function DigitsValue(s: string): nat
    requires AllDigits(s)
  {
    if |s| == 0 then 0 else DigitsValue(s[..|s| - 1]) * 10 + DigitValue(s[|s| - 1])
  }

  /** `u32::from_str` and friends: an optional `+`, then at least one digit,
      and a value no larger than `max`. */
  function ParseUnsigned(s: string, max: nat): (r: Option<nat>)
    ensures r.Some? <==>
      || (|s| > 0 && AllDigits(s) && DigitsValue(s) <= max)
      || (|s| > 1 && s[0] == '+' && AllDigits(s[1..]) && DigitsValue(s[1..]) <= max)
    ensures r.Some? ==> r.value == if s[0] == '+' then DigitsValue(s[1..]) else DigitsValue(s)
    ensures r.Some? ==> r.value <= max
  {
    var digits := if |s| > 0 && s[0] == '+' then s[1..] else s;
    if |digits| > 0 && AllDigits(digits) && DigitsValue(digits) <= max
    then Some(DigitsValue(digits))
    else None
  }

  /** `i32::from_str` and friends: an optional `+` or `-`, then at least one
      digit, and a value within `min..=max`. */
  function ParseSigned(s: string, min: int, max: int): (r: Option<int>)
    ensures r.Some? <==>
      || (|s| > 0 && AllDigits(s) && min <= DigitsValue(s) <= max)
      || (|s| > 1 && s[0] == '+' && AllDigits(s[1..]) && min <= DigitsValue(s[1..]) <= max)
      || (|s| > 1 && s[0] == '-' && AllDigits(s[1..]) && min <= -(DigitsValue(s[1..]) as int) <= max)
    ensures r.Some? && s[0] == '-' ==> r.value == -(DigitsValue(s[1..]) as int)
    ensures r.Some? && s[0] == '+' ==> r.value == DigitsValue(s[1..])
    ensures r.Some? && s[0] != '-' && s[0] != '+' ==> r.value == DigitsValue(s)
    ensures r.Some? ==> min <= r.value <= max
    ensures r.Some? && r.value < 0 ==> s[0] == '-'
  {
    if |s| > 0 && s[0] == '-' then
      var digits := s[1..];
      if |digits| > 0 && AllDigits(digits) then
        var v: int := DigitsValue(digits);
        if min <= -v <= max then Some(-v) else None
      else None
    else
      match ParseUnsigned(s, if max < 0 then 0 else max)
      case Some(v) => if min <= v <= max then Some(v) else None
      case None => None
  }

  /** `to_string` on a non-negative integer. */
  function NatToString(n: nat): (s: string)
    ensures |s| >= 1 && AllDigits(s)
    ensures DigitsValue(s) == n
    ensures |s| > 1 ==> s[0] != '0'
  {
    if n < 10 then [DigitChar(n)]
    else
      var prefix := NatToString(n / 10);
      var s := prefix + [DigitChar(n % 10)];
      assert s[..|s| - 1] == prefix;
      s
  }

  /** `to_string` on a signed integer. */
  function IntToString(i: int): string {
    if i < 0 then "-" + NatToString(-i) else NatToString(i)
  }

  function Pow10(k: nat): (p: nat)
    ensures p >= 1
  {
    if k == 0 then 1 else 10 * Pow10(k - 1)
  }

  /** Below `10^k` a number renders in at most `k` digits. */
  lemma {:induction false} NatToStringShort(n: nat, k: nat)
    requires k >= 1 && n < Pow10(k)
    ensures |NatToString(n)| <= k
  {
    if n >= 10 {
      assert Pow10(k) == 10 * Pow10(k - 1);
      NatToStringShort(n / 10, k - 1);
    }
  }

  /** From `10^k` on a number renders in more than `k` digits. */
  lemma {:induction false} NatToStringLong(n: nat, k: nat)
    requires n >= Pow10(k)
    ensures |NatToString(n)| > k
  {
    if k > 0 {
      assert Pow10(k) == 10 * Pow10(k - 1);
      NatToStringLong(n / 10, k - 1);
    }
  }

  /** Rendering then parsing gives the number back. */
  lemma ParseNatToString(n: nat, max: nat)
    requires n <= max
    ensures ParseUnsigned(NatToString(n), max) == Some(n)
  {
  }

  /** Leading zeros do not change the value of a digit string. */
  lemma {:induction false} LeadingZeros(z: string, s: string)
    requires forall i :: 0 <= i < |z| ==> z[i] == '0'
    requires AllDigits(s)
    ensures AllDigits(z + s) && DigitsValue(z + s) == DigitsValue(s)
    decreases |s|
  {
    var t := z + s;
    if |s| == 0 {
      assert t == z;
      ZerosValue(z);
    } else {
      assert t[..|t| - 1] == z + s[..|s| - 1];
      LeadingZeros(z, s[..|s| - 1]);
    }
  }

  lemma {:induction false} ZerosValue(z: string)
    requires forall i :: 0 <= i < |z| ==> z[i] == '0'
    ensures AllDigits(z) && DigitsValue(z) == 0
    decreases |z|
  {
    if |z| > 0 {
      ZerosValue(z[..|z| - 1]);
    }
  }

  /** Digits within the maximum parse as their value, with or without a
      leading `+`. */
  lemma ParseDigits(t: string, max: nat)
    requires |t| > 0 && AllDigits(t) && DigitsValue(t) <= max
    ensures ParseUnsigned(t, max) == Some(DigitsValue(t))
    ensures ParseUnsigned("+" + t, max) == Some(DigitsValue(t))
  {
    assert IsDigit(t[0]);
    assert ("+" + t)[1..] == t;
  }

  /** Parsing accepts more than the canonical text: a `+` and any number of
      leading zeros, as in `+007`, read as the same number. */
  lemma ParseLeadingZeros(z: string, n: nat, max: nat)
    requires forall i :: 0 <= i < |z| ==> z[i] == '0'
    requires n <= max
    ensures ParseUnsigned(z + NatToString(n), max) == Some(n)
    ensures ParseUnsigned("+" + (z + NatToString(n)), max) == Some(n)
  {
    var d := NatToString(n);
    assert |d| > 0 && AllDigits(d) && DigitsValue(d) == n;
    PaddedDigits(z, d, max);
  }

  lemma PaddedDigits(z: string, d: string, max: nat)
    requires forall i :: 0 <= i < |z| ==> z[i] == '0'
    requires |d| > 0 && AllDigits(d) && DigitsValue(d) <= max
    ensures ParseUnsigned(z + d, max) == Some(DigitsValue(d))
    ensures ParseUnsigned("+" + (z + d), max) == Some(DigitsValue(d))
  {
    LeadingZeros(z, d);
    ParseDigits(z + d, max);
  }

  lemma ParseIntToString(i: int, min: int, max: int)
    requires min <= i <= max
    ensures ParseSigned(IntToString(i), min, max) == Some(i)
  {
    if i < 0 {
      assert IntToString(i)[1..] == NatToString(-i);
    } else {
      assert IntToString(i)[0] != '-';
    }
  }

  /** `to_string` of an integer is digits after an optional `-`, ending in a
      digit. */
  lemma IntToStringShape(i: int)
    ensures |IntToString(i)| > 0 && IsDigit(IntToString(i)[|IntToString(i)| - 1])
    ensures forall k :: 0 <= k < |IntToString(i)| ==> IsDigit(IntToString(i)[k]) || IntToString(i)[k] == '-'
  {
  }

  /** Text with nothing to trim at either end is its own trim. */
  lemma TrimUnpadded(t: string)
    requires |t| == 0 || (!IsWhitespace(t[0]) && !IsWhitespace(t[|t| - 1]))
    ensures Trim(t) == t
  {
    assert TrimStart(t) == t;
    assert TrimEnd(t) == t;
  }
}
