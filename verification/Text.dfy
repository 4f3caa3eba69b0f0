/** Numerals and text as Python prints and parses them: `str(int)`, the `0Nd` format
    spec, `int(text)`, `str.strip` and `str.rsplit(separator, 1)`. */
module Text {
  import opened Wrappers

  // ---------------------------------------------------------------- numerals

  predicate IsDigit(c: char) {
    '0' <= c <= '9'
  }

  function DigitChar(d: nat): (c: char)
    requires d < 10
    ensures IsDigit(c) && DigitValue(c) == d
  {
    '0' + d as char
  }

  function DigitValue(c: char): nat
    requires IsDigit(c)
  {
    c as int - '0' as int
  }

  predicate AllDigits(s: string) {
    forall i :: 0 <= i < |s| ==> IsDigit(s[i])
  }

  /** `n` with at least `width` digits, padded with zeros on the left. */
  function Padded(n: nat, width: nat): (s: string)
    ensures s != [] && AllDigits(s)
    decreases n, width
  {
    if n < 10 && width <= 1 then [DigitChar(n)]
    else Padded(n / 10, if width == 0 then 0 else width - 1) + [DigitChar(n % 10)]
  }

  /** The plain numeral, `str(n)`. */
  function Decimal(n: nat): string {
    Padded(n, 1)
  }

  function NumeralValue(s: string): nat
    requires AllDigits(s)
  {
    if s == [] then 0 else 10 * NumeralValue(s[..|s| - 1]) + DigitValue(s[|s| - 1])
  }

  /** Printing and reading back gives the number, whatever the padding. */
  lemma {:induction false} PaddedRoundTrip(n: nat, width: nat)
    ensures NumeralValue(Padded(n, width)) == n
    decreases n, width
  {
    var s := Padded(n, width);
    if n < 10 && width <= 1 {
      assert NumeralValue(s[..0]) == 0;
    } else {
      var w := if width == 0 then 0 else width - 1;
      PaddedRoundTrip(n / 10, w);
      assert s[..|s| - 1] == Padded(n / 10, w);
    }
  }

  lemma PaddedInjective(m: nat, n: nat, width: nat)
    requires Padded(m, width) == Padded(n, width)
    ensures m == n
  {
    PaddedRoundTrip(m, width);
    PaddedRoundTrip(n, width);
  }

  function Power10(exponent: nat): (p: nat)
    ensures p > 0
  {
    if exponent == 0 then 1 else 10 * Power10(exponent - 1)
  }

  /** A number below 10^width is printed with exactly `width` digits. */
  lemma {:induction false} PaddedLength(n: nat, width: nat)
    requires 1 <= width && n < Power10(width)
    ensures |Padded(n, width)| == width
    decreases width
  {
    if width > 1 {
      PaddedLength(n / 10, width - 1);
    } else {
      assert Power10(1) == 10 * Power10(0);
    }
  }

  /** The plain numeral of a number below 10^digits has at most `digits` digits. */
  lemma {:induction false} DecimalLength(n: nat, digits: nat)
    requires 1 <= digits && n < Power10(digits)
    ensures 1 <= |Decimal(n)| <= digits
    decreases digits
  {
    if digits == 1 {
      assert Power10(1) == 10 * Power10(0);
    } else if n >= 10 {
      DecimalLength(n / 10, digits - 1);
      WidthBelowOne(n / 10);
    }
  }

  lemma {:induction false} WidthBelowOne(n: nat)
    ensures Padded(n, 0) == Padded(n, 1)
  {
    if n >= 10 {
      WidthBelowOne(n / 10);
    }
  }

  // ---------------------------------------------------------------- stripping and int()

  predicate IsSpace(c: char) {
    c == ' ' || '\t' <= c <= '\r' || '\U{1c}' <= c <= '\U{1f}'
  }

  function StripLeft(s: string): string {
    if s != [] && IsSpace(s[0]) then StripLeft(s[1..]) else s
  }

  function StripRight(s: string): string {
    if s != [] && IsSpace(s[|s| - 1]) then StripRight(s[..|s| - 1]) else s
  }

  function Strip(s: string): string {
    StripRight(StripLeft(s))
  }

  lemma {:induction false} StripLeftMeans(s: string)
    ensures var r := StripLeft(s);
      && |r| <= |s| && r == s[|s| - |r|..] && (r != [] ==> !IsSpace(r[0])) && forall i :: 0 <= i < |s| - |r| ==> IsSpace(s[i])
  {
    if s != [] && IsSpace(s[0]) {
      StripLeftMeans(s[1..]);
    }
  }

  lemma {:induction false} StripRightMeans(s: string)
    ensures var r := StripRight(s);
      && |r| <= |s| && r == s[..|r|] && (r != [] ==> !IsSpace(r[|r| - 1])) && forall i :: |r| <= i < |s| ==> IsSpace(s[i])
  {
    if s != [] && IsSpace(s[|s| - 1]) {
      StripRightMeans(s[..|s| - 1]);
    }
  }

  /** What is left begins and ends with no space; nothing is left exactly of a blank text. */
  lemma StripMeans(s: string)
    ensures Strip(s) != [] ==> !IsSpace(Strip(s)[0]) && !IsSpace(Strip(s)[|Strip(s)| - 1])
    ensures Strip(s) == [] <==> forall i :: 0 <= i < |s| ==> IsSpace(s[i])
    ensures exists a, b :: 0 <= a <= b <= |s| && Strip(s) == s[a..b]
                           && (forall i :: 0 <= i < a || b <= i < |s| ==> IsSpace(s[i]))
  {
    var left := StripLeft(s);
    StripLeftMeans(s);
    StripRightMeans(left);
    var a, b := |s| - |left|, |s| - |left| + |Strip(s)|;
    assert Strip(s) == s[a..b];
    assert forall i :: b <= i < |s| ==> s[i] == left[i - a];
    assert Strip(s) != [] ==> Strip(s)[0] == left[0];
    assert left == [] || (!IsSpace(left[0]) && left[0] == s[a]);
  }

  /** Decimal digits in which single underscores may separate digits. */
  function ParseDigits(s: string): Option<nat> {
    if s == [] || !IsDigit(s[|s| - 1]) then None
    else
      var last := DigitValue(s[|s| - 1]);
      var front := s[..|s| - 1];
      if front == [] then Some(last)
      else
        var head := if front[|front| - 1] == '_' then front[..|front| - 1] else front;
        match ParseDigits(head)
        case None => None
        case Some(v) => Some(10 * v + last)
  }

  /** `int(text)`; None stands for ValueError. */
  function ParseInt(s: string): Option<int> {
    var t := Strip(s);
    if t == [] then None
    else if t[0] == '-' then
      match ParseDigits(t[1..])
      case None => None
      case Some(v) => Some(-(v as int))
    else
      match ParseDigits(if t[0] == '+' then t[1..] else t)
      case None => None
      case Some(v) => Some(v)
  }

  lemma {:induction false} ParseDigitsIsValue(s: string)
    requires s != [] && AllDigits(s)
    ensures ParseDigits(s) == Some(NumeralValue(s))
  {
    if |s| > 1 {
      ParseDigitsIsValue(s[..|s| - 1]);
    } else {
      assert NumeralValue(s[..|s| - 1]) == 0;
    }
  }

  /** `int` reads back every padded decimal numeral. */
  lemma ParseIntPadded(n: nat, width: nat)
    ensures ParseInt(Padded(n, width)) == Some(n)
  {
    var s := Padded(n, width);
    PaddedRoundTrip(n, width);
    assert IsDigit(s[0]) && IsDigit(s[|s| - 1]);
    ParseDigitsIsValue(s);
  }

  // ---------------------------------------------------------------- rsplit

  predicate OccursAt(s: string, sep: string, i: nat) {
    i + |sep| <= |s| && s[i..i + |sep|] == sep
  }

  /** The last index not above `from` at which `sep` occurs. */
  function LastOccurrence(s: string, sep: string, from: nat): (r: Option<nat>)
    ensures r.Some? ==> r.value <= from && OccursAt(s, sep, r.value)
    ensures forall i :: (if r.Some? then r.value else -1) < i <= from ==> !OccursAt(s, sep, i)
  {
    if OccursAt(s, sep, from) then Some(from)
    else if from == 0 then None
    else LastOccurrence(s, sep, from - 1)
  }

  /** `s.rsplit(sep, maxsplit=1)[1]`; None stands for IndexError. */
  function AfterLast(s: string, sep: string): Option<string> {
    match LastOccurrence(s, sep, |s|)
    case None => None
    case Some(i) => Some(s[i + |sep|..])
  }

  // ---------------------------------------------------------------- ordering

  /** Python's `<` on strings: code-point lexicographic order. */
  predicate Less(a: string, b: string) {
    b != [] && (a == [] || a[0] < b[0] || (a[0] == b[0] && Less(a[1..], b[1..])))
  }

  predicate AtMost(a: string, b: string) {
    a == b || Less(a, b)
  }

  lemma {:induction false} LessTransitive(a: string, b: string, c: string)
    requires Less(a, b) && Less(b, c)
    ensures Less(a, c)
  {
    if a != [] && a[0] == b[0] && b[0] == c[0] {
      LessTransitive(a[1..], b[1..], c[1..]);
    }
  }

  lemma {:induction false} LessIrreflexive(a: string)
    ensures !Less(a, a)
  {
    if a != [] {
      LessIrreflexive(a[1..]);
    }
  }

  lemma {:induction false} LessTotal(a: string, b: string)
    requires a != b
    ensures Less(a, b) || Less(b, a)
  {
    if a != [] && b != [] && a[0] == b[0] {
      assert a == [a[0]] + a[1..] && b == [b[0]] + b[1..];
      LessTotal(a[1..], b[1..]);
    }
  }
}
