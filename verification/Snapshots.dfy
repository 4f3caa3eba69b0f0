/** Archive snapshots: a project row printed column by column as JSON text, and the readers that
    parse those columns back when a project is restored. */
module Snapshots {
  import opened Wrappers
  import opened Text
  import opened Calendar

  // ---------------------------------------------------------------- column values

  predicate IsUuid(digits: seq<nat>) {
    |digits| == 32 && forall i :: 0 <= i < 32 ==> digits[i] < 16
  }

  /** A UUID as its 32 hexadecimal digits. */
  type Uuid = digits: seq<nat> | IsUuid(digits) witness seq(32, _ => 0)

  /** `offset` is the distance from UTC in minutes; None is a naive value. */
  datatype DateTime = DateTime(date: Date, hour: nat, minute: nat, second: nat, microsecond: nat, offset: Option<int>)

  predicate ValidDateTime(t: DateTime) {
    && ValidDate(t.date) && t.date.year <= 9999
    && t.hour < 24 && t.minute < 60 && t.second < 60 && t.microsecond < 1_000_000
    && (t.offset.Some? ==> -1440 < t.offset.value < 1440)
  }

  // ---------------------------------------------------------------- UUIDs

  function HexChar(d: nat): char
    requires d < 16
  {
    if d < 10 then '0' + d as char else 'a' + (d - 10) as char
  }

  function HexValue(c: char): Option<nat> {
    if '0' <= c <= '9' then Some(c as nat - '0' as nat)
    else if 'a' <= c <= 'f' then Some(c as nat - 'a' as nat + 10)
    else if 'A' <= c <= 'F' then Some(c as nat - 'A' as nat + 10)
    else None
  }

  function HexText(digits: seq<nat>): string
    requires forall i :: 0 <= i < |digits| ==> digits[i] < 16
  {
    if digits == [] then [] else [HexChar(digits[0])] + HexText(digits[1..])
  }

  function UuidText(u: Uuid): string {
    HexText(u[..8]) + "-" + HexText(u[8..12]) + "-" + HexText(u[12..16]) + "-" + HexText(u[16..20]) + "-" + HexText(u[20..])
  }

  function HexDigits(s: string): Option<seq<nat>> {
    if s == [] then Some([])
    else match HexValue(s[0])
      case None => None
      case Some(d) =>
        match HexDigits(s[1..])
        case None => None
        case Some(rest) => Some([d] + rest)
  }

  function WithoutDashes(s: string): string {
    if s == [] then [] else (if s[0] == '-' then [] else [s[0]]) + WithoutDashes(s[1..])
  }

  function ParseUuid(s: string): Option<Uuid> {
    match HexDigits(WithoutDashes(s))
    case None => None
    case Some(digits) => if IsUuid(digits) then Some(digits) else None
  }

  lemma {:induction false} HexRoundTrip(digits: seq<nat>)
    requires forall i :: 0 <= i < |digits| ==> digits[i] < 16
    ensures HexDigits(HexText(digits)) == Some(digits)
    ensures WithoutDashes(HexText(digits)) == HexText(digits)
    ensures |HexText(digits)| == |digits| && forall i :: 0 <= i < |digits| ==> HexText(digits)[i] == HexChar(digits[i])
  {
    if digits != [] {
      HexRoundTrip(digits[1..]);
      var s := HexText(digits);
      assert s[1..] == HexText(digits[1..]);
      assert digits == [digits[0]] + digits[1..];
    }
  }

  lemma WithoutDashesUnfolds(s: string)
    ensures s == [] ==> WithoutDashes(s) == []
    ensures s != [] ==> WithoutDashes(s) == (if s[0] == '-' then [] else [s[0]]) + WithoutDashes(s[1..])
  {
  }

  lemma {:induction false} WithoutDashesConcat(a: string, b: string)
    ensures WithoutDashes(a + b) == WithoutDashes(a) + WithoutDashes(b)
  {
    hide WithoutDashes;
    WithoutDashesUnfolds(a);
    WithoutDashesUnfolds(a + b);
    if a == [] {
      assert a + b == b;
    } else {
      WithoutDashesConcat(a[1..], b);
      assert (a + b)[1..] == a[1..] + b;
    }
  }

  lemma HexTextConcat(a: seq<nat>, b: seq<nat>)
    requires forall i :: 0 <= i < |a| ==> a[i] < 16
    requires forall i :: 0 <= i < |b| ==> b[i] < 16
    ensures HexText(a + b) == HexText(a) + HexText(b)
  {
    hide HexText, HexDigits, WithoutDashes;
    HexRoundTrip(a);
    HexRoundTrip(b);
    HexRoundTrip(a + b);
    assert forall i :: 0 <= i < |a + b| ==> HexText(a + b)[i] == (HexText(a) + HexText(b))[i];
  }

  /** Dropping the dash between two dash-free parts joins them. */
  lemma JoinWithoutDash(a: string, digits: seq<nat>)
    requires forall i :: 0 <= i < |digits| ==> digits[i] < 16
    ensures WithoutDashes(a + "-" + HexText(digits)) == WithoutDashes(a) + HexText(digits)
  {
    hide WithoutDashes, HexText, HexDigits;
    var text := HexText(digits);
    HexRoundTrip(digits);
    WithoutDashesConcat(a + "-", text);
    WithoutDashesConcat(a, "-");
    DashVanishes();
    assert WithoutDashes(a) + [] == WithoutDashes(a);
  }

  lemma DashVanishes()
    ensures WithoutDashes("-") == []
  {
    assert "-"[1..] == [];
  }

  lemma UuidRoundTrip(u: Uuid)
    ensures ParseUuid(UuidText(u)) == Some(u)
  {
    hide HexText, HexDigits, WithoutDashes;
    var s1 := HexText(u[..8]);
    var s2 := s1 + "-" + HexText(u[8..12]);
    var s3 := s2 + "-" + HexText(u[12..16]);
    var s4 := s3 + "-" + HexText(u[16..20]);
    HexRoundTrip(u[..8]);
    JoinWithoutDash(s1, u[8..12]);
    JoinWithoutDash(s2, u[12..16]);
    JoinWithoutDash(s3, u[16..20]);
    JoinWithoutDash(s4, u[20..]);
    assert UuidText(u) == s4 + "-" + HexText(u[20..]);
    assert u[..8] + u[8..12] == u[..12];
    HexTextConcat(u[..8], u[8..12]);
    assert u[..12] + u[12..16] == u[..16];
    HexTextConcat(u[..12], u[12..16]);
    assert u[..16] + u[16..20] == u[..20];
    HexTextConcat(u[..16], u[16..20]);
    assert u[..20] + u[20..] == u;
    HexTextConcat(u[..20], u[20..]);
    HexRoundTrip(u);
  }

  // ---------------------------------------------------------------- numbers in fixed columns

  function ParseNat(s: string): Option<nat> {
    if s != [] && AllDigits(s) then Some(NumeralValue(s)) else None
  }

  lemma ParseNatPadded(n: nat, width: nat)
    ensures ParseNat(Padded(n, width)) == Some(n)
  {
    PaddedRoundTrip(n, width);
  }

  lemma TwoDigits(n: nat)
    requires n < 100
    ensures |Padded(n, 2)| == 2
  {
    assert Power10(2) == 10 * Power10(1) == 100 * Power10(0);
    PaddedLength(n, 2);
  }

  lemma FourDigits(n: nat)
    requires n < 10000
    ensures |Padded(n, 4)| == 4
  {
    assert Power10(4) == 10 * Power10(3) == 100 * Power10(2) == 1000 * Power10(1) == 10000 * Power10(0);
    PaddedLength(n, 4);
  }

  lemma SixDigits(n: nat)
    requires n < 1_000_000
    ensures |Padded(n, 6)| == 6
  {
    assert Power10(6) == 10 * Power10(5) == 100 * Power10(4) == 1000 * Power10(3) == 10000 * Power10(2)
        == 100000 * Power10(1) == 1000000 * Power10(0);
    PaddedLength(n, 6);
  }

  // ---------------------------------------------------------------- dates

  function DateText(d: Date): string {
    Padded(d.year, 4) + "-" + Padded(d.month, 2) + "-" + Padded(d.day, 2)
  }

  /** `date.fromisoformat` on the extended calendar form. */
  function ParseDate(s: string): (r: Option<Date>)
    ensures r.Some? ==> ValidDate(r.value)
  {
    if |s| != 10 || s[4] != '-' || s[7] != '-' then None
    else match (ParseNat(s[..4]), ParseNat(s[5..7]), ParseNat(s[8..]))
      case (Some(y), Some(m), Some(d)) => if ValidDate(Date(y, m, d)) then Some(Date(y, m, d)) else None
      case _ => None
  }

  lemma DateLength(d: Date)
    requires ValidDate(d) && d.year <= 9999
    ensures |DateText(d)| == 10
  {
    hide Padded;
    FourDigits(d.year);
    TwoDigits(d.month);
    TwoDigits(d.day);
  }

  lemma DateRoundTrip(d: Date)
    requires ValidDate(d) && d.year <= 9999
    ensures ParseDate(DateText(d)) == Some(d)
  {
    hide Padded, ParseNat;
    var s := DateText(d);
    FourDigits(d.year);
    TwoDigits(d.month);
    TwoDigits(d.day);
    assert s[..4] == Padded(d.year, 4) && s[5..7] == Padded(d.month, 2) && s[8..] == Padded(d.day, 2);
    ParseNatPadded(d.year, 4);
    ParseNatPadded(d.month, 2);
    ParseNatPadded(d.day, 2);
  }

  // ---------------------------------------------------------------- date-times

  function ClockText(hour: nat, minute: nat, second: nat): string {
    Padded(hour, 2) + ":" + Padded(minute, 2) + ":" + Padded(second, 2)
  }

  function FractionText(microsecond: nat): string {
    if microsecond == 0 then "" else "." + Padded(microsecond, 6)
  }

  function OffsetText(offset: Option<int>): string {
    match offset
    case None => ""
    case Some(m) =>
      var size: nat := if m < 0 then -m else m;
      (if m < 0 then "-" else "+") + Padded(size / 60, 2) + ":" + Padded(size % 60, 2)
  }

  /** `str(datetime)`. */
  function DateTimeText(t: DateTime): string {
    DateText(t.date) + " " + ClockText(t.hour, t.minute, t.second) + FractionText(t.microsecond) + OffsetText(t.offset)
  }

  function ParseClock(s: string): Option<(nat, nat, nat)> {
    if |s| != 8 || s[2] != ':' || s[5] != ':' then None
    else match (ParseNat(s[..2]), ParseNat(s[3..5]), ParseNat(s[6..]))
      case (Some(h), Some(m), Some(sec)) => Some((h, m, sec))
      case _ => None
  }

  function ParseOffset(s: string): Option<Option<int>> {
    if s == "" then Some(None)
    else if |s| != 6 || (s[0] != '+' && s[0] != '-') || s[3] != ':' then None
    else match (ParseNat(s[1..3]), ParseNat(s[4..]))
      case (Some(h), Some(m)) =>
        var size: int := 60 * h + m;
        Some(Some(if s[0] == '-' then -size else size))
      case _ => None
  }

  /** The fraction of a second and what follows it. */
  function ParseFraction(s: string): Option<(nat, string)> {
    if s != "" && s[0] == '.' then
      if |s| < 7 then None
      else match ParseNat(s[1..7]) case None => None case Some(us) => Some((us, s[7..]))
    else Some((0, s))
  }

  /** `datetime.fromisoformat` on what `str(datetime)` writes. */
  function ParseDateTime(s: string): Option<DateTime> {
    if |s| < 19 then None
    else match (ParseDate(s[..10]), ParseClock(s[11..19]), ParseFraction(s[19..]))
      case (Some(date), Some(clock), Some(fraction)) =>
        (match ParseOffset(fraction.1)
         case None => None
         case Some(offset) =>
           var t := DateTime(date, clock.0, clock.1, clock.2, fraction.0, offset);
           if ValidDateTime(t) then Some(t) else None)
      case _ => None
  }

  lemma ClockRoundTrip(hour: nat, minute: nat, second: nat)
    requires hour < 24 && minute < 60 && second < 60
    ensures |ClockText(hour, minute, second)| == 8
    ensures ParseClock(ClockText(hour, minute, second)) == Some((hour, minute, second))
  {
    hide Padded, ParseNat;
    var s := ClockText(hour, minute, second);
    TwoDigits(hour);
    TwoDigits(minute);
    TwoDigits(second);
    assert s[..2] == Padded(hour, 2) && s[3..5] == Padded(minute, 2) && s[6..] == Padded(second, 2);
    ParseNatPadded(hour, 2);
    ParseNatPadded(minute, 2);
    ParseNatPadded(second, 2);
  }

  lemma OffsetRoundTrip(offset: Option<int>)
    requires offset.Some? ==> -1440 < offset.value < 1440
    ensures ParseOffset(OffsetText(offset)) == Some(offset)
    ensures OffsetText(offset) == "" || OffsetText(offset)[0] == '+' || OffsetText(offset)[0] == '-'
  {
    hide Padded, ParseNat;
    if offset.Some? {
      var size: nat := if offset.value < 0 then -offset.value else offset.value;
      var s := OffsetText(offset);
      TwoDigits(size / 60);
      TwoDigits(size % 60);
      assert s[1..3] == Padded(size / 60, 2) && s[4..] == Padded(size % 60, 2);
      ParseNatPadded(size / 60, 2);
      ParseNatPadded(size % 60, 2);
    }
  }

  lemma FractionRoundTrip(microsecond: nat, rest: string)
    requires microsecond < 1_000_000
    requires rest == "" || rest[0] != '.'
    ensures ParseFraction(FractionText(microsecond) + rest) == Some((microsecond, rest))
  {
    hide Padded, ParseNat;
    var s := FractionText(microsecond) + rest;
    if microsecond == 0 {
      assert s == rest;
    } else {
      SixDigits(microsecond);
      assert s[1..7] == Padded(microsecond, 6) && s[7..] == rest;
      ParseNatPadded(microsecond, 6);
    }
  }

  lemma DateTimeRoundTrip(t: DateTime)
    requires ValidDateTime(t)
    ensures ParseDateTime(DateTimeText(t)) == Some(t)
  {
    hide DateText, ClockText, FractionText, OffsetText, ParseDate, ParseClock, ParseFraction, ParseOffset;
    var s := DateTimeText(t);
    DateLength(t.date);
    DateRoundTrip(t.date);
    ClockRoundTrip(t.hour, t.minute, t.second);
    OffsetRoundTrip(t.offset);
    FractionRoundTrip(t.microsecond, OffsetText(t.offset));
    assert s[..10] == DateText(t.date);
    assert s[11..19] == ClockText(t.hour, t.minute, t.second);
    assert s[19..] == FractionText(t.microsecond) + OffsetText(t.offset);
  }

  // ---------------------------------------------------------------- amounts

  /** `str` of an amount with two decimal places, given in cents. */
  function AmountText(cents: int): string {
    var size: nat := if cents < 0 then -cents else cents;
    (if cents < 0 then "-" else "") + Decimal(size / 100) + "." + Padded(size % 100, 2)
  }

  /** `Decimal(text)` on two-place numerals, in cents. */
  function ParseAmount(s: string): Option<int> {
    var negative := s != "" && s[0] == '-';
    var body := if negative then s[1..] else s;
    if |body| < 4 || body[|body| - 3] != '.' then None
    else match (ParseNat(body[..|body| - 3]), ParseNat(body[|body| - 2..]))
      case (Some(whole), Some(fraction)) =>
        var size: int := 100 * whole + fraction;
        Some(if negative then -size else size)
      case _ => None
  }

  lemma NumeralParts(n: nat)
    ensures ParseNat(Decimal(n)) == Some(n) && Decimal(n) != [] && Decimal(n)[0] != '-'
  {
    ParseNatPadded(n, 1);
    assert IsDigit(Decimal(n)[0]);
  }

  lemma AmountParts(whole: string, fraction: string, w: nat, f: nat, sign: string)
    requires ParseNat(whole) == Some(w) && whole != [] && whole[0] != '-'
    requires ParseNat(fraction) == Some(f) && |fraction| == 2
    requires sign == "" || sign == "-"
    ensures ParseAmount(sign + whole + "." + fraction) == Some(if sign == "-" then -(100 * w + f) else 100 * w + f)
  {
    hide ParseNat;
    var s, body := sign + whole + "." + fraction, whole + "." + fraction;
    assert body[..|body| - 3] == whole && body[|body| - 2..] == fraction && body[|body| - 3] == '.';
    if sign == "-" {
      assert s[0] == '-' && s[1..] == body;
    } else {
      assert s == body && s[0] == whole[0];
    }
  }

  lemma AmountRoundTrip(cents: int)
    ensures ParseAmount(AmountText(cents)) == Some(cents)
  {
    hide Padded, ParseNat, Decimal, AllDigits, ParseAmount;
    var size: nat := if cents < 0 then -cents else cents;
    TwoDigits(size % 100);
    NumeralParts(size / 100);
    ParseNatPadded(size % 100, 2);
    AmountParts(Decimal(size / 100), Padded(size % 100, 2), size / 100, size % 100, if cents < 0 then "-" else "");
  }
}
