/** The keys that suppress repeated notifications: scenario, receiver, source and business day. */
module DedupKeys {
  import opened Text
  import opened Calendar
  import opened Snapshots

  /** `{date:%Y%m%d}`. */
  function DayText(d: Date): string {
    Decimal(d.year) + Padded(d.month, 2) + Padded(d.day, 2)
  }

  function BuildDedupKey(scenario: string, receiver: Uuid, source: string, date: Date): string {
    scenario + ":" + UuidText(receiver) + ":" + source + ":" + DayText(date)
  }

  lemma SplitAtFirst(a: string, x: string, b: string, y: string)
    requires a + ":" + x == b + ":" + y && ':' !in a && ':' !in b
    ensures a == b && x == y
  {
    var s := a + ":" + x;
    assert s[|a|] == ':' && s[|b|] == ':';
    assert s[..|a|] == a && s[|a| + 1..] == x && s[..|b|] == b && s[|b| + 1..] == y;
  }

  lemma SplitAtLast(a: string, x: string, b: string, y: string)
    requires a + ":" + x == b + ":" + y && ':' !in x && ':' !in y
    ensures a == b && x == y
  {
    var s := a + ":" + x;
    assert s[|a|] == ':' && s[|b|] == ':';
    assert s[..|a|] == a && s[|a| + 1..] == x && s[..|b|] == b && s[|b| + 1..] == y;
  }

  lemma UuidTextLength(u: Uuid)
    ensures |UuidText(u)| == 36
  {
    hide HexText, HexDigits, WithoutDashes;
    HexRoundTrip(u[..8]);
    HexRoundTrip(u[8..12]);
    HexRoundTrip(u[12..16]);
    HexRoundTrip(u[16..20]);
    HexRoundTrip(u[20..]);
  }

  lemma UuidTextInjective(u: Uuid, v: Uuid)
    requires UuidText(u) == UuidText(v)
    ensures u == v
  {
    UuidRoundTrip(u);
    UuidRoundTrip(v);
  }

  lemma DayTextHasNoColon(d: Date)
    ensures ':' !in DayText(d)
  {
    hide Padded;
    var s := DayText(d);
    assert forall i :: 0 <= i < |s| ==> IsDigit(s[i]);
  }

  /** The last four characters are month and day, what is before them is the year, however long. */
  lemma DayTextInjective(d: Date, e: Date)
    requires ValidDate(d) && ValidDate(e) && DayText(d) == DayText(e)
    ensures d == e
  {
    hide Padded;
    var s := DayText(d);
    TwoDigits(d.month);
    TwoDigits(d.day);
    TwoDigits(e.month);
    TwoDigits(e.day);
    assert |Decimal(d.year)| == |s| - 4 == |Decimal(e.year)|;
    assert s[..|s| - 4] == Decimal(d.year) && s[..|s| - 4] == Decimal(e.year);
    assert s[|s| - 4..|s| - 2] == Padded(d.month, 2) && s[|s| - 4..|s| - 2] == Padded(e.month, 2);
    assert s[|s| - 2..] == Padded(d.day, 2) && s[|s| - 2..] == Padded(e.day, 2);
    PaddedInjective(d.year, e.year, 1);
    PaddedInjective(d.month, e.month, 2);
    PaddedInjective(d.day, e.day, 2);
  }

  /** Same scenario: the key determines receiver, source and day, colons in the source or not. */
  lemma KeyInjectiveInScenario(scenario: string, u: Uuid, source: string, d: Date, v: Uuid, other: string, e: Date)
    requires ValidDate(d) && ValidDate(e)
    requires BuildDedupKey(scenario, u, source, d) == BuildDedupKey(scenario, v, other, e)
    ensures u == v && source == other && d == e
  {
    hide UuidText, DayText;
    var key := BuildDedupKey(scenario, u, source, d);
    var a, b := scenario + ":" + UuidText(u) + ":" + source, scenario + ":" + UuidText(v) + ":" + other;
    DayTextHasNoColon(d);
    DayTextHasNoColon(e);
    SplitAtLast(a, DayText(d), b, DayText(e));
    DayTextInjective(d, e);
    UuidTextLength(u);
    UuidTextLength(v);
    var n := |scenario| + 1;
    assert a[n..n + 36] == UuidText(u) && b[n..n + 36] == UuidText(v);
    assert a[n + 37..] == source && b[n + 37..] == other;
    UuidTextInjective(u, v);
  }

  /** Keys are injective for scenarios without a colon. */
  lemma KeyInjective(scenario: string, u: Uuid, source: string, d: Date, otherScenario: string, v: Uuid, other: string, e: Date)
    requires ':' !in scenario && ':' !in otherScenario && ValidDate(d) && ValidDate(e)
    requires BuildDedupKey(scenario, u, source, d) == BuildDedupKey(otherScenario, v, other, e)
    ensures scenario == otherScenario && u == v && source == other && d == e
  {
    hide UuidText, DayText;
    var x, y := UuidText(u) + ":" + source + ":" + DayText(d), UuidText(v) + ":" + other + ":" + DayText(e);
    assert BuildDedupKey(scenario, u, source, d) == scenario + ":" + x;
    assert BuildDedupKey(otherScenario, v, other, e) == otherScenario + ":" + y;
    SplitAtFirst(scenario, x, otherScenario, y);
    KeyInjectiveInScenario(scenario, u, source, d, v, other, e);
  }

  /** With a colon in a scenario, two different notifications can share a key. */
  lemma ColonCollides(scenario: string, u: Uuid, v: Uuid, source: string, d: Date)
    ensures BuildDedupKey(scenario, u, UuidText(v) + ":" + source, d)
      == BuildDedupKey(scenario + ":" + UuidText(u), v, source, d)
  {
    hide UuidText, DayText;
    var a, b, c, e := scenario + ":" + UuidText(u), UuidText(v), source, DayText(d);
    assert a + ":" + (b + ":" + c) + ":" + e == a + ":" + b + ":" + c + ":" + e;
  }
}
