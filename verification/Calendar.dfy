/** The proleptic Gregorian calendar of Python's `datetime`: dates, ordinals and weekdays.
    Months are also counted from year 0, so that month arithmetic is plain addition. */
module Calendar {

  /** Microseconds. */
  const DAY := 86_400_000_000

  datatype Date = Date(year: nat, month: nat, day: nat)

  predicate IsLeap(year: nat) {
    year % 4 == 0 && (year % 100 != 0 || year % 400 == 0)
  }

  /** `calendar.monthrange(year, month)[1]`. */
  function DaysInMonth(year: nat, month: nat): (days: nat)
    requires 1 <= month <= 12
    ensures 28 <= days <= 31
  {
    if month == 2 then (if IsLeap(year) then 29 else 28)
    else if month == 4 || month == 6 || month == 9 || month == 11 then 30
    else 31
  }

  predicate ValidDate(d: Date) {
    d.year >= 1 && 1 <= d.month <= 12 && 1 <= d.day <= DaysInMonth(d.year, d.month)
  }

  function MonthIndex(year: nat, month: nat): nat
    requires 1 <= month <= 12
  {
    12 * year + month - 1
  }

  function YearOf(k: nat): nat { k / 12 }

  function MonthOf(k: nat): (m: nat)
    ensures 1 <= m <= 12
  {
    k % 12 + 1
  }

  lemma MonthIndexSplits(year: nat, month: nat)
    requires 1 <= month <= 12
    ensures YearOf(MonthIndex(year, month)) == year && MonthOf(MonthIndex(year, month)) == month
  {
  }

  lemma MonthIndexJoins(k: nat)
    ensures MonthIndex(YearOf(k), MonthOf(k)) == k
    ensures k >= 12 ==> YearOf(k) >= 1
  {
  }

  function MonthLength(k: nat): nat {
    DaysInMonth(YearOf(k), MonthOf(k))
  }

  function DaysBeforeYear(year: nat): int {
    var y := year - 1;
    365 * y + y / 4 - y / 100 + y / 400
  }

  function DaysBeforeMonth(year: nat, month: nat): nat
    requires 1 <= month <= 12
  {
    if month == 1 then 0 else DaysBeforeMonth(year, month - 1) + DaysInMonth(year, month - 1)
  }

  /** The ordinal of the first day of month `k`. */
  function MonthStart(k: nat): int {
    DaysBeforeYear(YearOf(k)) + DaysBeforeMonth(YearOf(k), MonthOf(k)) + 1
  }

  /** `date.toordinal`. */
  function Ordinal(d: Date): int
    requires ValidDate(d)
  {
    MonthStart(MonthIndex(d.year, d.month)) + d.day - 1
  }

  /** `date.weekday`: Monday is 0. */
  function Weekday(ordinal: int): nat {
    (ordinal + 6) % 7
  }

  lemma YearLength(year: nat)
    requires year >= 1
    ensures DaysBeforeYear(year + 1) == DaysBeforeYear(year) + (if IsLeap(year) then 366 else 365)
  {
    Multiples(year, 4);
    Multiples(year, 100);
    Multiples(year, 400);
    DivisibleChain(year);
  }

  lemma DivisibleChain(year: nat)
    ensures year % 400 == 0 ==> year % 100 == 0
    ensures year % 100 == 0 ==> year % 4 == 0
  {
    if year % 400 == 0 {
      assert year == 100 * (4 * (year / 400));
    }
    if year % 100 == 0 {
      assert year == 4 * (25 * (year / 100));
    }
  }

  lemma Multiples(n: nat, c: nat)
    requires n >= 1 && (c == 4 || c == 100 || c == 400)
    ensures n / c - (n - 1) / c == if n % c == 0 then 1 else 0
  {
  }

  lemma MonthsOfYear(year: nat)
    ensures DaysBeforeMonth(year, 12) + 31 == if IsLeap(year) then 366 else 365
  {
    assert DaysBeforeMonth(year, 4) == DaysBeforeMonth(year, 3) + 31 == DaysBeforeMonth(year, 2) + DaysInMonth(year, 2) + 31;
    assert DaysBeforeMonth(year, 7) == DaysBeforeMonth(year, 6) + 30 == DaysBeforeMonth(year, 5) + 61 == DaysBeforeMonth(year, 4) + 91;
    assert DaysBeforeMonth(year, 10) == DaysBeforeMonth(year, 9) + 30 == DaysBeforeMonth(year, 8) + 61 == DaysBeforeMonth(year, 7) + 92;
    assert DaysBeforeMonth(year, 12) == DaysBeforeMonth(year, 11) + 30 == DaysBeforeMonth(year, 10) + 61;
  }

  /** Months follow one another without a gap, also across a year's end and in leap years. */
  lemma MonthStartNext(k: nat)
    requires k >= 12
    ensures MonthStart(k + 1) == MonthStart(k) + MonthLength(k)
  {
    var year, month := YearOf(k), MonthOf(k);
    if month == 12 {
      assert YearOf(k + 1) == year + 1 && MonthOf(k + 1) == 1;
      YearLength(year);
      MonthsOfYear(year);
    } else {
      assert YearOf(k + 1) == year && MonthOf(k + 1) == month + 1;
    }
  }

  lemma {:induction false} MonthStartMonotone(j: nat, k: nat)
    requires 12 <= j < k
    ensures MonthStart(j) + MonthLength(j) <= MonthStart(k)
    decreases k
  {
    MonthStartNext(k - 1);
    if j < k - 1 {
      MonthStartMonotone(j, k - 1);
    }
  }

  /** The day after, on the calendar. */
  function NextDay(d: Date): (e: Date)
    requires ValidDate(d)
    ensures ValidDate(e)
  {
    if d.day < DaysInMonth(d.year, d.month) then Date(d.year, d.month, d.day + 1)
    else if d.month < 12 then Date(d.year, d.month + 1, 1)
    else Date(d.year + 1, 1, 1)
  }

  /** Ordinals and weekdays go on by one each day, through months, years and leap years, from Monday,
      the first of January of the year 1. */
  lemma NextDayMeans(d: Date)
    requires ValidDate(d)
    ensures Ordinal(NextDay(d)) == Ordinal(d) + 1
    ensures Weekday(Ordinal(NextDay(d))) == (Weekday(Ordinal(d)) + 1) % 7
    ensures Ordinal(Date(1, 1, 1)) == 1 && Weekday(1) == 0
  {
    hide MonthStart;
    var k := MonthIndex(d.year, d.month);
    MonthIndexSplits(d.year, d.month);
    MonthStartNext(k);
    FirstOrdinal();
  }

  lemma FirstOrdinal()
    ensures MonthStart(12) == 1
  {
  }

  predicate DateBefore(d: Date, e: Date) {
    d.year < e.year || (d.year == e.year && (d.month < e.month || (d.month == e.month && d.day < e.day)))
  }

  /** Ordinals are in the order of the dates. */
  lemma OrdinalIncreases(d: Date, e: Date)
    requires ValidDate(d) && ValidDate(e)
    ensures Ordinal(d) < Ordinal(e) <==> DateBefore(d, e)
  {
    hide MonthStart, DaysInMonth;
    var j, k := MonthIndex(d.year, d.month), MonthIndex(e.year, e.month);
    MonthIndexSplits(d.year, d.month);
    MonthIndexSplits(e.year, e.month);
    if j < k {
      MonthStartMonotone(j, k);
    } else if k < j {
      MonthStartMonotone(k, j);
    }
  }

  /** The month that contains an ordinal, searching forwards from month `k`. */
  function MonthAt(n: int, k: nat): (m: nat)
    requires k >= 12 && MonthStart(k) <= n
    ensures m >= k && MonthStart(m) <= n < MonthStart(m) + MonthLength(m)
    decreases n - MonthStart(k)
  {
    MonthStartNext(k);
    if n < MonthStart(k + 1) then k else MonthAt(n, k + 1)
  }

  /** `date.fromordinal`. */
  function FromOrdinal(n: int): (d: Date)
    requires n >= 1
    ensures ValidDate(d) && Ordinal(d) == n
  {
    assert MonthStart(12) == 1;
    var k := MonthAt(n, 12);
    MonthIndexJoins(k);
    Date(YearOf(k), MonthOf(k), n - MonthStart(k) + 1)
  }
}
