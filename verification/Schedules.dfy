/** When a scheduled report runs next: daily, weekly, or monthly with the day clamped to the month's
    length, in a zone with a fixed offset. Times are microseconds since the start of ordinal day 0. */
module Schedules {
  import opened Wrappers
  import opened Calendar

  const SECOND := 1_000_000

  type TimeOfDay = t: nat | t < DAY witness 0

  datatype Frequency = Daily | Weekly | Monthly

  /** `offset` is the zone's distance from UTC in microseconds. */
  datatype Schedule = Schedule(
    frequency: Frequency, time: Option<TimeOfDay>, offset: int, dayOfWeek: Option<int>, dayOfMonth: Option<int>)

  /** `value or 1`. */
  function OrOne(value: Option<int>): int {
    if value.None? || value.value == 0 then 1 else value.value
  }

  /** The day of month that a monthly schedule falls on. */
  predicate OnMonthDay(dayOfMonth: int, d: Date)
    requires ValidDate(d)
  {
    var days := DaysInMonth(d.year, d.month);
    d.day == if dayOfMonth <= days then dayOfMonth else days
  }

  predicate OnDay(s: Schedule, day: int)
    requires day >= 1
  {
    match s.frequency
    case Daily => true
    case Weekly => Weekday(day) == (OrOne(s.dayOfWeek) - 1) % 7
    case Monthly => OnMonthDay(OrOne(s.dayOfMonth), FromOrdinal(day))
  }

  /** The schedule fires at this local time. */
  predicate Fires(s: Schedule, local: int) {
    && s.time.Some? && local % DAY == s.time.value
    && local / DAY >= 1 && OnDay(s, local / DAY)
  }

  predicate FiresAt(s: Schedule, utc: int) {
    Fires(s, utc + s.offset)
  }

  /** The first time after `from` at which the schedule fires. */
  ghost predicate IsNextRun(s: Schedule, from: int, next: int) {
    && from < next && FiresAt(s, next)
    && forall t :: from < t < next ==> !FiresAt(s, t)
  }

  lemma NextRunUnique(s: Schedule, from: int, a: int, b: int)
    requires IsNextRun(s, from, a) && IsNextRun(s, from, b)
    ensures a == b
  {
    assert a < b ==> !FiresAt(s, a);
    assert b < a ==> !FiresAt(s, b);
  }

  /** When a schedule fires, on the calendar: at its time of day, in its zone, on every day, on the weekday
      counted from Monday as 1, or on the day of the month, or the month's last day when it is shorter.
      Without a weekday or day of the month it is the first. */
  lemma FiresMeans(s: Schedule, t: int, d: Date)
    requires ValidDate(d) && DAY * Ordinal(d) <= t + s.offset < DAY * Ordinal(d) + DAY
    ensures FiresAt(s, t) <==>
      && s.time.Some? && Ordinal(d) >= 1 && t + s.offset == DAY * Ordinal(d) + s.time.value
      && match s.frequency
         case Daily => true
         case Weekly =>
           (match s.dayOfWeek
            case None => Ordinal(d) % 7 == 1
            case Some(k) => if k == 0 then Ordinal(d) % 7 == 1 else Ordinal(d) % 7 == k % 7)
         case Monthly =>
           (match s.dayOfMonth
            case None => d.day == 1
            case Some(k) => if k == 0 then d.day == 1 else d.day == k || (k > DaysInMonth(d.year, d.month) && d.day == DaysInMonth(d.year, d.month)))
  {
    hide Ordinal, DaysInMonth;
    var day := Ordinal(d);
    Split(t + s.offset);
    assert (t + s.offset) / DAY == day;
    if day >= 1 {
      SameOrdinal(FromOrdinal(day), d);
      WeekdayMeans(day, OrOne(s.dayOfWeek));
    }
  }

  lemma SameOrdinal(d: Date, e: Date)
    requires ValidDate(d) && ValidDate(e) && Ordinal(d) == Ordinal(e)
    ensures d == e
  {
    hide Ordinal;
    OrdinalIncreases(d, e);
    OrdinalIncreases(e, d);
  }

  lemma WeekdayMeans(day: int, k: int)
    ensures Weekday(day) == (k - 1) % 7 <==> day % 7 == k % 7
  {
  }

  // ---------------------------------------------------------------- days and times

  lemma Split(t: int)
    ensures t == DAY * (t / DAY) + t % DAY && 0 <= t % DAY < DAY
  {
  }

  lemma Join(day: int, time: TimeOfDay)
    ensures (DAY * day + time) / DAY == day && (DAY * day + time) % DAY == time
  {
  }

  /** Firing times are ordered as their days. */
  lemma FiresOn(s: Schedule, t: int)
    requires Fires(s, t)
    ensures t == DAY * (t / DAY) + s.time.value && OnDay(s, t / DAY)
  {
    Split(t);
  }

  /** If a schedule fires on `day` and on no day from `today` to before it, the firing on `day` is the
      next one, unless today's has passed and `day` is today. */
  lemma FirstDayIsNext(s: Schedule, from: int, today: int, day: int)
    requires s.time.Some? && 1 <= today <= day && OnDay(s, day)
    requires today == (from + s.offset) / DAY
    requires from + s.offset < DAY * day + s.time.value
    requires forall d :: today <= d < day && OnDay(s, d) ==> DAY * d + s.time.value <= from + s.offset
    ensures IsNextRun(s, from, DAY * day + s.time.value - s.offset)
  {
    var time := s.time.value;
    var next := DAY * day + time - s.offset;
    Join(day, time);
    Split(from + s.offset);
    forall t | from < t < next
      ensures !FiresAt(s, t)
    {
      if FiresAt(s, t) {
        FiresOn(s, t + s.offset);
        NotBetween(from + s.offset, t + s.offset, day, time);
      }
    }
  }

  lemma NotBetween(a: int, t: int, day: int, time: TimeOfDay)
    requires a < t < DAY * day + time && t == DAY * (t / DAY) + time
    ensures a / DAY <= t / DAY < day
  {
    Split(a);
  }

  // ---------------------------------------------------------------- months

  /** The ordinal of the monthly firing in month `k`. */
  function MonthDay(dayOfMonth: nat, k: nat): int
    requires dayOfMonth >= 1
  {
    MonthStart(k) + (if dayOfMonth <= MonthLength(k) then dayOfMonth else MonthLength(k)) - 1
  }

  lemma MonthDayIncreases(dayOfMonth: nat, j: nat, k: nat)
    requires dayOfMonth >= 1 && 12 <= j < k
    ensures MonthDay(dayOfMonth, j) < MonthDay(dayOfMonth, k)
  {
    MonthStartMonotone(j, k);
    hide MonthStart, DaysInMonth;
    assert MonthLength(k) >= 1;
  }

  function MonthOfDay(day: int): (k: nat)
    requires day >= 1
    ensures k >= 12
  {
    MonthIndex(FromOrdinal(day).year, FromOrdinal(day).month)
  }

  lemma OnMonthDayMeans(dayOfMonth: nat, day: int)
    requires dayOfMonth >= 1 && day >= 1
    ensures OnMonthDay(dayOfMonth, FromOrdinal(day)) <==> day == MonthDay(dayOfMonth, MonthOfDay(day))
    ensures MonthStart(MonthOfDay(day)) <= day < MonthStart(MonthOfDay(day)) + MonthLength(MonthOfDay(day))
  {
    hide MonthStart, DaysInMonth, FromOrdinal, YearOf, MonthOf, MonthIndex;
    var d := FromOrdinal(day);
    MonthIndexSplits(d.year, d.month);
  }

  lemma MonthOfMonthDay(dayOfMonth: nat, k: nat)
    requires dayOfMonth >= 1 && k >= 12
    ensures MonthDay(dayOfMonth, k) >= 1 && MonthOfDay(MonthDay(dayOfMonth, k)) == k
  {
    hide DaysInMonth, DaysBeforeMonth, DaysBeforeYear, FromOrdinal;
    FirstMonth();
    var day := MonthDay(dayOfMonth, k);
    if k > 12 {
      MonthStartMonotone(12, k);
    }
    assert MonthStart(k) <= day < MonthStart(k) + MonthLength(k);
    var m := MonthOfDay(day);
    OnMonthDayMeans(dayOfMonth, day);
    if m < k {
      MonthStartMonotone(m, k);
    } else if k < m {
      MonthStartMonotone(k, m);
    }
  }

  lemma FirstMonth()
    ensures MonthStart(12) == 1
  {
  }

  /** A monthly schedule fires on a day exactly when it is the firing of that day's month. */
  lemma MonthlyDays(s: Schedule, day: int, k: nat)
    requires s.frequency == Monthly && OrOne(s.dayOfMonth) >= 1 && day >= 1 && k >= 12
    ensures day == MonthDay(OrOne(s.dayOfMonth), k) ==> OnDay(s, day)
    ensures OnDay(s, day) && MonthOfDay(day) == k ==> day == MonthDay(OrOne(s.dayOfMonth), k)
    ensures OnDay(s, day) && MonthOfDay(day) < k ==> day < MonthDay(OrOne(s.dayOfMonth), k)
    ensures OnDay(s, day) && MonthOfDay(day) > k ==> day > MonthDay(OrOne(s.dayOfMonth), k)
  {
    hide MonthStart, DaysInMonth, FromOrdinal, MonthDay, MonthOfDay;
    var dom := OrOne(s.dayOfMonth);
    OnMonthDayMeans(dom, day);
    MonthOfMonthDay(dom, k);
    if OnDay(s, day) && MonthOfDay(day) < k {
      MonthDayIncreases(dom, MonthOfDay(day), k);
    } else if OnDay(s, day) && MonthOfDay(day) > k {
      MonthDayIncreases(dom, k, MonthOfDay(day));
    }
  }

  lemma MonthOfDayMonotone(a: int, b: int)
    requires 1 <= a <= b
    ensures MonthOfDay(a) <= MonthOfDay(b)
  {
    hide MonthStart, DaysInMonth, FromOrdinal, MonthOfDay;
    OnMonthDayMeans(1, a);
    OnMonthDayMeans(1, b);
    if MonthOfDay(b) < MonthOfDay(a) {
      MonthStartMonotone(MonthOfDay(b), MonthOfDay(a));
    }
  }

  // ---------------------------------------------------------------- the calculation

  /** The local time of the firing in a month, or a ValueError for a day that no month has. */
  method MonthlyCandidate(year: nat, month: nat, day: int, time: TimeOfDay) returns (r: Result<int>)
    requires year >= 1 && 1 <= month <= 12
    ensures r.Success? <==> day >= 1
    ensures r.Success? ==> r.value == DAY * MonthDay(day, MonthIndex(year, month)) + time
    ensures r.Failure? ==> r.error == ValueError
  {
    var days := DaysInMonth(year, month);
    var resolvedDay := if day <= days then day else days;
    if resolvedDay < 1 {
      return Failure(ValueError);
    }
    MonthIndexSplits(year, month);
    return Success(DAY * Ordinal(Date(year, month, resolvedDay)) + time);
  }

  /** The result is the first firing after the given time, on every date. */
  method CalculateNextRunAt(s: Schedule, fromUtc: int) returns (r: Result<int>)
    requires (fromUtc + s.offset) / DAY >= 1
    ensures r.Success? <==> s.time.Some? && (s.frequency == Monthly ==> OrOne(s.dayOfMonth) >= 1)
    ensures r.Success? ==> IsNextRun(s, fromUtc, r.value)
    ensures r.Failure? ==> r.error == ValueError
  {
    if s.time.None? {
      return Failure(ValueError);
    }
    var localNow := fromUtc + s.offset;
    match s.frequency {
      case Daily =>
        var next := DailyRun(s, localNow);
        return Success(next);
      case Weekly =>
        var next := WeeklyRun(s, localNow);
        return Success(next);
      case Monthly =>
        r := MonthlyRun(s, localNow);
    }
  }

  method DailyRun(s: Schedule, localNow: int) returns (next: int)
    requires s.frequency == Daily && s.time.Some? && localNow / DAY >= 1
    ensures IsNextRun(s, localNow - s.offset, next)
  {
    var today := localNow / DAY;
    var candidate := DAY * today + s.time.value;
    Split(localNow);
    if candidate <= localNow {
      candidate := candidate + DAY;
      FirstDayIsNext(s, localNow - s.offset, today, today + 1);
    } else {
      FirstDayIsNext(s, localNow - s.offset, today, today);
    }
    next := candidate - s.offset;
  }

  lemma WeekdayAfter(today: int, target: int, d: int)
    requires today <= d < today + 7
    ensures Weekday(d) == target % 7 <==> d == today + (target - Weekday(today)) % 7
  {
  }

  method WeeklyRun(s: Schedule, localNow: int) returns (next: int)
    requires s.frequency == Weekly && s.time.Some? && localNow / DAY >= 1
    ensures IsNextRun(s, localNow - s.offset, next)
  {
    hide FiresAt, IsNextRun;
    var today := localNow / DAY;
    var targetWeekday := OrOne(s.dayOfWeek) - 1;
    var daysUntil := (targetWeekday - Weekday(today)) % 7;
    var candidate := DAY * (today + daysUntil) + s.time.value;
    Split(localNow);
    forall d | today <= d < today + 7
      ensures OnDay(s, d) <==> d == today + daysUntil
    {
      WeekdayAfter(today, targetWeekday, d);
    }
    if candidate <= localNow {
      candidate := candidate + 7 * DAY;
      assert daysUntil == 0;
      WeekdayAfter(today, targetWeekday, today);
      assert OnDay(s, today + 7);
      FirstDayIsNext(s, localNow - s.offset, today, today + 7);
    } else {
      FirstDayIsNext(s, localNow - s.offset, today, today + daysUntil);
    }
    next := candidate - s.offset;
  }

  method MonthlyRun(s: Schedule, localNow: int) returns (r: Result<int>)
    requires s.frequency == Monthly && s.time.Some? && localNow / DAY >= 1
    ensures r.Success? <==> OrOne(s.dayOfMonth) >= 1
    ensures r.Success? ==> IsNextRun(s, localNow - s.offset, r.value)
    ensures r.Failure? ==> r.error == ValueError
  {
    hide FiresAt, IsNextRun, FromOrdinal, OnDay, MonthDay, Ordinal;
    var today := localNow / DAY;
    var date := FromOrdinal(today);
    var year, month := date.year, date.month;
    var targetDay := OrOne(s.dayOfMonth);
    ghost var k := MonthOfDay(today);
    r := MonthlyCandidate(year, month, targetDay, s.time.value);
    if r.Failure? {
      return;
    }
    if r.value <= localNow {
      month := month + 1;
      if month > 12 {
        year := year + 1;
        month := 1;
      }
      assert MonthIndex(year, month) == k + 1;
      r := MonthlyCandidate(year, month, targetDay, s.time.value);
      NextMonthIsNext(s, localNow, today, k);
    } else {
      ThisMonthIsNext(s, localNow, today, k);
    }
    r := Success(r.value - s.offset);
  }

  lemma ThisMonthIsNext(s: Schedule, localNow: int, today: int, k: nat)
    requires s.frequency == Monthly && s.time.Some? && OrOne(s.dayOfMonth) >= 1
    requires today == localNow / DAY >= 1 && k == MonthOfDay(today)
    requires localNow < DAY * MonthDay(OrOne(s.dayOfMonth), k) + s.time.value
    ensures IsNextRun(s, localNow - s.offset, DAY * MonthDay(OrOne(s.dayOfMonth), k) + s.time.value - s.offset)
  {
    hide IsNextRun, FiresAt, OnDay, MonthDay, MonthOfDay;
    var day := MonthDay(OrOne(s.dayOfMonth), k);
    Split(localNow);
    MonthOfMonthDay(OrOne(s.dayOfMonth), k);
    MonthlyDays(s, day, k);
    forall d | today <= d < day
      ensures !OnDay(s, d)
    {
      MonthOfDayMonotone(today, d);
      MonthlyDays(s, d, k);
    }
    FirstDayIsNext(s, localNow - s.offset, today, day);
  }

  lemma NextMonthIsNext(s: Schedule, localNow: int, today: int, k: nat)
    requires s.frequency == Monthly && s.time.Some? && OrOne(s.dayOfMonth) >= 1
    requires today == localNow / DAY >= 1 && k == MonthOfDay(today)
    requires DAY * MonthDay(OrOne(s.dayOfMonth), k) + s.time.value <= localNow
    ensures IsNextRun(s, localNow - s.offset, DAY * MonthDay(OrOne(s.dayOfMonth), k + 1) + s.time.value - s.offset)
  {
    hide IsNextRun, FiresAt, OnDay, MonthDay, MonthOfDay;
    var day := MonthDay(OrOne(s.dayOfMonth), k + 1);
    Split(localNow);
    MonthOfMonthDay(OrOne(s.dayOfMonth), k + 1);
    MonthlyDays(s, day, k + 1);
    MonthlyDays(s, today, k + 1);
    LaterMonthLaterDay(today, day);
    forall d | today <= d < day && OnDay(s, d)
      ensures DAY * d + s.time.value <= localNow
    {
      MonthOfDayMonotone(today, d);
      MonthlyDays(s, d, k);
      MonthlyDays(s, d, k + 1);
    }
    FirstDayIsNext(s, localNow - s.offset, today, day);
  }

  lemma LaterMonthLaterDay(a: int, b: int)
    requires a >= 1 && b >= 1 && MonthOfDay(a) < MonthOfDay(b)
    ensures a < b
  {
    hide MonthOfDay;
    if b <= a {
      MonthOfDayMonotone(b, a);
    }
  }
}
