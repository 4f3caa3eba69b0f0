/** Monthly audit-log partitions, and the field-by-field difference that an audit entry records. */
module Partitions {
  import opened Wrappers
  import opened Text
  import opened Calendar

  /** Rows dated from `start` up to but not including `end`. */
  datatype Spec = Spec(name: string, start: Date, end: Date)

  /** `_add_months`, from the first day of a month. */
  function AddMonths(start: Date, offset: nat): Date
    requires ValidDate(start)
  {
    var zeroBasedMonth := start.month - 1 + offset;
    Date(start.year + zeroBasedMonth / 12, zeroBasedMonth % 12 + 1, 1)
  }

  /** The month of a date, counted from year 0. */
  function MonthNumber(d: Date): nat
    requires ValidDate(d)
  {
    MonthIndex(d.year, d.month)
  }

  function FirstDay(k: nat): Date {
    Date(YearOf(k), MonthOf(k), 1)
  }

  function SpecOf(k: nat): Spec {
    Spec("audit_logs_" + Decimal(YearOf(k)) + Padded(MonthOf(k), 2), FirstDay(k), FirstDay(k + 1))
  }

  lemma AddMonthsIsFirstDay(start: Date, offset: nat)
    requires ValidDate(start)
    ensures AddMonths(start, offset) == FirstDay(MonthNumber(start) + offset)
    ensures ValidDate(AddMonths(start, offset))
  {
  }

  /** `build_monthly_partition_specs`. */
  method BuildMonthlyPartitionSpecs(onDate: Date, monthsAhead: int) returns (specs: seq<Spec>)
    requires ValidDate(onDate)
    ensures specs == Specs(onDate, monthsAhead)
  {
    hide Padded;
    var start := Date(onDate.year, onDate.month, 1);
    specs := [];
    var offset := 0;
    while offset <= monthsAhead
      invariant 0 <= offset == |specs| && (monthsAhead >= 0 ==> offset <= monthsAhead + 1) && (monthsAhead < 0 ==> offset == 0)
      invariant forall i :: 0 <= i < offset ==> specs[i] == SpecOf(MonthNumber(onDate) + i)
    {
      var first, next := AddMonths(start, offset), AddMonths(start, offset + 1);
      AddMonthsIsFirstDay(start, offset);
      AddMonthsIsFirstDay(start, offset + 1);
      specs := specs + [Spec("audit_logs_" + Decimal(first.year) + Padded(first.month, 2), first, next)];
      offset := offset + 1;
    }
  }

  /** One partition for each month from the date's to `monthsAhead` months later. */
  function Specs(onDate: Date, monthsAhead: int): seq<Spec>
    requires ValidDate(onDate)
  {
    seq(if monthsAhead < 0 then 0 else monthsAhead + 1, i requires i >= 0 => SpecOf(MonthNumber(onDate) + i))
  }

  predicate InPartition(s: Spec, d: Date)
    requires ValidDate(s.start) && ValidDate(s.end) && ValidDate(d)
  {
    Ordinal(s.start) <= Ordinal(d) < Ordinal(s.end)
  }

  lemma FirstDayStartsMonth(k: nat)
    requires k >= 12
    ensures ValidDate(FirstDay(k)) && Ordinal(FirstDay(k)) == MonthStart(k)
  {
    MonthIndexJoins(k);
  }

  /** A date falls into a month's partition exactly when it is in that month. */
  lemma PartitionHoldsItsMonth(k: nat, d: Date)
    requires k >= 12 && ValidDate(d)
    ensures ValidDate(SpecOf(k).start) && ValidDate(SpecOf(k).end)
    ensures InPartition(SpecOf(k), d) <==> MonthNumber(d) == k
    ensures MonthNumber(d) == k ==> SpecOf(k).name == "audit_logs_" + Decimal(d.year) + Padded(d.month, 2)
  {
    hide MonthStart, DaysInMonth;
    var m := MonthNumber(d);
    FirstDayStartsMonth(k);
    FirstDayStartsMonth(k + 1);
    MonthIndexSplits(d.year, d.month);
    MonthStartNext(k);
    assert Ordinal(d) == MonthStart(m) + d.day - 1 && 1 <= d.day <= MonthLength(m);
    if m < k {
      MonthStartMonotone(m, k);
    } else if k < m {
      MonthStartMonotone(k, m);
    }
  }

  lemma SpecDates(onDate: Date, monthsAhead: nat, i: nat)
    requires ValidDate(onDate) && i <= monthsAhead
    ensures Specs(onDate, monthsAhead)[i] == SpecOf(MonthNumber(onDate) + i)
    ensures MonthNumber(onDate) >= 12
    ensures ValidDate(Specs(onDate, monthsAhead)[i].start) && ValidDate(Specs(onDate, monthsAhead)[i].end)
  {
    hide Ordinal, Padded;
    FirstDayStartsMonth(MonthNumber(onDate) + i);
    FirstDayStartsMonth(MonthNumber(onDate) + i + 1);
  }

  /** The partitions of one run follow one another without a gap. */
  lemma SpecsAreContiguous(onDate: Date, monthsAhead: nat, i: nat)
    requires ValidDate(onDate) && i < monthsAhead
    ensures Specs(onDate, monthsAhead)[i].end == Specs(onDate, monthsAhead)[i + 1].start
  {
    SpecDates(onDate, monthsAhead, i);
    SpecDates(onDate, monthsAhead, i + 1);
    assert MonthNumber(onDate) + (i + 1) == MonthNumber(onDate) + i + 1;
  }

  /** Every date from the first partition's start to the last one's end is in exactly one of them, and
      no other date is in any. */
  lemma SpecsCoverWindow(onDate: Date, monthsAhead: nat, d: Date)
    requires ValidDate(onDate) && ValidDate(d)
    ensures var specs := Specs(onDate, monthsAhead);
      && (forall i :: 0 <= i < |specs| ==> ValidDate(specs[i].start) && ValidDate(specs[i].end))
      && (Ordinal(specs[0].start) <= Ordinal(d) < Ordinal(specs[monthsAhead].end) <==> exists i :: 0 <= i < |specs| && InPartition(specs[i], d))
      && (forall i, j :: 0 <= i < |specs| && 0 <= j < |specs| && InPartition(specs[i], d) && InPartition(specs[j], d) ==> i == j)
  {
    hide Ordinal, Padded, ValidDate, MonthNumber, FirstDay;
    var specs := Specs(onDate, monthsAhead);
    var first := MonthNumber(onDate);
    SpecDates(onDate, monthsAhead, 0);
    SpecDates(onDate, monthsAhead, monthsAhead);
    forall i | 0 <= i < |specs|
      ensures ValidDate(specs[i].start) && ValidDate(specs[i].end)
      ensures InPartition(specs[i], d) <==> MonthNumber(d) == first + i
    {
      SpecDates(onDate, monthsAhead, i);
      PartitionHoldsItsMonth(first + i, d);
    }
    WindowIsMonths(first, monthsAhead, d);
    if first <= MonthNumber(d) <= first + monthsAhead {
      assert InPartition(specs[MonthNumber(d) - first], d);
    }
  }

  lemma WindowIsMonths(first: nat, monthsAhead: nat, d: Date)
    requires first >= 12 && ValidDate(d)
    ensures ValidDate(FirstDay(first)) && ValidDate(FirstDay(first + monthsAhead + 1))
    ensures Ordinal(FirstDay(first)) <= Ordinal(d) < Ordinal(FirstDay(first + monthsAhead + 1)) <==> first <= MonthNumber(d) <= first + monthsAhead
  {
    hide MonthStart, DaysInMonth;
    var m, past := MonthNumber(d), first + monthsAhead + 1;
    FirstDayStartsMonth(first);
    FirstDayStartsMonth(past);
    MonthIndexSplits(d.year, d.month);
    assert Ordinal(d) == MonthStart(m) + d.day - 1 && 1 <= d.day <= MonthLength(m);
    if m < first {
      MonthStartMonotone(m, first);
    } else if first < m {
      MonthStartMonotone(first, m);
    }
    if m < past {
      MonthStartMonotone(m, past);
    } else if past < m {
      MonthStartMonotone(past, m);
    }
  }

  /** The same name always means the same range, whichever run made it. */
  lemma NameMeansRange(j: nat, k: nat)
    requires SpecOf(j).name == SpecOf(k).name
    ensures j == k
  {
    hide Padded;
    var a, b := Decimal(YearOf(j)), Decimal(YearOf(k));
    MonthIsTwoDigits(j);
    MonthIsTwoDigits(k);
    var s := a + Padded(MonthOf(j), 2);
    assert SpecOf(j).name[11..] == s && SpecOf(k).name[11..] == b + Padded(MonthOf(k), 2);
    assert |a| == |s| - 2 == |b|;
    assert s[..|s| - 2] == a && s[..|s| - 2] == b;
    assert s[|s| - 2..] == Padded(MonthOf(j), 2) && s[|s| - 2..] == Padded(MonthOf(k), 2);
    PaddedInjective(YearOf(j), YearOf(k), 1);
    PaddedInjective(MonthOf(j), MonthOf(k), 2);
    MonthIndexJoins(j);
    MonthIndexJoins(k);
  }

  lemma MonthIsTwoDigits(k: nat)
    ensures |Padded(MonthOf(k), 2)| == 2
  {
    assert Power10(2) == 10 * Power10(1) == 100 * Power10(0);
    PaddedLength(MonthOf(k), 2);
  }

  // ---------------------------------------------------------------- runs on later and later dates

  predicate Ordered(months: seq<nat>) {
    forall i, j :: 0 <= i < j < |months| ==> months[i] <= months[j]
  }

  /** The months that have a partition after runs in the given months. */
  predicate Covered(months: seq<nat>, monthsAhead: nat, k: int) {
    exists i :: 0 <= i < |months| && months[i] <= k <= months[i] + monthsAhead
  }

  /** Every month from the first run's to the last partition has one. */
  ghost predicate NoGap(months: seq<nat>, monthsAhead: nat)
    requires months != []
  {
    forall k :: months[0] <= k <= months[|months| - 1] + monthsAhead ==> Covered(months, monthsAhead, k)
  }

  lemma {:induction false} CloseRunsCover(months: seq<nat>, monthsAhead: nat, k: int)
    requires months != [] && Ordered(months)
    requires forall i :: 0 <= i < |months| - 1 ==> months[i + 1] <= months[i] + monthsAhead + 1
    requires months[0] <= k <= months[|months| - 1] + monthsAhead
    ensures Covered(months, monthsAhead, k)
  {
    var n := |months| - 1;
    if k < months[n] {
      CloseRunsCover(months[..n], monthsAhead, k);
      var i :| 0 <= i < n && months[..n][i] <= k <= months[..n][i] + monthsAhead;
      assert months[i] <= k <= months[i] + monthsAhead;
    } else {
      assert months[n] <= k <= months[n] + monthsAhead;
    }
  }

  /** Runs leave no gap exactly when consecutive ones are at most `monthsAhead` + 1 months apart. */
  lemma GapFreeExactlyWhenClose(months: seq<nat>, monthsAhead: nat)
    requires months != [] && Ordered(months)
    ensures NoGap(months, monthsAhead) <==> forall i :: 0 <= i < |months| - 1 ==> months[i + 1] <= months[i] + monthsAhead + 1
  {
    if forall i :: 0 <= i < |months| - 1 ==> months[i + 1] <= months[i] + monthsAhead + 1 {
      forall k | months[0] <= k <= months[|months| - 1] + monthsAhead
        ensures Covered(months, monthsAhead, k)
      {
        CloseRunsCover(months, monthsAhead, k);
      }
    } else {
      var i :| 0 <= i < |months| - 1 && months[i + 1] > months[i] + monthsAhead + 1;
      var k := months[i] + monthsAhead + 1;
      assert months[0] <= months[i] && months[i + 1] <= months[|months| - 1];
      forall j | 0 <= j < |months|
        ensures !(months[j] <= k <= months[j] + monthsAhead)
      {
        assert j <= i ==> months[j] <= months[i];
        assert j > i ==> months[i + 1] <= months[j];
      }
      assert !Covered(months, monthsAhead, k);
    }
  }

  class PartitionRepository {
    var existing: set<string>
    var ensureCalls: seq<seq<string>>

    constructor (existing: set<string>)
      ensures this.existing == existing && ensureCalls == []
    {
      this.existing, ensureCalls := existing, [];
    }

    /** Reports as created exactly the partitions that were not there, in order. */
    method EnsurePartitions(specs: seq<Spec>) returns (created: seq<string>)
      modifies this
      ensures existing == old(existing) + set s | s in specs :: s.name
      ensures created == Missing(Names(specs), old(existing))
      ensures ensureCalls == old(ensureCalls) + [Names(specs)]
    {
      ensureCalls := ensureCalls + [Names(specs)];
      created := [];
      var i := 0;
      while i < |specs|
        invariant 0 <= i <= |specs|
        invariant created == Missing(Names(specs)[..i], existing)
        invariant existing == old(existing) && ensureCalls == old(ensureCalls) + [Names(specs)]
      {
        assert Names(specs)[..i + 1][..i] == Names(specs)[..i];
        if specs[i].name !in existing {
          created := created + [specs[i].name];
        }
        i := i + 1;
      }
      assert Names(specs)[..i] == Names(specs);
      existing := existing + set s | s in specs :: s.name;
    }

    /** `ensure_future_partitions`: afterwards the partitions of the window's months are there as well, and
        no others; reported as created are exactly those that were not there, in order. */
    method EnsureFuturePartitions(onDate: Date, monthsAhead: int) returns (ensured: seq<string>, created: seq<string>)
      requires ValidDate(onDate)
      modifies this
      ensures existing == old(existing) + WindowNames(onDate, monthsAhead)
      ensures ensured == Names(Specs(onDate, monthsAhead)) && created == Missing(ensured, old(existing))
      ensures forall name :: name in created <==> name in existing && name !in old(existing)
      ensures ensureCalls == old(ensureCalls) + [ensured]
    {
      hide Missing, Specs, Names;
      var specs := BuildMonthlyPartitionSpecs(onDate, monthsAhead);
      created := EnsurePartitions(specs);
      ensured := Names(specs);
      MissingMeans(ensured, old(existing));
      NamesAsSet(specs);
    }
  }

  function WindowNames(onDate: Date, monthsAhead: int): set<string>
    requires ValidDate(onDate)
  {
    set s | s in Specs(onDate, monthsAhead) :: s.name
  }

  /** The names of a window are those of its months. */
  lemma WindowNamesMean(onDate: Date, monthsAhead: int, k: nat)
    requires ValidDate(onDate)
    ensures SpecOf(k).name in WindowNames(onDate, monthsAhead) <==> MonthNumber(onDate) <= k <= MonthNumber(onDate) + monthsAhead
  {
    hide SpecOf, MonthNumber, ValidDate;
    var specs, first := Specs(onDate, monthsAhead), MonthNumber(onDate);
    if first <= k <= first + monthsAhead {
      assert specs[k - first] == SpecOf(k) && specs[k - first] in specs;
    }
    if SpecOf(k).name in WindowNames(onDate, monthsAhead) {
      var i :| 0 <= i < |specs| && specs[i].name == SpecOf(k).name;
      NameMeansRange(first + i, k);
    }
  }

  /** The names after `ensure_future_partitions` on each of some dates. */
  function AfterRuns(existing: set<string>, dates: seq<Date>, monthsAhead: int): set<string>
    requires forall i :: 0 <= i < |dates| ==> ValidDate(dates[i])
  {
    if dates == [] then existing
    else
      var last := |dates| - 1;
      AfterRuns(existing, dates[..last], monthsAhead) + WindowNames(dates[last], monthsAhead)
  }

  function Months(dates: seq<Date>): (months: seq<nat>)
    requires forall i :: 0 <= i < |dates| ==> ValidDate(dates[i])
    ensures |months| == |dates| && forall i :: 0 <= i < |dates| ==> months[i] == MonthNumber(dates[i])
  {
    seq(|dates|, i requires 0 <= i < |dates| => MonthNumber(dates[i]))
  }

  /** After any runs, a month has its partition exactly when it had one before or is in some run's window. */
  lemma {:induction false} RunsCreate(existing: set<string>, dates: seq<Date>, monthsAhead: nat, k: nat)
    requires forall i :: 0 <= i < |dates| ==> ValidDate(dates[i])
    ensures SpecOf(k).name in AfterRuns(existing, dates, monthsAhead) <==>
      SpecOf(k).name in existing || Covered(Months(dates), monthsAhead, k)
  {
    hide SpecOf, WindowNames, MonthNumber, ValidDate;
    if dates != [] {
      var n := |dates| - 1;
      var before := dates[..n];
      RunsCreate(existing, before, monthsAhead, k);
      WindowNamesMean(dates[n], monthsAhead, k);
      var earlier, months := Months(before), Months(dates);
      assert forall i :: 0 <= i < n ==> earlier[i] == months[i];
      if Covered(earlier, monthsAhead, k) {
        var i :| 0 <= i < n && earlier[i] <= k <= earlier[i] + monthsAhead;
        assert months[i] <= k <= months[i] + monthsAhead;
      }
      if Covered(months, monthsAhead, k) {
        var i :| 0 <= i <= n && months[i] <= k <= months[i] + monthsAhead;
        if i < n {
          assert earlier[i] <= k <= earlier[i] + monthsAhead;
        }
      }
    }
  }

  lemma LaterDateLaterMonth(d: Date, e: Date)
    requires ValidDate(d) && ValidDate(e) && Ordinal(d) <= Ordinal(e)
    ensures MonthNumber(d) <= MonthNumber(e)
  {
    hide MonthStart, DaysInMonth;
    MonthIndexSplits(d.year, d.month);
    MonthIndexSplits(e.year, e.month);
    if MonthNumber(e) < MonthNumber(d) {
      MonthStartMonotone(MonthNumber(e), MonthNumber(d));
    }
  }

  /** Runs on later and later dates, from no partitions, leave a partition for every month from the first
      run's to the last window's end exactly when no run is more than `monthsAhead` + 1 months after the
      one before it. */
  lemma RunsLeaveNoGap(dates: seq<Date>, monthsAhead: nat)
    requires dates != [] && forall i :: 0 <= i < |dates| ==> ValidDate(dates[i])
    requires forall i, j :: 0 <= i < j < |dates| ==> Ordinal(dates[i]) <= Ordinal(dates[j])
    ensures (forall k :: MonthNumber(dates[0]) <= k <= MonthNumber(dates[|dates| - 1]) + monthsAhead ==>
               SpecOf(k).name in AfterRuns({}, dates, monthsAhead))
      <==> forall i :: 0 <= i < |dates| - 1 ==> MonthNumber(dates[i + 1]) <= MonthNumber(dates[i]) + monthsAhead + 1
  {
    hide SpecOf, AfterRuns, MonthNumber, ValidDate, Ordinal;
    var months := Months(dates);
    forall i, j | 0 <= i < j < |dates|
      ensures months[i] <= months[j]
    {
      LaterDateLaterMonth(dates[i], dates[j]);
    }
    forall k: nat
      ensures SpecOf(k).name in AfterRuns({}, dates, monthsAhead) <==> Covered(months, monthsAhead, k)
    {
      RunsCreate({}, dates, monthsAhead, k);
    }
    GapFreeExactlyWhenClose(months, monthsAhead);
  }

  function Names(specs: seq<Spec>): (names: seq<string>)
    ensures |names| == |specs| && forall i :: 0 <= i < |specs| ==> names[i] == specs[i].name
  {
    seq(|specs|, i requires 0 <= i < |specs| => specs[i].name)
  }

  lemma NamesAsSet(specs: seq<Spec>)
    ensures forall name :: name in Names(specs) <==> name in set s | s in specs :: s.name
  {
    forall s | s in specs
      ensures s.name in Names(specs)
    {
      var i :| 0 <= i < |specs| && specs[i] == s;
      assert Names(specs)[i] == s.name;
    }
  }

  function Missing(names: seq<string>, existing: set<string>): seq<string> {
    if names == [] then []
    else Missing(names[..|names| - 1], existing) + if names[|names| - 1] in existing then [] else [names[|names| - 1]]
  }

  lemma {:induction false} MissingMeans(names: seq<string>, existing: set<string>)
    ensures forall name :: name in Missing(names, existing) <==> name in names && name !in existing
  {
    if names != [] {
      MissingMeans(names[..|names| - 1], existing);
      assert names == names[..|names| - 1] + [names[|names| - 1]];
    }
  }

  // ---------------------------------------------------------------- modified fields

  datatype Change<V> = Change(before: Option<V>, after: Option<V>)

  /** `state.get(field)`; a null value reads as absent. */
  function Get<V>(state: map<string, Option<V>>, field: string): Option<V> {
    if field in state then state[field] else None
  }

  /** `build_modified_fields`: loops over the fields of both states. */
  method BuildModifiedFields<V(==)>(before: map<string, Option<V>>, after: map<string, Option<V>>)
    returns (changed: map<string, Change<V>>)
    ensures changed == Difference(before, after)
  {
    hide Get;
    changed := map[];
    var left := before.Keys + after.Keys;
    while left != {}
      invariant left <= before.Keys + after.Keys
      invariant changed == map f | f in before.Keys + after.Keys - left && Get(before, f) != Get(after, f) :: Change(Get(before, f), Get(after, f))
      decreases |left|
    {
      var f :| f in left;
      if Get(before, f) != Get(after, f) {
        changed := changed[f := Change(Get(before, f), Get(after, f))];
      }
      left := left - {f};
    }
  }

  function Difference<V(==)>(before: map<string, Option<V>>, after: map<string, Option<V>>): map<string, Change<V>> {
    map f | f in before.Keys + after.Keys && Get(before, f) != Get(after, f) :: Change(Get(before, f), Get(after, f))
  }

  /** Undoing or redoing the recorded changes gives the other state, field by field; nothing is
      recorded exactly when the states agree. A field that is null reads like one that is absent. */
  lemma DifferenceConnects<V>(before: map<string, Option<V>>, after: map<string, Option<V>>, f: string)
    ensures Get(after, f) == if f in Difference(before, after) then Difference(before, after)[f].after else Get(before, f)
    ensures Get(before, f) == if f in Difference(before, after) then Difference(before, after)[f].before else Get(after, f)
    ensures Difference(before, after) == map[] <==> forall g: string :: Get(before, g) == Get(after, g)
  {
    if Difference(before, after) == map[] {
      forall g: string
        ensures Get(before, g) == Get(after, g)
      {
        assert g !in Difference(before, after);
      }
    }
  }
}
