/** Running scheduled reports: each run is retried a bounded number of times, and a report that was
    processed is always rescheduled past its own finish. */
module ReportRuns {
  import opened Wrappers
  import opened Calendar
  import opened Schedules

  datatype RunStatus = Queued | Running | Completed | Failed

  /** A time whose local date is representable one second later. */
  predicate InRange(s: Schedule, t: int) {
    (t + SECOND + s.offset) / DAY >= 1
  }

  /** The schedule has a next run. */
  predicate Reschedulable(s: Option<Schedule>) {
    s.Some? ==> s.value.time.Some? && (s.value.frequency == Monthly ==> OrOne(s.value.dayOfMonth) >= 1)
  }

  /** One attempt as the outside world decides it: whether the steps up to the stored file work (the
      query, the renderer, the storage), when they finish, and whether the steps after the rescheduling
      work (the repository, the notifier). */
  datatype Attempt = Attempt(now: int, renders: bool, finishedAt: int, saves: bool)

  /** What one scheduled run meets outside: the owner, the repository, the attempts, and, if all of them
      fail, when it is marked as failed and whether that works. */
  datatype World = World(ownerFound: bool, adds: bool, attempts: nat -> Attempt, failedAt: int, marks: bool) {
    ghost predicate Possible(s: Option<Schedule>) {
      s.Some? ==> InRange(s.value, failedAt) && forall k :: InRange(s.value, attempts(k).finishedAt)
    }

    predicate Completes(s: Option<Schedule>, k: nat) {
      attempts(k).renders && Reschedulable(s) && attempts(k).saves
    }
  }

  class Report {
    const id: nat
    const isActive: bool
    const schedule: Option<Schedule>
    var lastRunAt: Option<int>
    var nextRunAt: Option<int>

    constructor (id: nat, schedule: Option<Schedule>, nextRunAt: Option<int>)
      ensures this.id == id && isActive && this.schedule == schedule && lastRunAt == None && this.nextRunAt == nextRunAt
    {
      this.id, isActive, this.schedule, lastRunAt, this.nextRunAt := id, true, schedule, None, nextRunAt;
    }

    predicate Due(now: int)
      reads this
    {
      isActive && schedule.Some? && nextRunAt.Some? && nextRunAt.value <= now
    }

    predicate NoLaterThan(other: Report)
      reads this, other
    {
      nextRunAt.Some? && other.nextRunAt.Some? && nextRunAt.value <= other.nextRunAt.value
    }

    /** The report was run and its next run is the first firing more than a second after the finish. */
    ghost predicate Rescheduled(finishedAt: int)
      reads this
    {
      && lastRunAt == Some(finishedAt)
      && match schedule
         case None => nextRunAt == None
         case Some(s) => nextRunAt.Some? && IsNextRun(s, finishedAt + SECOND, nextRunAt.value)
    }
  }

  class Run {
    const report: Report
    var status: RunStatus
    var startedAt: Option<int>
    var finishedAt: Option<int>
    ghost var executions: nat

    constructor (report: Report)
      ensures this.report == report && status == Queued && startedAt == None && finishedAt == None && executions == 0
    {
      this.report, status, startedAt, finishedAt, executions := report, Queued, None, None, 0;
    }

    /** The run ended with the first attempt that completes, or as failed after all of them, and its
        report was rescheduled from that moment. */
    ghost predicate Finished(w: World, attempts: nat)
      reads this, report
    {
      && 1 <= executions <= attempts
      && (forall k :: 1 <= k < executions ==> !w.Completes(report.schedule, k))
      && (if w.Completes(report.schedule, executions)
          then status == Completed && finishedAt == Some(w.attempts(executions).finishedAt)
          else status == Failed && executions == attempts && finishedAt == Some(w.failedAt))
      && report.Rescheduled(finishedAt.value)
    }
  }

  /** `max(1, max_attempts)`. */
  function Attempts(maxAttempts: int): (n: nat)
    ensures n >= 1 && n >= maxAttempts && (n == 1 || n == maxAttempts)
  {
    if maxAttempts < 1 then 1 else maxAttempts
  }

  datatype BatchResult = BatchResult(processed: nat, completed: nat, failed: nat)

  function CountStatus(runs: seq<Run>, status: RunStatus): nat
    reads runs
  {
    if runs == [] then 0
    else CountStatus(runs[..|runs| - 1], status) + if runs[|runs| - 1].status == status then 1 else 0
  }

  class ReportService {
    const hasStorage: bool
    var reports: seq<Report>
    var runs: seq<Run>

    constructor (reports: seq<Report>, hasStorage: bool)
      ensures this.reports == reports && runs == [] && this.hasStorage == hasStorage
    {
      this.reports, this.runs, this.hasStorage := reports, [], hasStorage;
    }

    method NextRunAtForReport(report: Report, fromUtc: int) returns (r: Result<Option<int>>)
      requires report.schedule.Some? ==> InRange(report.schedule.value, fromUtc)
      ensures r.Success? <==> Reschedulable(report.schedule)
      ensures r.Success? && report.schedule.None? ==> r.value == None
      ensures r.Success? && report.schedule.Some? ==> r.value.Some? && IsNextRun(report.schedule.value, fromUtc + SECOND, r.value.value)
    {
      if report.schedule == None {
        return Success(None);
      }
      var next := CalculateNextRunAt(report.schedule.value, fromUtc + SECOND);
      if next.Failure? {
        return Failure(next.error);
      }
      return Success(Some(next.value));
    }

    /** The k-th attempt; false when it raises, which may be after the report has been rescheduled. */
    method ExecuteScheduledRun(report: Report, run: Run, w: World, k: nat) returns (ok: bool)
      requires run.report == report && w.Possible(report.schedule)
      modifies report`lastRunAt, report`nextRunAt, run
      ensures run.executions == old(run.executions) + 1
      ensures ok <==> w.Completes(report.schedule, k)
      ensures ok ==> run.status == Completed && run.finishedAt == Some(w.attempts(k).finishedAt) && report.Rescheduled(w.attempts(k).finishedAt)
    {
      hide IsNextRun;
      var outside := w.attempts(k);
      run.executions := run.executions + 1;
      run.status := Running;
      run.startedAt := if run.startedAt.Some? then run.startedAt else Some(outside.now);
      if !outside.renders {
        return false;
      }
      run.status := Completed;
      run.finishedAt := Some(outside.finishedAt);
      report.lastRunAt := Some(outside.finishedAt);
      var next := NextRunAtForReport(report, outside.finishedAt);
      if next.Failure? {
        return false;
      }
      report.nextRunAt := next.value;
      return outside.saves;
    }

    method MarkScheduledRunFailed(report: Report, run: Run, w: World) returns (ok: bool)
      requires run.report == report && w.Possible(report.schedule)
      modifies report`lastRunAt, report`nextRunAt, run
      ensures run.executions == old(run.executions)
      ensures ok <==> Reschedulable(report.schedule) && w.marks
      ensures ok ==> run.status == Failed && run.finishedAt == Some(w.failedAt) && report.Rescheduled(w.failedAt)
    {
      hide IsNextRun;
      run.status := Failed;
      run.finishedAt := Some(w.failedAt);
      report.lastRunAt := Some(w.failedAt);
      var next := NextRunAtForReport(report, w.failedAt);
      if next.Failure? {
        return false;
      }
      report.nextRunAt := next.value;
      return w.marks;
    }

    /** The answer of a scheduled run when it raises; None when it does not. */
    ghost function RunError(report: Report, w: World, attempts: nat): Option<Error> {
      if !hasStorage then Some(Business(3033))
      else if !report.isActive || !w.ownerFound then Some(NotFound)
      else if !w.adds then Some(Fault)
      else if exists k :: 1 <= k <= attempts && w.Completes(report.schedule, k) then None
      else if Reschedulable(report.schedule) && w.marks then None
      else Some(Fault)
    }

    /** Runs one report. It raises exactly as `RunError` says; otherwise the run is finished. */
    method RunScheduledReport(report: Report, maxAttempts: int, w: World) returns (r: Result<Run>)
      requires w.Possible(report.schedule)
      modifies report`lastRunAt, report`nextRunAt, this`runs
      ensures runs == old(runs) || (|runs| == |old(runs)| + 1 && runs[..|old(runs)|] == old(runs) && fresh(runs[|old(runs)|]))
      ensures match RunError(report, w, Attempts(maxAttempts)) case None => r.Success? case Some(e) => r == Failure(e)
      ensures r.Success? ==> fresh(r.value) && runs == old(runs) + [r.value]
      ensures r.Success? ==> r.value.report == report && r.value.Finished(w, Attempts(maxAttempts))
    {
      hide Report.Rescheduled, World.Possible;
      if !hasStorage {
        return Failure(Business(3033));
      }
      if !report.isActive || !w.ownerFound {
        return Failure(NotFound);
      }
      if !w.adds {
        return Failure(Fault);
      }
      var run := new Run(report);
      runs := runs + [run];
      var attempts := Attempts(maxAttempts);
      var attempt := 1;
      while attempt <= attempts
        invariant 1 <= attempt <= attempts
        invariant run.executions == attempt - 1
        invariant runs == old(runs) + [run] && fresh(run)
        invariant forall k :: 1 <= k < attempt ==> !w.Completes(report.schedule, k)
      {
        var ok := ExecuteScheduledRun(report, run, w, attempt);
        if ok {
          return Success(run);
        }
        if attempt == attempts {
          ok := MarkScheduledRunFailed(report, run, w);
          if !ok {
            return Failure(Fault);
          }
          return Success(run);
        }
        attempt := attempt + 1;
      }
      return Success(run);
    }

    ghost predicate Distinct(rs: seq<Report>) {
      forall i, j :: 0 <= i < j < |rs| ==> rs[i] != rs[j]
    }

    ghost predicate SortedByNextRun(rs: seq<Report>)
      reads rs
    {
      forall i, j :: 0 <= i < j < |rs| && rs[i].nextRunAt.Some? && rs[j].nextRunAt.Some? ==> rs[i].nextRunAt.value <= rs[j].nextRunAt.value
    }

    /** Inserts a due report behind those that are due no later. */
    method InsertByNextRun(due: seq<Report>, report: Report, now: int) returns (longer: seq<Report>)
      requires report !in due && report.Due(now) && forall i :: 0 <= i < |due| ==> due[i].Due(now)
      requires Distinct(due) && SortedByNextRun(due)
      ensures Distinct(longer) && SortedByNextRun(longer)
      ensures forall i :: 0 <= i < |longer| ==> longer[i].Due(now)
      ensures forall x :: x in longer <==> x in due || x == report
    {
      var j := 0;
      while j < |due| && due[j].nextRunAt.value <= report.nextRunAt.value
        invariant 0 <= j <= |due|
        invariant forall l :: 0 <= l < j ==> due[l].nextRunAt.value <= report.nextRunAt.value
      {
        j := j + 1;
      }
      longer := due[..j] + [report] + due[j..];
    }

    /** The due reports, earliest first. */
    method ListDueScheduledReports(now: int) returns (due: seq<Report>)
      requires Distinct(reports)
      ensures Distinct(due) && SortedByNextRun(due)
      ensures forall r :: r in due <==> r in reports && r.Due(now)
      ensures forall r :: r in due <==> r in reports && r.isActive && r.schedule.Some? && r.nextRunAt.Some? && r.nextRunAt.value <= now
    {
      due := [];
      var i := 0;
      while i < |reports|
        invariant 0 <= i <= |reports|
        invariant Distinct(due) && SortedByNextRun(due)
        invariant forall l :: 0 <= l < |due| ==> due[l].Due(now)
        invariant forall r :: r in due <==> r in reports[..i] && r.Due(now)
      {
        var report := reports[i];
        assert report !in reports[..i];
        assert reports[..i + 1] == reports[..i] + [report];
        if report.Due(now) {
          due := InsertByNextRun(due, report, now);
        }
        i := i + 1;
      }
    }

    /** The i-th run is the finished run of the i-th report, and did not raise. */
    ghost predicate AllFinished(done: seq<Run>, due: seq<Report>, outside: nat -> World, attempts: nat)
      requires |done| <= |due|
      reads done, due
    {
      forall i :: 0 <= i < |done| ==>
        done[i].report == due[i] && done[i].Finished(outside(due[i].id), attempts) && RunError(due[i], outside(due[i].id), attempts).None?
    }

    /** Runs the next report; the reports before it and their runs are not touched. */
    method RunNext(due: seq<Report>, i: nat, ghost done: seq<Run>, outside: nat -> World, maxAttempts: int) returns (r: Result<Run>)
      requires |done| == i < |due| && Distinct(due) && AllFinished(done, due, outside, Attempts(maxAttempts))
      requires outside(due[i].id).Possible(due[i].schedule)
      modifies {due[i]}, this`runs
      ensures AllFinished(done, due, outside, Attempts(maxAttempts)) && old(runs) <= runs
      ensures match RunError(due[i], outside(due[i].id), Attempts(maxAttempts)) case None => r.Success? case Some(e) => r == Failure(e)
      ensures r.Success? ==> fresh(r.value) && runs == old(runs) + [r.value] && AllFinished(done + [r.value], due, outside, Attempts(maxAttempts))
    {
      hide Run.Finished, RunError, World.Possible;
      r := RunScheduledReport(due[i], maxAttempts, outside(due[i].id));
      forall j | 0 <= j < i
        ensures done[j].Finished(outside(due[j].id), Attempts(maxAttempts))
      {
        assert old(done[j].Finished(outside(due[j].id), Attempts(maxAttempts)));
        assert due[j] != due[i];
      }
    }

    /** The batch handles the due reports, earliest first, up to the first one whose run raises. Every
        handled report has its own finished run and is rescheduled past its own finish; the others are
        untouched. Without a raise all of them are handled, and the counts are those of the runs' ends. */
    method RunDueScheduledReports(maxAttempts: int, now: int, outside: nat -> World)
      returns (r: Result<BatchResult>, ghost due: seq<Report>, ghost done: seq<Run>)
      requires Distinct(reports) && forall x :: x in reports ==> outside(x.id).Possible(x.schedule)
      modifies reports, this`runs
      ensures Distinct(due) && forall x :: x in due <==> x in reports && old(x.Due(now))
      ensures forall i, j :: 0 <= i < j < |due| && due[i] in reports && due[j] in reports ==> old(due[i].NoLaterThan(due[j]))
      ensures forall x :: x in reports && x !in due ==> unchanged(x)
      ensures old(runs) + done <= runs
      ensures |done| <= |due| && AllFinished(done, due, outside, Attempts(maxAttempts))
      ensures r.Failure? ==> |done| < |due| && RunError(due[|done|], outside(due[|done|].id), Attempts(maxAttempts)) == Some(r.error)
      ensures r.Success? ==> |done| == |due| && runs == old(runs) + done
      ensures r.Success? ==> r.value == BatchResult(|due|, CountStatus(done, Completed), CountStatus(done, Failed))
      ensures r.Success? ==> r.value.processed == r.value.completed + r.value.failed
    {
      hide AllFinished, Report.Due, Report.NoLaterThan, SortedByNextRun, RunError, World.Possible, CountStatus;
      var list := ListDueScheduledReports(now);
      EarliestFirst(list, now);
      NoneFinished(list, outside, Attempts(maxAttempts));
      due, done := list, [];
      var completed, failed := 0, 0;
      var i := 0;
      while i < |list|
        invariant 0 <= i == |done| == completed + failed <= |list|
        invariant runs == old(runs) + done
        invariant forall run :: run in done ==> fresh(run)
        invariant forall x :: x in reports && x !in list[..i] ==> unchanged(x)
        invariant AllFinished(done, list, outside, Attempts(maxAttempts))
        invariant completed == CountStatus(done, Completed) && failed == CountStatus(done, Failed)
      {
        assert list[i] in reports;
        var run := RunNext(list, i, done, outside, maxAttempts);
        if run.Failure? {
          r := Failure(run.error);
          return;
        }
        assert list[..i + 1] == list[..i] + [list[i]];
        LastFinished(done, run.value, list, outside, Attempts(maxAttempts));
        done := done + [run.value];
        if run.value.status == Completed {
          completed := completed + 1;
        } else {
          failed := failed + 1;
        }
        i := i + 1;
      }
      r := Success(BatchResult(|list|, completed, failed));
    }

    lemma EarliestFirst(due: seq<Report>, now: int)
      requires SortedByNextRun(due) && forall r :: r in due ==> r.Due(now)
      ensures forall i, j :: 0 <= i < j < |due| ==> due[i].NoLaterThan(due[j])
    {
      assert forall i :: 0 <= i < |due| ==> due[i] in due;
    }

    lemma NoneFinished(due: seq<Report>, outside: nat -> World, attempts: nat)
      ensures AllFinished([], due, outside, attempts)
      ensures forall s :: CountStatus([], s) == 0
    {
    }

    lemma LastFinished(done: seq<Run>, run: Run, due: seq<Report>, outside: nat -> World, attempts: nat)
      requires |done| < |due| && AllFinished(done + [run], due, outside, attempts)
      ensures run.status == Completed || run.status == Failed
      ensures forall s :: CountStatus(done + [run], s) == CountStatus(done, s) + if run.status == s then 1 else 0
    {
      assert (done + [run])[|done|] == run && (done + [run])[..|done|] == done;
    }
  }
}
