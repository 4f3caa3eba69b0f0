/** Deliveries over external channels: attempted a bounded number of times, with growing pauses, and
    ending as delivered or as a dead letter that the administrators hear of once. A delivery's
    identifier is its position in the table. */
module Deliveries {
  import opened Wrappers
  import opened Sequences

  datatype Status = Pending | RetryScheduled | Delivered | DeadLetter

  datatype Row = Row(
    status: Status, attemptCount: nat, maxAttempts: int, lastError: Option<string>, nextRetryAt: Option<int>,
    lastAttemptAt: Option<int>, deliveredAt: Option<int>, createdAt: int)

  /** A dead-letter notification to one administrator. */
  datatype Alert = Alert(admin: nat, delivery: nat)

  datatype State = State(rows: seq<Row>, alerts: seq<Alert>)

  predicate Terminal(row: Row) {
    row.status == Delivered || row.status == DeadLetter
  }

  /** The number of attempts a delivery gets; one is always made. */
  function Allowed(row: Row): nat {
    if row.maxAttempts < 1 then 1 else row.maxAttempts
  }

  // ---------------------------------------------------------------- transitions

  function NewDelivery(maxAttempts: int, now: int): Row {
    Row(Pending, 0, maxAttempts, None, Some(now), None, None, now)
  }

  /** The pause after the n-th attempt: the n-th delay, or the last one. */
  function NextRetryAt(delays: seq<int>, now: int, attemptCount: nat): int
    requires attemptCount >= 1
  {
    if delays == [] then now
    else now + delays[if attemptCount - 1 < |delays| - 1 then attemptCount - 1 else |delays| - 1]
  }

  function MarkDelivered(row: Row, now: int): Row {
    row.(attemptCount := row.attemptCount + 1, status := Delivered, lastError := None, nextRetryAt := None,
         lastAttemptAt := Some(now), deliveredAt := Some(now))
  }

  function MarkFailed(row: Row, error: string, delays: seq<int>, now: int): Row {
    var count := row.attemptCount + 1;
    var failed := row.(attemptCount := count, lastError := Some(error), lastAttemptAt := Some(now), deliveredAt := None);
    if count >= row.maxAttempts then failed.(status := DeadLetter, nextRetryAt := None)
    else failed.(status := RetryScheduled, nextRetryAt := Some(NextRetryAt(delays, now, count)))
  }

  function Alerts(admins: seq<nat>, delivery: nat): (alerts: seq<Alert>)
    ensures |alerts| == |admins| && forall i :: 0 <= i < |admins| ==> alerts[i] == Alert(admins[i], delivery)
  {
    seq(|admins|, i requires 0 <= i < |admins| => Alert(admins[i], delivery))
  }

  /** How an attempt ended; an exception or a timeout counts as a failure. */
  datatype Outcome = Accepted | Refused(error: string)

  datatype Command =
    | Enqueue(maxAttempts: int, now: int)
    | Attempt(id: nat, outcome: Outcome, delays: seq<int>, admins: seq<nat>, now: int)

  /** `attempt_delivery`: nothing happens to a finished delivery. */
  function Apply(s: State, c: Command): State
    requires c.Attempt? ==> c.id < |s.rows|
  {
    match c
    case Enqueue(maxAttempts, now) => s.(rows := s.rows + [NewDelivery(maxAttempts, now)])
    case Attempt(id, outcome, delays, admins, now) =>
      var row := s.rows[id];
      if Terminal(row) then s
      else if outcome.Accepted? then s.(rows := s.rows[id := MarkDelivered(row, now)])
      else
        var failed := MarkFailed(row, outcome.error, delays, now);
        State(s.rows[id := failed], if failed.status == DeadLetter then s.alerts + Alerts(admins, id) else s.alerts)
  }

  // ---------------------------------------------------------------- what one attempt does

  /** The n-th pause is the n-th delay, or the last one when there are no more; without delays there is none. */
  lemma PauseMeans(delays: seq<int>, now: int, n: nat)
    requires n >= 1
    ensures n <= |delays| ==> NextRetryAt(delays, now, n) == now + delays[n - 1]
    ensures n > |delays| > 0 ==> NextRetryAt(delays, now, n) == now + delays[|delays| - 1]
    ensures delays == [] ==> NextRetryAt(delays, now, n) == now
  {
  }

  /** One more attempt on an open delivery: delivered when it was accepted; otherwise a dead letter, which every
      administrator hears of, when no more attempts are allowed, and else scheduled again after the pause. */
  ghost predicate Attempted(s: State, t: State, id: nat, outcome: Outcome, delays: seq<int>, admins: seq<nat>, now: int)
    requires id < |s.rows|
  {
    && |t.rows| == |s.rows| && (forall k :: 0 <= k < |s.rows| && k != id ==> t.rows[k] == s.rows[k])
    && var n := s.rows[id].attemptCount + 1;
    var tried := s.rows[id].(attemptCount := n, lastAttemptAt := Some(now));
    match outcome
    case Accepted =>
      t.alerts == s.alerts
      && t.rows[id] == tried.(status := Delivered, deliveredAt := Some(now), lastError := None, nextRetryAt := None)
    case Refused(error) =>
      if n >= s.rows[id].maxAttempts then
        && t.rows[id] == tried.(status := DeadLetter, deliveredAt := None, lastError := Some(error), nextRetryAt := None)
        && |t.alerts| == |s.alerts| + |admins| && t.alerts[..|s.alerts|] == s.alerts
        && forall k :: |s.alerts| <= k < |t.alerts| ==> t.alerts[k] == Alert(admins[k - |s.alerts|], id)
      else
        var pause := if delays == [] then 0 else if n <= |delays| then delays[n - 1] else delays[|delays| - 1];
        && t.alerts == s.alerts
        && t.rows[id] == tried.(status := RetryScheduled, deliveredAt := None, lastError := Some(error), nextRetryAt := Some(now + pause))
  }

  lemma AttemptMeans(s: State, id: nat, outcome: Outcome, delays: seq<int>, admins: seq<nat>, now: int)
    requires id < |s.rows|
    ensures var t := Apply(s, Attempt(id, outcome, delays, admins, now));
      if Terminal(s.rows[id]) then t == s else Attempted(s, t, id, outcome, delays, admins, now)
  {
    PauseMeans(delays, now, s.rows[id].attemptCount + 1);
  }

  // ---------------------------------------------------------------- the invariant

  /** A retry time is set exactly in the two open states, and attempts stay within what is allowed. */
  predicate RowValid(row: Row) {
    && (row.nextRetryAt.Some? <==> !Terminal(row))
    && (row.deliveredAt.Some? <==> row.status == Delivered)
    && (row.status == Pending <==> row.attemptCount == 0)
    && (if Terminal(row) then row.attemptCount <= Allowed(row) else row.attemptCount < Allowed(row))
    && (row.status == DeadLetter ==> row.attemptCount == Allowed(row))
  }

  function AlertKey(a: Alert): Alert {
    a
  }

  ghost predicate Valid(s: State) {
    && (forall id :: 0 <= id < |s.rows| ==> RowValid(s.rows[id]))
    && (forall i :: 0 <= i < |s.alerts| ==> s.alerts[i].delivery < |s.rows| && s.rows[s.alerts[i].delivery].status == DeadLetter)
    && DistinctBy(AlertKey, s.alerts)
  }

  predicate DistinctAdmins(admins: seq<nat>) {
    forall i, j :: 0 <= i < j < |admins| ==> admins[i] != admins[j]
  }

  predicate Enabled(s: State, c: Command) {
    c.Attempt? ==> c.id < |s.rows| && DistinctAdmins(c.admins)
  }

  lemma ApplyValid(s: State, c: Command)
    requires Valid(s) && Enabled(s, c)
    ensures Valid(Apply(s, c))
  {
    var t := Apply(s, c);
    if c.Attempt? && !Terminal(s.rows[c.id]) {
      assert RowValid(s.rows[c.id]) && RowValid(t.rows[c.id]);
      forall i | 0 <= i < |s.alerts|
        ensures s.alerts[i].delivery != c.id
      {
        assert s.rows[s.alerts[i].delivery].status == DeadLetter;
      }
    }
  }

  // ---------------------------------------------------------------- runs

  ghost predicate IsRun(s: State, run: seq<Command>)
    decreases |run|
  {
    run == [] || (Enabled(s, run[0]) && IsRun(Apply(s, run[0]), run[1..]))
  }

  ghost function Final(s: State, run: seq<Command>): State
    requires IsRun(s, run)
    decreases |run|
  {
    if run == [] then s else Final(Apply(s, run[0]), run[1..])
  }

  lemma {:induction false} FinalAppend(s: State, run: seq<Command>, c: Command)
    requires IsRun(s, run) && Enabled(Final(s, run), c)
    ensures IsRun(s, run + [c]) && Final(s, run + [c]) == Apply(Final(s, run), c)
    decreases |run|
  {
    hide Apply;
    var longer := run + [c];
    if run == [] {
      assert longer[1..] == [];
    } else {
      assert longer[0] == run[0] && longer[1..] == run[1..] + [c];
      FinalAppend(Apply(s, run[0]), run[1..], c);
    }
  }

  /** Over every run: attempts are bounded, and no administrator hears twice of the same delivery. */
  lemma {:induction false} RunValid(s: State, run: seq<Command>)
    requires Valid(s) && IsRun(s, run)
    ensures Valid(Final(s, run))
    decreases |run|
  {
    hide Valid, Apply;
    if run != [] {
      ApplyValid(s, run[0]);
      RunValid(Apply(s, run[0]), run[1..]);
    }
  }

  /** Over every run, a finished delivery never changes again. */
  lemma {:induction false} RunKeepsTerminal(s: State, run: seq<Command>, id: nat)
    requires IsRun(s, run) && id < |s.rows| && Terminal(s.rows[id])
    ensures id < |Final(s, run).rows| && Final(s, run).rows[id] == s.rows[id]
    decreases |run|
  {
    if run != [] {
      RunKeepsTerminal(Apply(s, run[0]), run[1..], id);
    }
  }

  /** Attempts that a delivery may still need. */
  function Remaining(row: Row): nat {
    if Terminal(row) || row.attemptCount >= Allowed(row) then 0 else Allowed(row) - row.attemptCount
  }

  function TotalRemaining(rows: seq<Row>): nat {
    if rows == [] then 0 else TotalRemaining(rows[..|rows| - 1]) + Remaining(rows[|rows| - 1])
  }

  lemma {:induction false} TotalAfterUpdate(rows: seq<Row>, id: nat, row: Row)
    requires id < |rows|
    ensures TotalRemaining(rows[id := row]) == TotalRemaining(rows) - Remaining(rows[id]) + Remaining(row)
  {
    var updated := rows[id := row];
    var before := rows[..|rows| - 1];
    if id < |before| {
      TotalAfterUpdate(before, id, row);
      assert updated[..|rows| - 1] == before[id := row];
    } else {
      assert updated[..|rows| - 1] == before;
    }
  }

  /** Each attempt on an open delivery uses up at least one of the remaining ones. */
  lemma AttemptReducesTotal(s: State, c: Command)
    requires Valid(s) && Enabled(s, c) && c.Attempt? && !Terminal(s.rows[c.id])
    ensures TotalRemaining(Apply(s, c).rows) < TotalRemaining(s.rows)
  {
    hide TotalRemaining;
    assert RowValid(s.rows[c.id]);
    TotalAfterUpdate(s.rows, c.id, Apply(s, c).rows[c.id]);
  }

  datatype Try = Try(outcome: Outcome, now: int)

  /** The row of one delivery after some attempts. */
  function AfterTries(row: Row, tries: seq<Try>, delays: seq<int>): Row {
    if tries == [] then row
    else
      var before := AfterTries(row, tries[..|tries| - 1], delays);
      var last := tries[|tries| - 1];
      if Terminal(before) then before
      else if last.outcome.Accepted? then MarkDelivered(before, last.now)
      else MarkFailed(before, last.outcome.error, delays, last.now)
  }

  /** However the attempts end, a delivery is finished once as many have been made as it was allowed,
      and it never counts more than that; it is a dead letter exactly when none of them was accepted. */
  lemma {:induction false} TriesFinish(row: Row, tries: seq<Try>, delays: seq<int>)
    requires RowValid(row) && row.status == Pending
    ensures RowValid(AfterTries(row, tries, delays)) && Allowed(AfterTries(row, tries, delays)) == Allowed(row)
    ensures AfterTries(row, tries, delays).attemptCount <= Allowed(row)
    ensures !Terminal(AfterTries(row, tries, delays)) ==> AfterTries(row, tries, delays).attemptCount == |tries| < Allowed(row)
    ensures AfterTries(row, tries, delays).status == Delivered <==> exists i :: 0 <= i < |tries| && i < Allowed(row) && tries[i].outcome.Accepted?
  {
    if tries != [] {
      var before, last := tries[..|tries| - 1], tries[|tries| - 1];
      TriesFinish(row, before, delays);
      if i :| 0 <= i < |tries| && i < Allowed(row) && tries[i].outcome.Accepted? && i < |before| {
        assert before[i].outcome.Accepted?;
      }
      if AfterTries(row, before, delays).status == Delivered {
        var i :| 0 <= i < |before| && i < Allowed(row) && before[i].outcome.Accepted?;
        assert tries[i].outcome.Accepted?;
      }
      if AfterTries(row, before, delays).status == DeadLetter {
        DeadMeansRefused(row, before, delays);
      }
    }
  }

  /** A dead letter has used up its attempts, all of them refused. */
  lemma {:induction false} DeadMeansRefused(row: Row, tries: seq<Try>, delays: seq<int>)
    requires RowValid(row) && row.status == Pending && AfterTries(row, tries, delays).status == DeadLetter
    ensures |tries| >= Allowed(row) && forall i :: 0 <= i < Allowed(row) ==> !tries[i].outcome.Accepted?
  {
    var before := tries[..|tries| - 1];
    if AfterTries(row, before, delays).status == DeadLetter {
      DeadMeansRefused(row, before, delays);
    } else {
      TriesOpen(row, before, delays);
    }
  }

  lemma {:induction false} TriesOpen(row: Row, tries: seq<Try>, delays: seq<int>)
    requires RowValid(row) && row.status == Pending && !Terminal(AfterTries(row, tries, delays))
    ensures AfterTries(row, tries, delays).attemptCount == |tries| && AfterTries(row, tries, delays).maxAttempts == row.maxAttempts
    ensures forall i :: 0 <= i < |tries| ==> !tries[i].outcome.Accepted?
  {
    if tries != [] {
      TriesOpen(row, tries[..|tries| - 1], delays);
    }
  }

  /** Attempts that reach an open delivery. */
  ghost function Effective(s: State, run: seq<Command>): nat
    requires IsRun(s, run)
    decreases |run|
  {
    if run == [] then 0
    else (if run[0].Attempt? && !Terminal(s.rows[run[0].id]) then 1 else 0) + Effective(Apply(s, run[0]), run[1..])
  }

  /** Over a run without new deliveries, the effective attempts are bounded by what remained at the
      start; when as many have been made, every delivery is finished. */
  lemma {:induction false} RunIsBounded(s: State, run: seq<Command>)
    requires Valid(s) && IsRun(s, run) && forall i :: 0 <= i < |run| ==> run[i].Attempt?
    ensures Effective(s, run) + TotalRemaining(Final(s, run).rows) <= TotalRemaining(s.rows)
    decreases |run|
  {
    hide Valid, Apply, TotalRemaining, Enabled, Terminal;
    if run != [] {
      ApplyValid(s, run[0]);
      AttemptInRange(s, run[0]);
      if Terminal(s.rows[run[0].id]) {
        FinishedUntouched(s, run[0]);
      } else {
        AttemptReducesTotal(s, run[0]);
      }
      RunIsBounded(Apply(s, run[0]), run[1..]);
    }
  }

  lemma AttemptInRange(s: State, c: Command)
    requires c.Attempt? && Enabled(s, c)
    ensures c.id < |s.rows|
  {
  }

  lemma FinishedUntouched(s: State, c: Command)
    requires c.Attempt? && Enabled(s, c) && Terminal(s.rows[c.id])
    ensures Apply(s, c) == s
  {
  }

  /** Nothing remains exactly when every delivery is finished. */
  lemma {:induction false} NothingRemains(rows: seq<Row>)
    requires forall id :: 0 <= id < |rows| ==> RowValid(rows[id])
    ensures TotalRemaining(rows) == 0 <==> forall id :: 0 <= id < |rows| ==> Terminal(rows[id])
  {
    if rows != [] {
      var before, last := rows[..|rows| - 1], rows[|rows| - 1];
      NothingRemains(before);
      assert RowValid(last) && (Remaining(last) == 0 <==> Terminal(last));
      if forall id :: 0 <= id < |rows| ==> Terminal(rows[id]) {
        assert forall id :: 0 <= id < |before| ==> before[id] == rows[id];
      }
      if forall id :: 0 <= id < |before| ==> Terminal(before[id]) {
        assert forall id :: 0 <= id < |before| ==> rows[id] == before[id];
      }
    }
  }

  // ---------------------------------------------------------------- one batch

  predicate Due(row: Row, now: int) {
    !Terminal(row) && row.nextRetryAt.Some? && row.nextRetryAt.value <= now
  }

  predicate Before(a: Row, b: Row) {
    && a.nextRetryAt.Some? && b.nextRetryAt.Some?
    && (a.nextRetryAt.value < b.nextRetryAt.value || (a.nextRetryAt == b.nextRetryAt && a.createdAt <= b.createdAt))
  }

  /** The listed deliveries are due, each once and earliest first; a due one is left out only when the
      limit is used up by deliveries that are due no later. */
  ghost predicate ListsDue(rows: seq<Row>, now: int, limit: nat, due: seq<nat>) {
    && |due| <= limit
    && (forall i :: 0 <= i < |due| ==> due[i] < |rows| && Due(rows[due[i]], now))
    && (forall i, j :: 0 <= i < j < |due| ==> due[i] != due[j] && Before(rows[due[i]], rows[due[j]]))
    && (forall id :: 0 <= id < |rows| && Due(rows[id], now) && id !in due ==>
          |due| == limit && forall i :: 0 <= i < limit ==> Before(rows[due[i]], rows[id]))
  }

  lemma ListedMeans(rows: seq<Row>, now: int, limit: nat, due: seq<nat>)
    requires ListsDue(rows, now, limit, due)
    ensures forall i :: 0 <= i < |due| ==> due[i] < |rows|
    ensures forall id :: 0 <= id < |rows| && rows[id].status != Delivered && rows[id].status != DeadLetter
                         && rows[id].nextRetryAt.Some? && rows[id].nextRetryAt.value <= now && id !in due ==>
              |due| == limit && forall i :: 0 <= i < limit ==>
                rows[due[i]].nextRetryAt.Some? && rows[due[i]].nextRetryAt.value <= rows[id].nextRetryAt.value
    ensures forall i :: 0 <= i < |due| ==>
              rows[due[i]].status != Delivered && rows[due[i]].status != DeadLetter
              && rows[due[i]].nextRetryAt.Some? && rows[due[i]].nextRetryAt.value <= now
  {
  }

  /** How a batch's attempt on a delivery ends, and when; no channel may be configured for it. */
  datatype Outside = Outside(channels: nat -> Option<Outcome>, clock: nat -> int) {
    function Answer(id: nat): Outcome {
      if channels(id).None? then Refused("channel is not configured") else channels(id).value
    }

    function TryOf(id: nat): Try {
      Try(Answer(id), clock(id))
    }
  }

  function AttemptOn(id: nat, outside: Outside, delays: seq<int>, admins: seq<nat>): Command {
    Attempt(id, outside.Answer(id), delays, admins, outside.clock(id))
  }

  /** One attempt on each listed delivery, in order. */
  function AttemptsOn(due: seq<nat>, outside: Outside, delays: seq<int>, admins: seq<nat>): (run: seq<Command>)
    ensures |run| == |due| && forall i :: 0 <= i < |due| ==> run[i] == AttemptOn(due[i], outside, delays, admins)
  {
    seq(|due|, i requires 0 <= i < |due| => AttemptOn(due[i], outside, delays, admins))
  }

  // ---------------------------------------------------------------- the service

  datatype BatchResult = BatchResult(processed: nat, delivered: nat, retryScheduled: nat, deadLetter: nat)

  class NotificationDeliveryService {
    const delays: seq<int>
    const maxAttempts: int
    var deliveries: seq<Row>
    var adminIds: seq<nat>
    var adminNotifications: seq<Alert>

    constructor (delays: seq<int>, maxAttempts: int, adminIds: seq<nat>)
      ensures Table() == State([], []) && this.delays == delays && this.maxAttempts == maxAttempts && this.adminIds == adminIds
    {
      this.delays, this.maxAttempts := delays, maxAttempts;
      deliveries, this.adminIds, adminNotifications := [], adminIds, [];
    }

    function Table(): State
      reads this
    {
      State(deliveries, adminNotifications)
    }

    method MarkDeliveredNow(id: nat, now: int)
      requires id < |deliveries|
      modifies this`deliveries
      ensures deliveries == old(deliveries)[id := MarkDelivered(old(deliveries)[id], now)]
    {
      var row := deliveries[id];
      deliveries := deliveries[id := row.(attemptCount := row.attemptCount + 1, status := Delivered, lastError := None,
                                          nextRetryAt := None, lastAttemptAt := Some(now), deliveredAt := Some(now))];
    }

    method NotifyAdmins(id: nat)
      modifies this`adminNotifications
      ensures adminNotifications == old(adminNotifications) + Alerts(adminIds, id)
    {
      var i := 0;
      while i < |adminIds|
        invariant 0 <= i <= |adminIds|
        invariant adminNotifications == old(adminNotifications) + Alerts(adminIds[..i], id)
      {
        adminNotifications := adminNotifications + [Alert(adminIds[i], id)];
        i := i + 1;
      }
      assert adminIds[..i] == adminIds;
    }

    method MarkFailedAttempt(id: nat, error: string, now: int)
      requires id < |deliveries| && !Terminal(deliveries[id])
      modifies this`deliveries, this`adminNotifications
      ensures Table() == Apply(old(Table()), Attempt(id, Refused(error), delays, adminIds, now))
    {
      var row := deliveries[id];
      row := row.(attemptCount := row.attemptCount + 1);
      row := row.(lastError := Some(error), lastAttemptAt := Some(now), deliveredAt := None);
      if row.attemptCount >= row.maxAttempts {
        row := row.(status := DeadLetter, nextRetryAt := None);
        NotifyAdmins(id);
      } else {
        row := row.(status := RetryScheduled, nextRetryAt := Some(NextRetryAt(delays, now, row.attemptCount)));
      }
      deliveries := deliveries[id := row];
    }

    method AttemptDelivery(id: nat, outcome: Outcome, now: int)
      requires id < |deliveries|
      modifies this`deliveries, this`adminNotifications
      ensures Table() == Apply(old(Table()), Attempt(id, outcome, delays, adminIds, now))
      ensures if old(deliveries)[id].status == Delivered || old(deliveries)[id].status == DeadLetter then Table() == old(Table())
              else Attempted(old(Table()), Table(), id, outcome, delays, adminIds, now)
    {
      AttemptMeans(Table(), id, outcome, delays, adminIds, now);
      hide Attempted;
      if Terminal(deliveries[id]) {
        return;
      }
      match outcome
      case Accepted => MarkDeliveredNow(id, now);
      case Refused(error) => MarkFailedAttempt(id, error, now);
    }

    method EnqueueAndAttempt(now: int, outcome: Outcome, later: int)
      modifies this`deliveries, this`adminNotifications
      ensures Table() ==
        Apply(Apply(old(Table()), Enqueue(maxAttempts, now)), Attempt(|old(deliveries)|, outcome, delays, adminIds, later))
      ensures var added := Row(Pending, 0, maxAttempts, None, Some(now), None, None, now);
        Attempted(State(old(deliveries) + [added], old(adminNotifications)), Table(), |old(deliveries)|, outcome, delays, adminIds, later)
    {
      deliveries := deliveries + [NewDelivery(maxAttempts, now)];
      AttemptDelivery(|deliveries| - 1, outcome, later);
    }

    /** The due deliveries, earliest first, at most `limit`. */
    method ListDueDeliveries(now: int, limit: nat) returns (due: seq<nat>)
      ensures ListsDue(deliveries, now, limit, due) && forall i :: 0 <= i < |due| ==> due[i] < |deliveries|
      ensures forall id :: 0 <= id < |deliveries| && deliveries[id].status != Delivered && deliveries[id].status != DeadLetter
                           && deliveries[id].nextRetryAt.Some? && deliveries[id].nextRetryAt.value <= now && id !in due ==>
                |due| == limit && forall i :: 0 <= i < limit ==>
                  deliveries[due[i]].nextRetryAt.Some? && deliveries[due[i]].nextRetryAt.value <= deliveries[id].nextRetryAt.value
      ensures forall i :: 0 <= i < |due| ==>
                deliveries[due[i]].status != Delivered && deliveries[due[i]].status != DeadLetter
                && deliveries[due[i]].nextRetryAt.Some? && deliveries[due[i]].nextRetryAt.value <= now
    {
      hide ListsDue;
      due := CollectDue(now, limit);
      ListedMeans(deliveries, now, limit, due);
    }

    method CollectDue(now: int, limit: nat) returns (due: seq<nat>)
      ensures ListsDue(deliveries, now, limit, due)
    {
      hide Due, Before;
      var all: seq<nat> := [];
      var id: nat := 0;
      while id < |deliveries|
        invariant 0 <= id <= |deliveries|
        invariant forall i :: 0 <= i < |all| ==> all[i] < id && Due(deliveries[all[i]], now)
        invariant forall i, j :: 0 <= i < j < |all| ==> all[i] != all[j] && Before(deliveries[all[i]], deliveries[all[j]])
        invariant forall x :: 0 <= x < id && Due(deliveries[x], now) ==> x in all
      {
        if Due(deliveries[id], now) {
          all := InsertDue(all, id, now);
        }
        id := id + 1;
      }
      due := if |all| <= limit then all else all[..limit];
      forall x | 0 <= x < |deliveries| && Due(deliveries[x], now) && x !in due
        ensures |due| == limit && forall i :: 0 <= i < limit ==> Before(deliveries[due[i]], deliveries[x])
      {
        var k :| 0 <= k < |all| && all[k] == x;
      }
    }

    method InsertDue(all: seq<nat>, id: nat, now: int) returns (longer: seq<nat>)
      requires id < |deliveries| && Due(deliveries[id], now)
      requires forall i :: 0 <= i < |all| ==> all[i] < id && Due(deliveries[all[i]], now)
      requires forall i, j :: 0 <= i < j < |all| ==> all[i] != all[j] && Before(deliveries[all[i]], deliveries[all[j]])
      ensures forall i :: 0 <= i < |longer| ==> longer[i] <= id && Due(deliveries[longer[i]], now)
      ensures forall i, j :: 0 <= i < j < |longer| ==> longer[i] != longer[j] && Before(deliveries[longer[i]], deliveries[longer[j]])
      ensures forall x :: x in longer <==> x in all || x == id
    {
      var k := 0;
      while k < |all| && Before(deliveries[all[k]], deliveries[id])
        invariant 0 <= k <= |all|
        invariant forall i :: 0 <= i < k ==> Before(deliveries[all[i]], deliveries[id])
      {
        k := k + 1;
      }
      longer := all[..k] + [id] + all[k..];
    }

    /** One attempt on an open delivery, through its channel if that is configured. */
    method ProcessOne(id: nat, outside: Outside)
      requires id < |deliveries| && !Terminal(deliveries[id])
      modifies this`deliveries, this`adminNotifications
      ensures Table() == Apply(old(Table()), AttemptOn(id, outside, delays, adminIds))
    {
      var channel := outside.channels(id);
      if channel.Some? {
        AttemptDelivery(id, channel.value, outside.clock(id));
      } else {
        MarkFailedAttempt(id, "channel is not configured", outside.clock(id));
      }
    }

    /** Every due delivery, up to the limit, is attempted once, in order, the others not at all. The
        batch is a run of attempts, so no administrator hears twice; each one uses up a remaining
        attempt, and the counters tell how the attempted deliveries ended. */
    method ProcessDue(outside: Outside, now: int, limit: nat) returns (r: BatchResult, ghost due: seq<nat>)
      requires Valid(Table()) && DistinctAdmins(adminIds)
      modifies this`deliveries, this`adminNotifications
      ensures ListsDue(old(deliveries), now, limit, due)
      ensures var run := AttemptsOn(due, outside, delays, adminIds);
        IsRun(old(Table()), run) && Table() == Final(old(Table()), run)
      ensures Valid(Table())
      ensures AttemptedAll(old(deliveries), deliveries, due, outside, delays)
      ensures (forall i :: 0 <= i < |due| ==> due[i] < |deliveries|) && r == Tally(deliveries, due)
      ensures r.processed == r.delivered + r.retryScheduled + r.deadLetter
    {
      var list := ListDueDeliveries(now, limit);
      due := list;
      ghost var start := Table();
      r := BatchResult(0, 0, 0, 0);
      hide Progress, Valid, IsRun, Final, Apply, ListsDue, Counted, Tally, AttemptedAll, DistinctAdmins;
      BatchStart(start, now, limit, list, outside, delays, adminIds);
      var i := 0;
      while i < |list|
        invariant 0 <= i <= |list|
        invariant Progress(start, Table(), list, i, r, outside, delays, adminIds)
      {
        BatchStep(start, Table(), now, limit, list, i, r, outside, delays, adminIds);
        ProcessOne(list[i], outside);
        r := Counted(r, deliveries[list[i]].status);
        i := i + 1;
      }
      BatchEnd(start, Table(), list, r, outside, delays, adminIds);
    }
  }

  /** What a batch that attempted the listed deliveries did to the rows. */
  ghost predicate AttemptedAll(start: seq<Row>, rows: seq<Row>, due: seq<nat>, outside: Outside, delays: seq<int>) {
    && |rows| == |start|
    && (forall id :: 0 <= id < |rows| ==>
          rows[id] == if id in due then AfterTries(start[id], [outside.TryOf(id)], delays) else start[id])
    && TotalRemaining(rows) + |due| <= TotalRemaining(start)
    && forall id :: id in due ==> id < |rows| && rows[id].status != Pending
  }

  /** The first `i` listed deliveries have been attempted. */
  ghost predicate Progress(start: State, s: State, due: seq<nat>, i: nat, r: BatchResult, outside: Outside, delays: seq<int>, admins: seq<nat>) {
    && i <= |due| && (forall j :: 0 <= j < |due| ==> due[j] < |s.rows|)
    && Valid(s)
    && var run := AttemptsOn(due[..i], outside, delays, admins);
    && IsRun(start, run) && s == Final(start, run)
    && AttemptedAll(start.rows, s.rows, due[..i], outside, delays)
    && r == Tally(s.rows, due[..i])
  }

  lemma BatchStart(start: State, now: int, limit: nat, due: seq<nat>, outside: Outside, delays: seq<int>, admins: seq<nat>)
    requires Valid(start) && ListsDue(start.rows, now, limit, due)
    ensures Progress(start, start, due, 0, BatchResult(0, 0, 0, 0), outside, delays, admins)
  {
    hide Valid;
  }

  /** The next listed delivery is open, and its attempt makes progress. */
  lemma BatchStep(start: State, s: State, now: int, limit: nat, due: seq<nat>, i: nat, r: BatchResult, outside: Outside, delays: seq<int>, admins: seq<nat>)
    requires i < |due| && ListsDue(start.rows, now, limit, due) && DistinctAdmins(admins)
    requires Progress(start, s, due, i, r, outside, delays, admins)
    ensures due[i] < |s.rows| && !Terminal(s.rows[due[i]])
    ensures var after := Apply(s, AttemptOn(due[i], outside, delays, admins));
      && |after.rows| == |s.rows|
      && Progress(start, after, due, i + 1, Counted(r, after.rows[due[i]].status), outside, delays, admins)
  {
    NextListed(start.rows, s.rows, now, limit, due, i, outside, delays);
    var run := AttemptsOn(due[..i], outside, delays, admins);
    AttemptStep(start, s, run, due[i], outside, delays, admins);
    var after := Apply(s, AttemptOn(due[i], outside, delays, admins));
    hide Apply, Valid, IsRun, Final, Tally, AttemptedAll, ListsDue, Counted, AfterTries, Terminal;
    AttemptedNext(start.rows, s.rows, after.rows, due, i, outside, delays);
    TallyNext(s.rows, after.rows, due, i);
    assert due[..i + 1] == due[..i] + [due[i]];
    assert AttemptsOn(due[..i + 1], outside, delays, admins) == run + [AttemptOn(due[i], outside, delays, admins)];
  }

  lemma BatchEnd(start: State, s: State, due: seq<nat>, r: BatchResult, outside: Outside, delays: seq<int>, admins: seq<nat>)
    requires Progress(start, s, due, |due|, r, outside, delays, admins)
    ensures Valid(s)
    ensures var run := AttemptsOn(due, outside, delays, admins); IsRun(start, run) && s == Final(start, run)
    ensures AttemptedAll(start.rows, s.rows, due, outside, delays)
    ensures (forall i :: 0 <= i < |due| ==> due[i] < |s.rows|) && r == Tally(s.rows, due)
    ensures r.processed == r.delivered + r.retryScheduled + r.deadLetter
  {
    assert due[..|due|] == due;
    hide Valid, IsRun, Final;
    TallySums(s.rows, due);
  }

  /** The next listed delivery is still as it was, and open. */
  lemma NextListed(start: seq<Row>, rows: seq<Row>, now: int, limit: nat, due: seq<nat>, i: nat, outside: Outside, delays: seq<int>)
    requires ListsDue(start, now, limit, due) && i < |due| && AttemptedAll(start, rows, due[..i], outside, delays)
    ensures due[i] < |rows| && rows[due[i]] == start[due[i]] && !Terminal(rows[due[i]]) && due[i] !in due[..i]
  {
  }

  lemma AttemptedNext(start: seq<Row>, before: seq<Row>, rows: seq<Row>, due: seq<nat>, i: nat, outside: Outside, delays: seq<int>)
    requires i < |due| && AttemptedAll(start, before, due[..i], outside, delays)
    requires due[i] < |before| && before[due[i]] == start[due[i]]
    requires rows == before[due[i] := AfterTries(before[due[i]], [outside.TryOf(due[i])], delays)]
    requires TotalRemaining(rows) < TotalRemaining(before) && rows[due[i]].status != Pending
    ensures AttemptedAll(start, rows, due[..i + 1], outside, delays)
  {
    hide TotalRemaining, AfterTries;
    assert due[..i + 1] == due[..i] + [due[i]];
  }

  /** One attempt of a batch. */
  lemma AttemptStep(start: State, s: State, run: seq<Command>, id: nat, outside: Outside, delays: seq<int>, admins: seq<nat>)
    requires id < |s.rows| && !Terminal(s.rows[id]) && Valid(s) && DistinctAdmins(admins)
    requires IsRun(start, run) && s == Final(start, run)
    ensures var c := AttemptOn(id, outside, delays, admins);
      var after := Apply(s, c);
      && Valid(after) && after.rows == s.rows[id := AfterTries(s.rows[id], [outside.TryOf(id)], delays)]
      && IsRun(start, run + [c]) && after == Final(start, run + [c])
      && TotalRemaining(after.rows) < TotalRemaining(s.rows)
      && after.rows[id].status != Pending
  {
    var c := AttemptOn(id, outside, delays, admins);
    ApplyValid(s, c);
    AttemptReducesTotal(s, c);
    FinalAppend(start, run, c);
    hide Valid, IsRun, Final, TotalRemaining;
    assert [outside.TryOf(id)][..0] == [];
    assert AfterTries(s.rows[id], [], delays) == s.rows[id];
  }

  /** How many of the listed deliveries have a status. */
  function CountOf(rows: seq<Row>, ids: seq<nat>, status: Status): nat
    requires forall i :: 0 <= i < |ids| ==> ids[i] < |rows|
  {
    if ids == [] then 0
    else CountOf(rows, ids[..|ids| - 1], status) + if rows[ids[|ids| - 1]].status == status then 1 else 0
  }

  lemma {:induction false} CountSame(before: seq<Row>, after: seq<Row>, ids: seq<nat>, status: Status)
    requires |before| == |after| && forall i :: 0 <= i < |ids| ==> ids[i] < |before| && before[ids[i]] == after[ids[i]]
    ensures CountOf(before, ids, status) == CountOf(after, ids, status)
  {
    if ids != [] {
      CountSame(before, after, ids[..|ids| - 1], status);
    }
  }

  function Tally(rows: seq<Row>, ids: seq<nat>): BatchResult
    requires forall i :: 0 <= i < |ids| ==> ids[i] < |rows|
  {
    BatchResult(|ids|, CountOf(rows, ids, Delivered), CountOf(rows, ids, RetryScheduled), CountOf(rows, ids, DeadLetter))
  }

  function Counted(r: BatchResult, status: Status): BatchResult {
    var more := r.(processed := r.processed + 1);
    match status
    case Delivered => more.(delivered := r.delivered + 1)
    case RetryScheduled => more.(retryScheduled := r.retryScheduled + 1)
    case DeadLetter => more.(deadLetter := r.deadLetter + 1)
    case Pending => more
  }

  lemma TallyNext(before: seq<Row>, after: seq<Row>, ids: seq<nat>, i: nat)
    requires |before| == |after| && i < |ids| && forall j :: 0 <= j < |ids| ==> ids[j] < |before|
    requires ids[i] !in ids[..i] && forall id :: 0 <= id < |before| && id != ids[i] ==> before[id] == after[id]
    ensures Tally(after, ids[..i + 1]) == Counted(Tally(before, ids[..i]), after[ids[i]].status)
  {
    var earlier := ids[..i];
    assert ids[..i + 1][..i] == earlier;
    assert forall j :: 0 <= j < i ==> earlier[j] != ids[i];
    CountSame(before, after, earlier, Delivered);
    CountSame(before, after, earlier, RetryScheduled);
    CountSame(before, after, earlier, DeadLetter);
  }

  /** No attempted delivery is pending, so the three counters cover all of them. */
  lemma {:induction false} TallySums(rows: seq<Row>, ids: seq<nat>)
    requires forall i :: 0 <= i < |ids| ==> ids[i] < |rows| && rows[ids[i]].status != Pending
    ensures var r := Tally(rows, ids); r.processed == r.delivered + r.retryScheduled + r.deadLetter
  {
    if ids != [] {
      TallySums(rows, ids[..|ids| - 1]);
    }
  }
}
