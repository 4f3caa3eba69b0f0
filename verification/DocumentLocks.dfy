/** Interleaved uploads and reclassifications under per-group advisory locks. A transaction takes
    its group locks one at a time in type order, reads the group it writes to, and commits; the
    table holds committed rows only. Only type and version are followed here. Lock keys are the
    groups themselves. */
module DocumentLocks {
  import opened Text
  import opened Documents
  import opened Sequences

  datatype Placed = Placed(group: Group, version: nat)

  type Table = map<nat, Placed>

  /** Acquiring(k) holds its first `k` locks; Ready has read the next version of its target group. */
  datatype Stage = Acquiring(taken: nat) | Ready(version: nat) | Done

  datatype Transaction =
    | Uploading(id: nat, target: Group, stage: Stage)
    | Moving(id: nat, source: Group, target: Group, stage: Stage)

  datatype State = State(table: Table, txs: seq<Transaction>)

  /** The locks of a transaction in the order it takes them. */
  function Locks(t: Transaction): (locks: seq<Group>)
    ensures 1 <= |locks| <= 2 && t.target in locks
  {
    match t
    case Uploading(_, target, _) => [target]
    case Moving(_, source, target, _) =>
      if Less(source.docType, target.docType) then [source, target] else [target, source]
  }

  predicate Active(t: Transaction) {
    !t.stage.Done?
  }

  predicate Holds(t: Transaction, g: Group) {
    match t.stage
    case Acquiring(k) => k <= |Locks(t)| && g in Locks(t)[..k]
    case Ready(_) => g in Locks(t)
    case Done => false
  }

  predicate Waiting(t: Transaction) {
    t.stage.Acquiring? && t.stage.taken < |Locks(t)|
  }

  function Awaited(t: Transaction): Group
    requires Waiting(t)
  {
    Locks(t)[t.stage.taken]
  }

  /** `v` is the version a new member of `g` gets: one above the highest, or 1. */
  ghost predicate IsNext(table: Table, g: Group, v: nat) {
    && (forall id :: id in table && table[id].group == g ==> table[id].version < v)
    && (v == 1 || exists id :: id in table && table[id].group == g && table[id].version + 1 == v)
  }

  datatype Action =
    | Begin(tx: Transaction)
    | Acquire(t: nat)
    | Read(t: nat, version: nat)
    | Commit(t: nat)
    | Abort(t: nat)

  /** Identifiers of new documents are fresh, a reclassification starts from the row it read, and
      no two running reclassifications are of the same document. */
  ghost predicate Enabled(s: State, a: Action) {
    match a
    case Begin(tx) =>
      && tx.stage == Acquiring(0)
      && (forall u :: 0 <= u < |s.txs| && Active(s.txs[u]) ==> s.txs[u].id != tx.id)
      && (match tx
          case Uploading(id, _, _) => id !in s.table
          case Moving(id, source, target, _) =>
            id in s.table && s.table[id].group == source
            && target == source.(docType := target.docType) && target.docType != source.docType)
    case Acquire(t) =>
      t < |s.txs| && Waiting(s.txs[t])
      && forall u :: 0 <= u < |s.txs| && u != t ==> !Holds(s.txs[u], Awaited(s.txs[t]))
    case Read(t, version) =>
      t < |s.txs| && s.txs[t].stage == Acquiring(|Locks(s.txs[t])|) && IsNext(s.table, s.txs[t].target, version)
    case Commit(t) => t < |s.txs| && s.txs[t].stage.Ready?
    case Abort(t) => t < |s.txs| && Active(s.txs[t])
  }

  function Moved(s: State, t: nat, stage: Stage): State
    requires t < |s.txs|
  {
    s.(txs := s.txs[t := s.txs[t].(stage := stage)])
  }

  ghost function Apply(s: State, a: Action): State
    requires Enabled(s, a)
  {
    match a
    case Begin(tx) => s.(txs := s.txs + [tx])
    case Acquire(t) => Moved(s, t, Acquiring(s.txs[t].stage.taken + 1))
    case Read(t, version) => Moved(s, t, Ready(version))
    case Commit(t) =>
      Moved(s, t, Done).(table := s.table[s.txs[t].id := Placed(s.txs[t].target, s.txs[t].stage.version)])
    case Abort(t) => Moved(s, t, Done)
  }

  ghost predicate IsRun(s: State, actions: seq<Action>)
    decreases |actions|
  {
    actions == [] || (Enabled(s, actions[0]) && IsRun(Apply(s, actions[0]), actions[1..]))
  }

  ghost function Final(s: State, actions: seq<Action>): State
    requires IsRun(s, actions)
    decreases |actions|
  {
    if actions == [] then s else Final(Apply(s, actions[0]), actions[1..])
  }

  // ---------------------------------------------------------------- invariant

  ghost predicate DistinctPlaces(table: Table) {
    && (forall id :: id in table ==> table[id].version >= 1)
    && (forall i, j :: i in table && j in table && i != j && table[i].group == table[j].group ==> table[i].version != table[j].version)
  }

  predicate Exclusive(s: State) {
    forall t, u :: 0 <= t < |s.txs| && 0 <= u < |s.txs| && t != u ==>
      forall g :: g in Locks(s.txs[t]) && Holds(s.txs[t], g) ==> !Holds(s.txs[u], g)
  }

  predicate DistinctSubjects(s: State) {
    forall t, u :: 0 <= t < u < |s.txs| && Active(s.txs[t]) && Active(s.txs[u]) ==> s.txs[t].id != s.txs[u].id
  }

  /** What a running transaction knows about the table. */
  ghost predicate Informed(table: Table, t: Transaction) {
    && (t.stage.Acquiring? ==> t.stage.taken <= |Locks(t)|)
    && (t.Uploading? ==> t.id !in table)
    && (t.Moving? ==> t.id in table && table[t.id].group == t.source
                      && t.target == t.source.(docType := t.target.docType) && t.target.docType != t.source.docType)
    && (t.stage.Ready? ==> IsNext(table, t.target, t.stage.version))
  }

  ghost predicate Valid(s: State) {
    && DistinctPlaces(s.table)
    && Exclusive(s)
    && DistinctSubjects(s)
    && forall t :: 0 <= t < |s.txs| && Active(s.txs[t]) ==> Informed(s.table, s.txs[t])
  }

  /** One new or moved row, placed with the version that follows the table as it is now. */
  ghost predicate PlacesNext(before: Table, after: Table) {
    exists id, g, v: nat :: Places(before, after, id, g, v)
  }

  ghost predicate Places(before: Table, after: Table, id: nat, g: Group, v: nat) {
    IsNext(before, g, v) && after == before[id := Placed(g, v)]
  }

  lemma CommitPlacesNext(s: State, t: nat)
    requires Valid(s) && Enabled(s, Commit(t))
    ensures PlacesNext(s.table, Apply(s, Commit(t)).table)
  {
    var tx := s.txs[t];
    assert Informed(s.table, tx);
    assert Places(s.table, Apply(s, Commit(t)).table, tx.id, tx.target, tx.stage.version);
  }

  /** Every interleaved action is invisible on the committed rows or has the effect of an
      upload or reclassification performed in one piece at that moment. */
  lemma ActionIsAtomic(s: State, a: Action)
    requires Valid(s) && Enabled(s, a)
    ensures Apply(s, a).table == s.table || PlacesNext(s.table, Apply(s, a).table)
  {
    if a.Commit? {
      CommitPlacesNext(s, a.t);
    }
  }

  lemma PlacesNextDistinct(before: Table, after: Table)
    requires DistinctPlaces(before) && PlacesNext(before, after)
    ensures DistinctPlaces(after)
  {
    var id, g, v: nat :| Places(before, after, id, g, v);
  }

  /** A commit leaves every other running transaction's knowledge true, because it only touches
      groups whose locks it holds. */
  lemma CommitKeepsInformed(s: State, t: nat, u: nat)
    requires Valid(s) && Enabled(s, Commit(t)) && u < |s.txs| && u != t && Active(s.txs[u])
    ensures Informed(Apply(s, Commit(t)).table, s.txs[u])
  {
    var tx, other, after := s.txs[t], s.txs[u], Apply(s, Commit(t)).table;
    assert Informed(s.table, tx) && Informed(s.table, other);
    assert other.id != tx.id;
    if other.stage.Ready? {
      assert Holds(tx, tx.target) && (tx.Moving? ==> Holds(tx, tx.source)) && Holds(other, other.target);
      assert tx.target != other.target && (tx.Moving? ==> tx.source != other.target);
      assert forall id :: id in after && after[id].group == other.target <==> id in s.table && s.table[id].group == other.target;
      if other.stage.version != 1 {
        var id :| id in s.table && s.table[id].group == other.target && s.table[id].version + 1 == other.stage.version;
        assert id in after && after[id] == s.table[id];
      }
    }
  }

  lemma CommitValid(s: State, t: nat)
    requires Valid(s) && Enabled(s, Commit(t))
    ensures Valid(Apply(s, Commit(t)))
  {
    var after := Apply(s, Commit(t));
    CommitPlacesNext(s, t);
    PlacesNextDistinct(s.table, after.table);
    forall u | 0 <= u < |after.txs| && Active(after.txs[u])
      ensures Informed(after.table, after.txs[u])
    {
      CommitKeepsInformed(s, t, u);
    }
  }

  lemma BeginValid(s: State, tx: Transaction)
    requires Valid(s) && Enabled(s, Begin(tx))
    ensures Valid(Apply(s, Begin(tx)))
  {
    hide Locks, DistinctPlaces, IsNext;
    assert forall g :: !Holds(tx, g);
  }

  /** A stage that holds no more locks, and of which what it claims to know is true, keeps the invariant. */
  lemma StageValid(s: State, t: nat, stage: Stage)
    requires Valid(s) && t < |s.txs| && Active(s.txs[t])
    requires forall g :: Holds(s.txs[t].(stage := stage), g) ==> Holds(s.txs[t], g)
    requires Informed(s.table, s.txs[t].(stage := stage))
    ensures Valid(Moved(s, t, stage))
  {
    hide DistinctPlaces, IsNext, Informed, Holds;
    var after := Moved(s, t, stage);
    assert Locks(s.txs[t].(stage := stage)) == Locks(s.txs[t]);
    forall i, j, g | 0 <= i < |after.txs| && 0 <= j < |after.txs| && i != j && g in Locks(after.txs[i]) && Holds(after.txs[i], g)
      ensures !Holds(after.txs[j], g)
    {
      assert Holds(s.txs[i], g) && g in Locks(s.txs[i]);
    }
  }

  lemma ReadOrAbortValid(s: State, a: Action)
    requires Valid(s) && Enabled(s, a) && (a.Read? || a.Abort?)
    ensures Valid(Apply(s, a))
  {
    hide DistinctPlaces, IsNext, Locks, Exclusive, DistinctSubjects;
    var tx := s.txs[a.t];
    assert Informed(s.table, tx);
    var stage := if a.Read? then Ready(a.version) else Done;
    SameLocks(tx, stage);
    StageValid(s, a.t, stage);
  }

  lemma SameLocks(tx: Transaction, stage: Stage)
    ensures Locks(tx.(stage := stage)) == Locks(tx)
    ensures stage.Done? || (stage.Ready? && tx.stage == Acquiring(|Locks(tx)|)) ==> forall g :: Holds(tx.(stage := stage), g) ==> Holds(tx, g)
  {
    assert Locks(tx)[..|Locks(tx)|] == Locks(tx);
  }

  lemma ApplyValid(s: State, a: Action)
    requires Valid(s) && Enabled(s, a)
    ensures Valid(Apply(s, a))
  {
    hide Valid, Apply, Holds, IsNext, Locks;
    match a
    case Commit(t) => CommitValid(s, t);
    case Begin(tx) => BeginValid(s, tx);
    case Acquire(t) => AcquireValid(s, t);
    case Read(_, _) => ReadOrAbortValid(s, a);
    case Abort(_) => ReadOrAbortValid(s, a);
  }

  lemma AcquireValid(s: State, t: nat)
    requires Valid(s) && Enabled(s, Acquire(t))
    ensures Valid(Apply(s, Acquire(t)))
  {
    var tx, after := s.txs[t], Apply(s, Acquire(t));
    assert Informed(s.table, tx);
    assert forall g :: Holds(after.txs[t], g) <==> Holds(tx, g) || g == Awaited(tx);
  }

  /** In every interleaving, versions stay positive and distinct in every group. */
  lemma {:induction false} RunValid(s: State, actions: seq<Action>)
    requires Valid(s) && IsRun(s, actions)
    ensures Valid(Final(s, actions)) && DistinctPlaces(Final(s, actions).table)
    decreases |actions|
  {
    if actions != [] {
      ApplyValid(s, actions[0]);
      RunValid(Apply(s, actions[0]), actions[1..]);
    }
  }

  // ---------------------------------------------------------------- no deadlock

  /** `t` waits for a lock that `u` holds. */
  predicate WaitsFor(s: State, t: nat, u: nat)
    requires t < |s.txs| && u < |s.txs|
  {
    Waiting(s.txs[t]) && Holds(s.txs[u], Awaited(s.txs[t]))
  }

  /** Locks are taken in ascending type order within one scope, so a holder that itself waits
      waits for a later type. */
  lemma WaitAscends(s: State, t: nat, u: nat)
    requires Valid(s) && t < |s.txs| && u < |s.txs| && WaitsFor(s, t, u) && Waiting(s.txs[u])
    ensures Less(Awaited(s.txs[t]).docType, Awaited(s.txs[u]).docType)
  {
    var holder := s.txs[u];
    assert Active(holder) && Informed(s.table, holder);
    assert holder.stage.taken == 1 && Locks(holder)[..1] == [Locks(holder)[0]];
    if !Less(holder.source.docType, holder.target.docType) {
      LessTotal(holder.source.docType, holder.target.docType);
    }
  }

  /** Each member waits for a lock of the next one, and the last for a lock of the first. */
  predicate IsCycle(s: State, c: seq<nat>) {
    && c != []
    && (forall i :: 0 <= i < |c| ==> c[i] < |s.txs|)
    && (forall i :: 0 <= i < |c| ==> WaitsFor(s, c[i], c[if i + 1 < |c| then i + 1 else 0]))
  }

  function AwaitedType(t: Transaction): string {
    if Waiting(t) then Awaited(t).docType else ""
  }

  lemma {:induction false} ChainAscends(s: State, c: seq<nat>, n: nat)
    requires Valid(s) && IsCycle(s, c) && 0 < n < |c|
    ensures Less(AwaitedType(s.txs[c[0]]), AwaitedType(s.txs[c[n]]))
  {
    hide Valid, Holds, Locks, Awaited, Less;
    assert WaitsFor(s, c[n - 1], c[n]) && WaitsFor(s, c[n], c[if n + 1 < |c| then n + 1 else 0]);
    WaitAscends(s, c[n - 1], c[n]);
    if n > 1 {
      ChainAscends(s, c, n - 1);
      LessTransitive(AwaitedType(s.txs[c[0]]), AwaitedType(s.txs[c[n - 1]]), AwaitedType(s.txs[c[n]]));
    }
  }

  /** No reachable state has a cycle of transactions each waiting for a lock of the next. */
  lemma NoWaitCycle(s: State, actions: seq<Action>, c: seq<nat>)
    requires Valid(s) && IsRun(s, actions)
    ensures !IsCycle(Final(s, actions), c)
  {
    RunValid(s, actions);
    var now := Final(s, actions);
    hide Final, IsRun, Valid, Holds, Locks, Awaited, Less;
    if IsCycle(now, c) {
      var last := |c| - 1;
      assert WaitsFor(now, c[last], c[0]) && WaitsFor(now, c[0], c[if 1 < |c| then 1 else 0]);
      WaitAscends(now, c[last], c[0]);
      if last > 0 {
        ChainAscends(now, c, last);
        LessTransitive(AwaitedType(now.txs[c[0]]), AwaitedType(now.txs[c[last]]), AwaitedType(now.txs[c[0]]));
      }
      LessIrreflexive(AwaitedType(now.txs[c[0]]));
    }
  }

  /** The transactions that wait for a later type than `t` does. */
  function Later(s: State, t: nat): set<nat>
    requires t < |s.txs| && Waiting(s.txs[t])
  {
    set u | 0 <= u < |s.txs| && Waiting(s.txs[u]) && Less(Awaited(s.txs[t]).docType, Awaited(s.txs[u]).docType)
  }

  ghost function MaxPlaced(table: Table, g: Group): (v: nat)
    requires forall id :: id in table ==> table[id].version >= 1
    ensures IsNext(table, g, v)
    decreases table.Keys
  {
    if table == map[] then 1
    else
      var id :| id in table;
      var rest := map k | k in table && k != id :: table[k];
      assert rest.Keys == table.Keys - {id};
      assert forall k :: k in table ==> k == id || (k in rest && rest[k] == table[k]);
      var v := MaxPlaced(rest, g);
      if table[id].group != g || table[id].version < v then v
      else table[id].version + 1
  }

  /** The system never jams: while some transaction runs, one of them can go on. */
  lemma {:induction false} SomeoneCanGoOn(s: State, t: nat) returns (a: Action)
    requires Valid(s) && t < |s.txs| && Active(s.txs[t])
    ensures Enabled(s, a) && (a.Acquire? || a.Read? || a.Commit?)
    decreases if Waiting(s.txs[t]) then |Later(s, t)| + 1 else 0
  {
    var tx := s.txs[t];
    assert Informed(s.table, tx);
    if tx.stage.Ready? {
      return Commit(t);
    }
    if !Waiting(tx) {
      return Read(t, MaxPlaced(s.table, tx.target));
    }
    if forall u :: 0 <= u < |s.txs| && u != t ==> !Holds(s.txs[u], Awaited(tx)) {
      return Acquire(t);
    }
    var u :| 0 <= u < |s.txs| && u != t && Holds(s.txs[u], Awaited(tx));
    if Waiting(s.txs[u]) {
      WaitAscends(s, t, u);
      LaterShrinks(s, t, u);
    }
    a := SomeoneCanGoOn(s, u);
  }

  lemma LaterShrinks(s: State, t: nat, u: nat)
    requires t < |s.txs| && u < |s.txs| && Waiting(s.txs[t]) && Waiting(s.txs[u])
    requires Less(Awaited(s.txs[t]).docType, Awaited(s.txs[u]).docType)
    ensures |Later(s, u)| < |Later(s, t)|
  {
    forall k | k in Later(s, u)
      ensures k in Later(s, t)
    {
      LessTransitive(Awaited(s.txs[t]).docType, Awaited(s.txs[u]).docType, Awaited(s.txs[k]).docType);
    }
    LessIrreflexive(Awaited(s.txs[u]).docType);
    assert u in Later(s, t) && u !in Later(s, u);
    SubsetSmaller(Later(s, u), Later(s, t), u);
  }

  lemma SubsetSmaller(a: set<nat>, b: set<nat>, x: nat)
    requires a <= b && x in b && x !in a
    ensures |a| < |b|
  {
    SubsetSize(a, b - {x});
  }
}
