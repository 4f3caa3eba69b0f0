/** Archiving and restoring as functions on the five tables. A main project and its sub-projects are
    in the live tables or in the archive tables, never in both and never in neither. */
module Archive {
  import opened Wrappers
  import opened Text
  import opened Calendar
  import opened Snapshots
  import opened ArchiveRows
  import opened Sequences

  const RETENTION_DAYS := 730

  /** When an archive run started and finished. */
  datatype Clock = Clock(startedAt: int, finishedAt: int) {
    /** `_duration_ms`, from microseconds; never negative. */
    function DurationMs(): (ms: nat)
      ensures startedAt <= finishedAt ==> 1000 * ms <= finishedAt - startedAt < 1000 * ms + 1000
      ensures finishedAt < startedAt ==> ms == 0
    {
      if finishedAt <= startedAt then 0 else (finishedAt - startedAt) / 1000
    }
  }

  datatype Batch = Batch(id: Uuid, mainCount: nat, subCount: nat, durationMs: nat, startedAt: int, finishedAt: int)

  datatype ArchiveMain = ArchiveMain(
    id: Uuid, batchId: Uuid, originalId: Uuid, projectNo: string, name: string, status: string, closedAt: Option<DateTime>,
    snapshot: Snapshot, archivedAt: int, createdAt: int, updatedAt: int)

  datatype ArchiveSub = ArchiveSub(
    id: Uuid, batchId: Uuid, originalId: Uuid, originalMainId: Uuid, projectNo: string, name: string, status: string,
    closedAt: Option<DateTime>, snapshot: Snapshot, archivedAt: int, createdAt: int, updatedAt: int)

  datatype Tables = Tables(
    projects: seq<MainProject>, subs: seq<SubProject>, batches: seq<Batch>,
    archivedMains: seq<ArchiveMain>, archivedSubs: seq<ArchiveSub>)

  // ---------------------------------------------------------------- candidates

  /** Microseconds of a point in time on the UTC axis. */
  function Instant(t: DateTime): int
    requires ValidDate(t.date)
  {
    var minutes := (24 * Ordinal(t.date) + t.hour) * 60 + t.minute - (if t.offset.Some? then t.offset.value else 0);
    (60 * minutes + t.second) * 1_000_000 + t.microsecond
  }

  predicate TimeBefore(t: DateTime, u: DateTime) {
    DateBefore(t.date, u.date)
    || (t.date == u.date && (t.hour < u.hour || (t.hour == u.hour && (t.minute < u.minute || (t.minute == u.minute
        && (t.second < u.second || (t.second == u.second && t.microsecond < u.microsecond)))))))
  }

  /** In one zone, points in time are in the order of the date and the time of day. */
  lemma InstantIncreases(t: DateTime, u: DateTime)
    requires ValidDateTime(t) && ValidDateTime(u) && t.offset == u.offset
    ensures Instant(t) < Instant(u) <==> TimeBefore(t, u)
  {
    hide Ordinal;
    OrdinalIncreases(t.date, u.date);
    OrdinalIncreases(u.date, t.date);
  }

  /** The same local time `o` minutes east of UTC is `o` minutes earlier, a day later it is a day later, and
      a time without a zone is in UTC. Midnight of a date is as many days on as its ordinal says. */
  lemma InstantMeans(t: DateTime, o: int)
    requires ValidDateTime(t)
    ensures Instant(t.(offset := Some(o))) == Instant(t.(offset := None)) - o * 60_000_000
    ensures Instant(t.(date := NextDay(t.date))) == Instant(t) + DAY
    ensures Instant(DateTime(t.date, 0, 0, 0, 0, None)) == DAY * Ordinal(t.date)
  {
    hide Ordinal;
    NextDayMeans(t.date);
  }

  function ClosedInstant(p: MainProject): Option<int> {
    if p.closedAt.Some? && ValidDate(p.closedAt.value.date) then Some(Instant(p.closedAt.value)) else None
  }

  function Cutoff(now: int): int {
    now - RETENTION_DAYS * DAY
  }

  predicate HasActiveSub(subs: seq<SubProject>, mainId: Uuid) {
    exists s :: s in subs && s.mainId == mainId && s.status != Closed && s.status != Terminated
  }

  predicate Eligible(subs: seq<SubProject>, cutoff: int, p: MainProject) {
    && p.status == Closed
    && ClosedInstant(p).Some? && ClosedInstant(p).value <= cutoff
    && !HasActiveSub(subs, p.id)
  }

  function IsCandidate(subs: seq<SubProject>, cutoff: int): MainProject -> bool {
    (p: MainProject) => Eligible(subs, cutoff, p)
  }

  predicate ClosedOrder(p: MainProject, q: MainProject) {
    var a := if ClosedInstant(p).Some? then ClosedInstant(p).value else 0;
    var b := if ClosedInstant(q).Some? then ClosedInstant(q).value else 0;
    a < b || (a == b && AtMost(p.projectNo, q.projectNo))
  }

  function Candidates(t: Tables, cutoff: int): seq<MainProject> {
    SortBy(ClosedOrder, Filter(IsCandidate(t.subs, cutoff), t.projects))
  }

  function MainIds(ps: seq<MainProject>): seq<Uuid> {
    Map(MainId, ps)
  }

  function BelongsTo(ids: seq<Uuid>): SubProject -> bool {
    (s: SubProject) => s.mainId in ids
  }

  function BelongsToNone(ids: seq<Uuid>): SubProject -> bool {
    (s: SubProject) => s.mainId !in ids
  }

  function NotListed(ids: seq<Uuid>): MainProject -> bool {
    (p: MainProject) => p.id !in ids
  }

  predicate SubOrder(a: SubProject, b: SubProject) {
    AtMost(a.projectNo, b.projectNo)
  }

  function SubsOf(t: Tables, ids: seq<Uuid>): seq<SubProject> {
    SortBy(SubOrder, Filter(BelongsTo(ids), t.subs))
  }

  // ---------------------------------------------------------------- the two operations

  /** The archive row of a main project; `id` and `batchId` are generated. */
  function NewArchiveMain(id: Uuid, batchId: Uuid, at: int, p: MainProject): ArchiveMain {
    ArchiveMain(id, batchId, p.id, p.projectNo, p.name, StatusText(p.status), p.closedAt, SerializeMain(p), at, at, at)
  }

  function NewArchiveSub(id: Uuid, batchId: Uuid, at: int, s: SubProject): ArchiveSub {
    ArchiveSub(id, batchId, s.id, s.mainId, s.projectNo, s.name, StatusText(s.status), s.closedAt, SerializeSub(s), at, at, at)
  }

  function NewArchiveMains(ids: seq<Uuid>, batchId: Uuid, at: int, ps: seq<MainProject>): (rows: seq<ArchiveMain>)
    requires |ids| == |ps|
    ensures |rows| == |ps| && forall i :: 0 <= i < |ps| ==> rows[i] == NewArchiveMain(ids[i], batchId, at, ps[i])
  {
    seq(|ps|, i requires 0 <= i < |ps| => NewArchiveMain(ids[i], batchId, at, ps[i]))
  }

  function NewArchiveSubs(ids: seq<Uuid>, batchId: Uuid, at: int, ss: seq<SubProject>): (rows: seq<ArchiveSub>)
    requires |ids| == |ss|
    ensures |rows| == |ss| && forall i :: 0 <= i < |ss| ==> rows[i] == NewArchiveSub(ids[i], batchId, at, ss[i])
  {
    seq(|ss|, i requires 0 <= i < |ss| => NewArchiveSub(ids[i], batchId, at, ss[i]))
  }

  /** Identifiers drawn for one archive run: the batch, its main rows, its sub rows. */
  datatype NewIds = NewIds(batch: Uuid, mains: seq<Uuid>, subs: seq<Uuid>)

  predicate Fits(t: Tables, cutoff: int, ids: NewIds) {
    && |ids.mains| == |Candidates(t, cutoff)|
    && |ids.subs| == |SubsOf(t, MainIds(Candidates(t, cutoff)))|
  }

  function Archived(t: Tables, cutoff: int, ids: NewIds, clock: Clock): Tables
    requires Fits(t, cutoff, ids)
  {
    var ps := Candidates(t, cutoff);
    var ss := SubsOf(t, MainIds(ps));
    Tables(Filter(NotListed(MainIds(ps)), t.projects), Filter(BelongsToNone(MainIds(ps)), t.subs),
           t.batches + [Batch(ids.batch, |ps|, |ss|, clock.DurationMs(), clock.startedAt, clock.finishedAt)],
           t.archivedMains + NewArchiveMains(ids.mains, ids.batch, clock.finishedAt, ps),
           t.archivedSubs + NewArchiveSubs(ids.subs, ids.batch, clock.finishedAt, ss))
  }

  function HasId(id: Uuid): ArchiveMain -> bool {
    (a: ArchiveMain) => a.id == id
  }

  function HasOtherId(id: Uuid): ArchiveMain -> bool {
    (a: ArchiveMain) => a.id != id
  }

  function ArchivedWith(main: ArchiveMain): ArchiveSub -> bool {
    (a: ArchiveSub) => a.batchId == main.batchId && a.originalMainId == main.originalId
  }

  predicate ArchiveSubOrder(a: ArchiveSub, b: ArchiveSub) {
    AtMost(a.projectNo, b.projectNo)
  }

  function SubArchives(t: Tables, main: ArchiveMain): seq<ArchiveSub> {
    SortBy(ArchiveSubOrder, Filter(ArchivedWith(main), t.archivedSubs))
  }

  function SubIds(rows: seq<ArchiveSub>): seq<Uuid> {
    Map(SubKey, rows)
  }

  function NotAmong(ids: seq<Uuid>): ArchiveSub -> bool {
    (a: ArchiveSub) => a.id !in ids
  }

  predicate MainNumberTaken(t: Tables, number: string) {
    exists p :: p in t.projects && p.projectNo == number
  }

  predicate SubNumberTaken(t: Tables, rows: seq<ArchiveSub>) {
    exists s, a :: s in t.subs && a in rows && s.projectNo == a.projectNo
  }

  function ParseSubs(rows: seq<ArchiveSub>): (r: Option<seq<SubProject>>)
    ensures r.Some? ==> |r.value| == |rows| && forall i :: 0 <= i < |rows| ==> SubFromSnapshot(rows[i].snapshot) == Some(r.value[i])
    ensures r.None? ==> exists i :: 0 <= i < |rows| && SubFromSnapshot(rows[i].snapshot).None?
  {
    if rows == [] then Some([])
    else
      var first :- SubFromSnapshot(rows[0].snapshot);
      var rest :- ParseSubs(rows[1..]);
      Some([first] + rest)
  }

  /** What a restore puts back: the main project and its sub-projects. */
  function Unpack(t: Tables, id: Uuid): Result<(ArchiveMain, MainProject, seq<SubProject>)> {
    match FirstIndex(t.archivedMains, HasId(id))
    case None => Failure(NotFound)
    case Some(i) =>
      var main := t.archivedMains[i];
      var rows := SubArchives(t, main);
      if MainNumberTaken(t, main.projectNo) || SubNumberTaken(t, rows) then Failure(Conflict)
      else
        match (MainFromSnapshot(main.snapshot), ParseSubs(rows))
        case (Some(p), Some(ss)) => Success((main, p, ss))
        case _ => Failure(ValueError)
  }

  function Restored(t: Tables, id: Uuid): Result<Tables> {
    match Unpack(t, id)
    case Failure(e) => Failure(e)
    case Success((main, p, ss)) =>
      Success(Tables(t.projects + [p], t.subs + ss, t.batches, Filter(HasOtherId(id), t.archivedMains),
                     Filter(NotAmong(SubIds(SubArchives(t, main))), t.archivedSubs)))
  }

  // ---------------------------------------------------------------- what is conserved

  /** A main project wherever it is stored: its key columns and the row that a restore would give. */
  datatype MainEntry = MainEntry(id: Uuid, projectNo: string, row: Option<MainProject>)

  datatype SubEntry = SubEntry(id: Uuid, mainId: Uuid, projectNo: string, row: Option<SubProject>)

  function LiveMain(p: MainProject): MainEntry {
    MainEntry(p.id, p.projectNo, Some(RestoredMain(p)))
  }

  function StoredMain(a: ArchiveMain): MainEntry {
    MainEntry(a.originalId, a.projectNo, MainFromSnapshot(a.snapshot))
  }

  function LiveSub(s: SubProject): SubEntry {
    SubEntry(s.id, s.mainId, s.projectNo, Some(RestoredSub(s)))
  }

  function StoredSub(a: ArchiveSub): SubEntry {
    SubEntry(a.originalId, a.originalMainId, a.projectNo, SubFromSnapshot(a.snapshot))
  }

  ghost function MainBag(t: Tables): multiset<MainEntry> {
    multiset(Map(LiveMain, t.projects)) + multiset(Map(StoredMain, t.archivedMains))
  }

  ghost function SubBag(t: Tables): multiset<SubEntry> {
    multiset(Map(LiveSub, t.subs)) + multiset(Map(StoredSub, t.archivedSubs))
  }

  /** Every main project is stored once, under its own id, with a snapshot that can be read back. */
  ghost predicate SoundMains(bag: multiset<MainEntry>) {
    && (forall e :: e in bag ==> bag[e] == 1 && e.row.Some? && StorableMain(e.row.value) && LiveMain(e.row.value) == e)
    && (forall e, f :: e in bag && f in bag && e.id == f.id ==> e == f)
  }

  ghost predicate SoundSubs(bag: multiset<SubEntry>) {
    && (forall e :: e in bag ==> bag[e] == 1 && e.row.Some? && StorableSub(e.row.value) && LiveSub(e.row.value) == e)
    && (forall e, f :: e in bag && f in bag && e.id == f.id ==> e == f)
    && (forall e, f :: e in bag && f in bag && e.mainId == f.mainId && e.projectNo == f.projectNo ==> e == f)
  }

  ghost predicate HasProject(ps: seq<MainProject>, id: Uuid) {
    exists p :: p in ps && p.id == id
  }

  ghost predicate HasArchive(rows: seq<ArchiveMain>, batchId: Uuid, originalId: Uuid) {
    exists a :: a in rows && a.batchId == batchId && a.originalId == originalId
  }

  /** Sub-projects are where their main project is: live, or archived in the same batch. */
  ghost predicate Together(t: Tables) {
    && (forall s :: s in t.subs ==> HasProject(t.projects, s.mainId))
    && (forall a :: a in t.archivedSubs ==> HasArchive(t.archivedMains, a.batchId, a.originalMainId))
  }

  function MainKey(a: ArchiveMain): Uuid { a.id }

  function SubKey(a: ArchiveSub): Uuid { a.id }

  function MainNumber(p: MainProject): string { p.projectNo }

  function SubNumber(s: SubProject): string { s.projectNo }

  function MainId(p: MainProject): Uuid { p.id }

  /** The primary keys of the archive tables. */
  predicate DistinctArchiveIds(t: Tables) {
    DistinctBy(MainKey, t.archivedMains) && DistinctBy(SubKey, t.archivedSubs)
  }

  /** The unique indexes on the live project numbers. */
  predicate DistinctNumbers(t: Tables) {
    DistinctBy(MainNumber, t.projects) && DistinctBy(SubNumber, t.subs)
  }

  ghost predicate Valid(t: Tables) {
    SoundMains(MainBag(t)) && SoundSubs(SubBag(t)) && Together(t) && DistinctArchiveIds(t) && DistinctNumbers(t)
  }

  /** Generated identifiers are pairwise different and not in use. */
  ghost predicate Fresh(t: Tables, ids: NewIds) {
    && (forall i, j :: 0 <= i < j < |ids.mains| ==> ids.mains[i] != ids.mains[j])
    && (forall i, j :: 0 <= i < j < |ids.subs| ==> ids.subs[i] != ids.subs[j])
    && (forall a :: a in t.archivedMains ==> a.id !in ids.mains)
    && (forall a :: a in t.archivedSubs ==> a.id !in ids.subs)
  }

  // ---------------------------------------------------------------- one table or the other

  lemma LiveEntrySound(t: Tables, p: MainProject)
    requires SoundMains(MainBag(t)) && p in t.projects
    ensures LiveMain(p) in MainBag(t) && StorableMain(p)
  {
    hide StorableMain;
    MapMember(LiveMain, t.projects, p);
    StorableWithoutType(p);
  }

  lemma StorableWithoutType(p: MainProject)
    ensures StorableMain(p) <==> StorableMain(RestoredMain(p))
  {
  }

  lemma StorableWithoutVersion(s: SubProject)
    ensures StorableSub(s) <==> StorableSub(RestoredSub(s))
  {
  }

  lemma LiveIdsDistinct(t: Tables)
    requires SoundMains(MainBag(t))
    ensures DistinctBy(MainId, t.projects)
  {
    hide StorableMain, RestoredMain;
    forall i, j | 0 <= i < j < |t.projects|
      ensures t.projects[i].id != t.projects[j].id
    {
      if t.projects[i].id == t.projects[j].id {
        LiveEntrySound(t, t.projects[i]);
        LiveEntrySound(t, t.projects[j]);
        CountTwice(Map(LiveMain, t.projects), i, j);
      }
    }
  }

  lemma NotBoth(t: Tables, p: MainProject, a: ArchiveMain)
    requires SoundMains(MainBag(t)) && p in t.projects && a in t.archivedMains
    ensures p.id != a.originalId
  {
    hide StorableMain, RestoredMain, MainFromSnapshot;
    LiveEntrySound(t, p);
    MapMember(LiveMain, t.projects, p);
    MapMember(StoredMain, t.archivedMains, a);
    assert LiveMain(p) == StoredMain(a) ==> MainBag(t)[LiveMain(p)] >= 2;
  }

  /** Every main project is in exactly one of the two tables. */
  lemma InExactlyOneTable(t: Tables, e: MainEntry)
    requires SoundMains(MainBag(t)) && e in MainBag(t)
    ensures HasProject(t.projects, e.id) <==> !exists a :: a in t.archivedMains && a.originalId == e.id
  {
    if e in multiset(Map(LiveMain, t.projects)) {
      var p := MapOrigin(LiveMain, t.projects, e);
      forall a | a in t.archivedMains
        ensures a.originalId != e.id
      {
        NotBoth(t, p, a);
      }
    } else {
      var a := MapOrigin(StoredMain, t.archivedMains, e);
      forall p | p in t.projects
        ensures p.id != e.id
      {
        NotBoth(t, p, a);
      }
    }
  }

  // ---------------------------------------------------------------- an archive run

  lemma CandidateIds(t: Tables, cutoff: int)
    requires SoundMains(MainBag(t))
    ensures forall p :: p in Candidates(t, cutoff) <==> p in t.projects && Eligible(t.subs, cutoff, p)
    ensures forall p :: p in t.projects ==> (p.id in MainIds(Candidates(t, cutoff)) <==> Eligible(t.subs, cutoff, p))
  {
    hide Eligible, ClosedOrder, RestoredMain;
    var chosen := Filter(IsCandidate(t.subs, cutoff), t.projects);
    var ps := Candidates(t, cutoff);
    SortMembers(ClosedOrder, chosen);
    LiveIdsDistinct(t);
    forall p | p in t.projects
      ensures p.id in MainIds(ps) <==> Eligible(t.subs, cutoff, p)
    {
      if p in ps {
        MapMember(MainId, ps, p);
      }
      if p.id in MainIds(ps) {
        var c := MapOrigin(MainId, ps, p.id);
        DistinctMember(MainId, t.projects, p, c);
      }
    }
  }

  lemma StoredAsLive(id: Uuid, batchId: Uuid, at: int, p: MainProject)
    requires StorableMain(p)
    ensures StoredMain(NewArchiveMain(id, batchId, at, p)) == LiveMain(p)
  {
    MainRoundTrip(p);
  }

  lemma StoredSubAsLive(id: Uuid, batchId: Uuid, at: int, s: SubProject)
    requires StorableSub(s)
    ensures StoredSub(NewArchiveSub(id, batchId, at, s)) == LiveSub(s)
  {
    SubRoundTrip(s);
  }

  lemma NewMainsAsLive(ids: seq<Uuid>, batchId: Uuid, at: int, ps: seq<MainProject>)
    requires |ids| == |ps| && forall p :: p in ps ==> StorableMain(p)
    ensures Map(StoredMain, NewArchiveMains(ids, batchId, at, ps)) == Map(LiveMain, ps)
  {
    hide StoredMain, LiveMain, StorableMain, NewArchiveMain;
    forall i | 0 <= i < |ps|
      ensures StoredMain(NewArchiveMain(ids[i], batchId, at, ps[i])) == LiveMain(ps[i])
    {
      StoredAsLive(ids[i], batchId, at, ps[i]);
    }
  }

  lemma NewSubsAsLive(ids: seq<Uuid>, batchId: Uuid, at: int, ss: seq<SubProject>)
    requires |ids| == |ss| && forall s :: s in ss ==> StorableSub(s)
    ensures Map(StoredSub, NewArchiveSubs(ids, batchId, at, ss)) == Map(LiveSub, ss)
  {
    hide StoredSub, LiveSub, StorableSub, NewArchiveSub;
    forall i | 0 <= i < |ss|
      ensures StoredSub(NewArchiveSub(ids[i], batchId, at, ss[i])) == LiveSub(ss[i])
    {
      StoredSubAsLive(ids[i], batchId, at, ss[i]);
    }
  }

  lemma ArchivedMainBag(t: Tables, cutoff: int, ids: NewIds, clock: Clock)
    requires SoundMains(MainBag(t)) && Fits(t, cutoff, ids)
    ensures MainBag(Archived(t, cutoff, ids, clock)) == MainBag(t)
  {
    hide LiveMain, StoredMain, Filter, Map, SortBy, SoundMains, StorableMain, ClosedOrder, Eligible, NewArchiveMains;
    var ps := Candidates(t, cutoff);
    var chosen := Filter(IsCandidate(t.subs, cutoff), t.projects);
    CandidateIds(t, cutoff);
    forall p | p in ps
      ensures StorableMain(p)
    {
      LiveEntrySound(t, p);
    }
    MapSplitBag(LiveMain, IsCandidate(t.subs, cutoff), NotListed(MainIds(ps)), t.projects);
    MapSortBag(LiveMain, ClosedOrder, chosen);
    NewMainsAsLive(ids.mains, ids.batch, clock.finishedAt, ps);
    MapConcat(StoredMain, t.archivedMains, NewArchiveMains(ids.mains, ids.batch, clock.finishedAt, ps));
  }

  lemma LiveSubSound(t: Tables, s: SubProject)
    requires SoundSubs(SubBag(t)) && s in t.subs
    ensures LiveSub(s) in SubBag(t) && StorableSub(s)
  {
    hide StorableSub;
    MapMember(LiveSub, t.subs, s);
    StorableWithoutVersion(s);
  }

  lemma ArchivedSubBag(t: Tables, cutoff: int, ids: NewIds, clock: Clock)
    requires SoundSubs(SubBag(t)) && Fits(t, cutoff, ids)
    ensures SubBag(Archived(t, cutoff, ids, clock)) == SubBag(t)
  {
    hide LiveSub, StoredSub, Filter, Map, SortBy, SoundSubs, StorableSub, SubOrder, Candidates, NewArchiveSubs;
    var listed := MainIds(Candidates(t, cutoff));
    var chosen := Filter(BelongsTo(listed), t.subs);
    SortMembers(SubOrder, chosen);
    forall s | s in SubsOf(t, listed)
      ensures StorableSub(s)
    {
      LiveSubSound(t, s);
    }
    MapSplitBag(LiveSub, BelongsTo(listed), BelongsToNone(listed), t.subs);
    MapSortBag(LiveSub, SubOrder, chosen);
    NewSubsAsLive(ids.subs, ids.batch, clock.finishedAt, SubsOf(t, listed));
    MapConcat(StoredSub, t.archivedSubs, NewArchiveSubs(ids.subs, ids.batch, clock.finishedAt, SubsOf(t, listed)));
  }

  lemma ArchivedTogether(t: Tables, cutoff: int, ids: NewIds, clock: Clock)
    requires Valid(t) && Fits(t, cutoff, ids)
    ensures Together(Archived(t, cutoff, ids, clock))
  {
    hide Map, SortBy, SoundSubs, SoundMains, DistinctArchiveIds, DistinctNumbers, SubOrder, ClosedOrder, Eligible, SerializeMain, SerializeSub;
    var r := Archived(t, cutoff, ids, clock);
    var ps := Candidates(t, cutoff);
    var listed := MainIds(ps);
    forall s | s in r.subs
      ensures HasProject(r.projects, s.mainId)
    {
      var p :| p in t.projects && p.id == s.mainId;
      assert p in r.projects;
    }
    forall a | a in r.archivedSubs
      ensures HasArchive(r.archivedMains, a.batchId, a.originalMainId)
    {
      if a in t.archivedSubs {
        var m :| m in t.archivedMains && m.batchId == a.batchId && m.originalId == a.originalMainId;
        assert m in r.archivedMains;
      } else {
        SortMembers(SubOrder, Filter(BelongsTo(listed), t.subs));
        assert a.originalMainId in listed && a.batchId == ids.batch;
        NewArchiveOf(t, ps, ids, clock, a.originalMainId);
        var m :| m in NewArchiveMains(ids.mains, ids.batch, clock.finishedAt, ps) && m.batchId == a.batchId && m.originalId == a.originalMainId;
        assert m in r.archivedMains;
      }
    }
  }

  lemma NewArchiveOf(t: Tables, ps: seq<MainProject>, ids: NewIds, clock: Clock, id: Uuid)
    requires |ids.mains| == |ps| && id in MainIds(ps)
    ensures HasArchive(NewArchiveMains(ids.mains, ids.batch, clock.finishedAt, ps), ids.batch, id)
  {
    hide SerializeMain;
    var i :| 0 <= i < |ps| && MainIds(ps)[i] == id;
    assert NewArchiveMains(ids.mains, ids.batch, clock.finishedAt, ps)[i].originalId == id;
  }

  lemma ArchivedDistinct(t: Tables, cutoff: int, ids: NewIds, clock: Clock)
    requires DistinctArchiveIds(t) && DistinctNumbers(t) && Fits(t, cutoff, ids) && Fresh(t, ids)
    ensures DistinctArchiveIds(Archived(t, cutoff, ids, clock)) && DistinctNumbers(Archived(t, cutoff, ids, clock))
  {
    hide Filter, Map, SortBy, SerializeMain, SerializeSub;
    var listed := MainIds(Candidates(t, cutoff));
    DistinctFilter(MainNumber, NotListed(listed), t.projects);
    DistinctFilter(SubNumber, BelongsToNone(listed), t.subs);
  }

  /** An archive run keeps the invariant and loses nothing. */
  lemma ArchivedValid(t: Tables, cutoff: int, ids: NewIds, clock: Clock)
    requires Valid(t) && Fits(t, cutoff, ids) && Fresh(t, ids)
    ensures Valid(Archived(t, cutoff, ids, clock))
    ensures MainBag(Archived(t, cutoff, ids, clock)) == MainBag(t)
    ensures SubBag(Archived(t, cutoff, ids, clock)) == SubBag(t)
  {
    hide SoundMains, SoundSubs, MainBag, SubBag, Together, DistinctArchiveIds, DistinctNumbers, Archived;
    ArchivedMainBag(t, cutoff, ids, clock);
    ArchivedSubBag(t, cutoff, ids, clock);
    ArchivedTogether(t, cutoff, ids, clock);
    ArchivedDistinct(t, cutoff, ids, clock);
  }

  /** The live tables keep exactly the main projects that are not eligible, with all their sub-projects, in order. */
  lemma ArchivedLeaves(t: Tables, cutoff: int, ids: NewIds, clock: Clock)
    requires Valid(t) && Fits(t, cutoff, ids)
    ensures forall p :: p in Archived(t, cutoff, ids, clock).projects <==> p in t.projects && !Eligible(t.subs, cutoff, p)
    ensures forall p, s :: p in t.projects && s in t.subs && s.mainId == p.id ==>
      (s in Archived(t, cutoff, ids, clock).subs <==> !Eligible(t.subs, cutoff, p))
  {
    hide Map, SortBy, SoundSubs, SoundMains, DistinctArchiveIds, DistinctNumbers, SubOrder, ClosedOrder, Eligible, SerializeMain, SerializeSub;
    CandidateIds(t, cutoff);
  }

  /** The archive row of a project: its own columns, and a snapshot from which it can be read back. */
  predicate IsMainRow(a: ArchiveMain, p: MainProject, batchId: Uuid, at: int) {
    && a.batchId == batchId && a.originalId == p.id && a.projectNo == p.projectNo && a.name == p.name
    && a.status == StatusText(p.status) && a.closedAt == p.closedAt && a.archivedAt == a.createdAt == a.updatedAt == at
    && MainFromSnapshot(a.snapshot) == Some(p.(projectTypeId := None))
  }

  predicate IsSubRow(a: ArchiveSub, s: SubProject, batchId: Uuid, at: int) {
    && a.batchId == batchId && a.originalId == s.id && a.originalMainId == s.mainId && a.projectNo == s.projectNo && a.name == s.name
    && a.status == StatusText(s.status) && a.closedAt == s.closedAt && a.archivedAt == a.createdAt == a.updatedAt == at
    && SubFromSnapshot(a.snapshot) == Some(s.(workflowTemplateVersionId := None))
  }

  /** Closed for at least 730 days, with no sub-project that is still open. */
  ghost predicate LongClosed(t: Tables, startedAt: int, p: MainProject) {
    && p.status == Closed
    && p.closedAt.Some? && ValidDate(p.closedAt.value.date) && startedAt - Instant(p.closedAt.value) >= 730 * DAY
    && forall s :: s in t.subs && s.mainId == p.id ==> s.status == Closed || s.status == Terminated
  }

  /** What an archive run moves: the long closed projects, each with its sub-projects, every row into an
      archive row of its own. */
  ghost predicate MovesLongClosed(t: Tables, u: Tables, clock: Clock, batchId: Uuid) {
    && (forall p :: p in u.projects <==> p in t.projects && !LongClosed(t, clock.startedAt, p))
    && (forall p, s :: p in t.projects && s in t.subs && s.mainId == p.id ==> (s in u.subs <==> p in u.projects))
    && (forall s :: s in u.subs ==> s in t.subs)
    && (forall p :: p in t.projects && p !in u.projects ==> exists a :: a in u.archivedMains && IsMainRow(a, p, batchId, clock.finishedAt))
    && (forall s :: s in t.subs && s !in u.subs ==> exists a :: a in u.archivedSubs && IsSubRow(a, s, batchId, clock.finishedAt))
    && |u.projects| + |u.archivedMains| == |t.projects| + |t.archivedMains| && |u.subs| + |u.archivedSubs| == |t.subs| + |t.archivedSubs|
    && t.archivedMains <= u.archivedMains && t.archivedSubs <= u.archivedSubs
  }

  lemma EligibleMeans(t: Tables, startedAt: int, p: MainProject)
    ensures Eligible(t.subs, Cutoff(startedAt), p) <==> LongClosed(t, startedAt, p)
  {
    hide Instant;
  }

  lemma ArchivedMoves(t: Tables, ids: NewIds, clock: Clock)
    requires Valid(t) && Fits(t, Cutoff(clock.startedAt), ids)
    ensures MovesLongClosed(t, Archived(t, Cutoff(clock.startedAt), ids, clock), clock, ids.batch)
  {
    hide Valid, Archived, Eligible, LongClosed, Candidates, SubsOf, MainIds, Fits, StatusText, MainFromSnapshot, SubFromSnapshot;
    var cutoff := Cutoff(clock.startedAt);
    var u := Archived(t, cutoff, ids, clock);
    forall p
      ensures Eligible(t.subs, cutoff, p) <==> LongClosed(t, clock.startedAt, p)
    {
      EligibleMeans(t, clock.startedAt, p);
    }
    ArchivedLeaves(t, cutoff, ids, clock);
    ArchivedCounts(t, cutoff, ids, clock);
    ArchivedGrow(t, cutoff, ids, clock);
    forall p | p in t.projects && p !in u.projects
      ensures exists a :: a in u.archivedMains && IsMainRow(a, p, ids.batch, clock.finishedAt)
    {
      var a := MainRow(t, cutoff, ids, clock, p);
    }
    forall s | s in t.subs && s !in u.subs
      ensures exists a :: a in u.archivedSubs && IsSubRow(a, s, ids.batch, clock.finishedAt)
    {
      var a := SubRow(t, cutoff, ids, clock, s);
    }
  }

  lemma ArchivedGrow(t: Tables, cutoff: int, ids: NewIds, clock: Clock)
    requires Fits(t, cutoff, ids)
    ensures var u := Archived(t, cutoff, ids, clock);
      && t.archivedMains <= u.archivedMains && |u.archivedMains| == |t.archivedMains| + |Candidates(t, cutoff)|
      && t.archivedSubs <= u.archivedSubs && |u.archivedSubs| == |t.archivedSubs| + |SubsOf(t, MainIds(Candidates(t, cutoff)))|
      && forall s :: s in u.subs ==> s in t.subs
  {
    hide Candidates, SubsOf, SerializeMain, SerializeSub, StatusText;
  }

  lemma MainRow(t: Tables, cutoff: int, ids: NewIds, clock: Clock, p: MainProject) returns (a: ArchiveMain)
    requires Valid(t) && Fits(t, cutoff, ids) && p in t.projects && Eligible(t.subs, cutoff, p)
    ensures a in Archived(t, cutoff, ids, clock).archivedMains && IsMainRow(a, p, ids.batch, clock.finishedAt)
  {
    hide Eligible, SubsOf, SerializeMain, SerializeSub, StatusText, StorableMain, MainFromSnapshot, Candidates, Valid;
    var ps := Candidates(t, cutoff);
    SoundOfValid(t);
    CandidateIds(t, cutoff);
    LiveEntrySound(t, p);
    MainRoundTrip(p);
    var i :| 0 <= i < |ps| && ps[i] == p;
    a := NewArchiveMains(ids.mains, ids.batch, clock.finishedAt, ps)[i];
  }

  lemma SubRow(t: Tables, cutoff: int, ids: NewIds, clock: Clock, s: SubProject) returns (a: ArchiveSub)
    requires Valid(t) && Fits(t, cutoff, ids) && s in t.subs && s !in Archived(t, cutoff, ids, clock).subs
    ensures a in Archived(t, cutoff, ids, clock).archivedSubs && IsSubRow(a, s, ids.batch, clock.finishedAt)
  {
    hide Eligible, SerializeMain, SerializeSub, StatusText, StorableSub, SubFromSnapshot, Candidates, SortBy, SoundMains, SoundSubs, Together,
      DistinctArchiveIds, DistinctNumbers;
    var listed := MainIds(Candidates(t, cutoff));
    var ss := SubsOf(t, listed);
    LiveSubSound(t, s);
    SubRoundTrip(s);
    SortMembers(SubOrder, Filter(BelongsTo(listed), t.subs));
    assert s in ss;
    var i :| 0 <= i < |ss| && ss[i] == s;
    a := NewArchiveSubs(ids.subs, ids.batch, clock.finishedAt, ss)[i];
  }

  /** The live table shrinks by exactly the number of projects that the batch reports. */
  lemma ArchivedCounts(t: Tables, cutoff: int, ids: NewIds, clock: Clock)
    requires Valid(t) && Fits(t, cutoff, ids)
    ensures var r := Archived(t, cutoff, ids, clock);
      && |r.projects| == |t.projects| - |Candidates(t, cutoff)|
      && |r.subs| == |t.subs| - |SubsOf(t, MainIds(Candidates(t, cutoff)))|
  {
    hide Valid, Filter, Map, SortBy, Eligible, ClosedOrder, SubOrder;
    var listed := MainIds(Candidates(t, cutoff));
    assert SoundMains(MainBag(t)) by { SoundOfValid(t); }
    CandidateIds(t, cutoff);
    SplitBag(IsCandidate(t.subs, cutoff), NotListed(listed), t.projects);
    SplitBag(BelongsTo(listed), BelongsToNone(listed), t.subs);
    SortMembers(ClosedOrder, Filter(IsCandidate(t.subs, cutoff), t.projects));
    SortMembers(SubOrder, Filter(BelongsTo(listed), t.subs));
    SizeOfBag(t.projects, Filter(IsCandidate(t.subs, cutoff), t.projects), Filter(NotListed(listed), t.projects));
    SizeOfBag(t.subs, Filter(BelongsTo(listed), t.subs), Filter(BelongsToNone(listed), t.subs));
  }

  lemma SoundOfValid(t: Tables)
    requires Valid(t)
    ensures SoundMains(MainBag(t))
  {
  }

  // ---------------------------------------------------------------- a restore

  lemma StoredEntrySound(t: Tables, a: ArchiveMain)
    requires SoundMains(MainBag(t)) && a in t.archivedMains
    ensures MainFromSnapshot(a.snapshot).Some? && LiveMain(MainFromSnapshot(a.snapshot).value) == StoredMain(a)
  {
    hide StorableMain, MainFromSnapshot;
    MapMember(StoredMain, t.archivedMains, a);
    assert StoredMain(a) in MainBag(t);
  }

  lemma StoredSubSound(t: Tables, a: ArchiveSub)
    requires SoundSubs(SubBag(t)) && a in t.archivedSubs
    ensures StoredSub(a) in SubBag(t)
    ensures SubFromSnapshot(a.snapshot).Some? && LiveSub(SubFromSnapshot(a.snapshot).value) == StoredSub(a)
  {
    hide StorableSub, SubFromSnapshot;
    MapMember(StoredSub, t.archivedSubs, a);
    assert StoredSub(a) in SubBag(t);
  }

  lemma SubArchivesMembers(t: Tables, main: ArchiveMain)
    ensures forall a :: a in SubArchives(t, main) <==> a in t.archivedSubs && a.batchId == main.batchId && a.originalMainId == main.originalId
  {
    hide ArchiveSubOrder;
    SortMembers(ArchiveSubOrder, Filter(ArchivedWith(main), t.archivedSubs));
  }

  /** In a valid state only a missing archive row or a taken project number stops a restore. */
  lemma RestoreSucceeds(t: Tables, id: Uuid)
    requires Valid(t)
    ensures Restored(t, id).Success? <==>
      exists a :: (a in t.archivedMains && a.id == id
        && !MainNumberTaken(t, a.projectNo) && !SubNumberTaken(t, SubArchives(t, a)))
  {
    hide MainFromSnapshot, SubFromSnapshot, SubArchives, LiveMain, StoredMain, LiveSub, StoredSub, MainNumberTaken, SubNumberTaken;
    match FirstIndex(t.archivedMains, HasId(id)) {
      case None =>
        assert forall a :: a in t.archivedMains ==> !HasId(id)(a);
      case Some(i) =>
        var main := t.archivedMains[i];
        forall a | a in t.archivedMains && a.id == id
          ensures a == main
        {
          DistinctMember(MainKey, t.archivedMains, a, main);
        }
        StoredEntrySound(t, main);
        SubArchivesMembers(t, main);
        forall a | a in SubArchives(t, main)
          ensures SubFromSnapshot(a.snapshot).Some?
        {
          StoredSubSound(t, a);
        }
    }
  }

  /** No live row has the number of the archived project or of one of its sub-projects. */
  ghost predicate NumbersFree(t: Tables, a: ArchiveMain) {
    && (forall p :: p in t.projects ==> p.projectNo != a.projectNo)
    && forall s, b :: s in t.subs && b in t.archivedSubs && b.batchId == a.batchId && b.originalMainId == a.originalId ==>
      s.projectNo != b.projectNo
  }

  lemma FreeMeans(t: Tables, a: ArchiveMain)
    ensures NumbersFree(t, a) <==> !MainNumberTaken(t, a.projectNo) && !SubNumberTaken(t, SubArchives(t, a))
  {
    hide SubArchives;
    SubArchivesMembers(t, a);
  }

  /** The archived project is live again as its snapshot says, with all its sub-projects, and their archive
      rows, no others, are gone. */
  ghost predicate BringsBack(t: Tables, u: Tables, a: ArchiveMain, p: MainProject) {
    && MainFromSnapshot(a.snapshot) == Some(p) && u.projects == t.projects + [p] && u.batches == t.batches
    && (forall x :: x in u.archivedMains <==> x in t.archivedMains && x.id != a.id)
    && (forall x :: x in u.archivedSubs <==> x in t.archivedSubs && !(x.batchId == a.batchId && x.originalMainId == a.originalId))
    && t.subs <= u.subs
    && forall s :: s in u.subs[|t.subs|..] <==>
      exists x :: x in t.archivedSubs && x.batchId == a.batchId && x.originalMainId == a.originalId && SubFromSnapshot(x.snapshot) == Some(s)
  }

  /** What a restore does and when it succeeds. */
  lemma RestoreMeans(t: Tables, id: Uuid)
    requires Valid(t)
    ensures Restored(t, id).Success? <==> exists a :: a in t.archivedMains && a.id == id && NumbersFree(t, a)
    ensures Restored(t, id).Success? ==>
      exists a :: a in t.archivedMains && a.id == id && BringsBack(t, Restored(t, id).value, a, Unpack(t, id).value.1)
  {
    hide NumbersFree, SubArchives, MainNumberTaken, SubNumberTaken, Valid, BringsBack, Unpack;
    RestoreSucceeds(t, id);
    forall a
      ensures NumbersFree(t, a) <==> !MainNumberTaken(t, a.projectNo) && !SubNumberTaken(t, SubArchives(t, a))
    {
      FreeMeans(t, a);
    }
    if Restored(t, id).Success? {
      Unpacked(t, id);
      RestoredRows(t, id);
      assert Unpack(t, id).value.0 in t.archivedMains;
    }
  }

  lemma RestoredRows(t: Tables, id: Uuid)
    requires Valid(t) && Unpack(t, id).Success?
    ensures BringsBack(t, Restored(t, id).value, Unpack(t, id).value.0, Unpack(t, id).value.1)
  {
    hide MainFromSnapshot, SubFromSnapshot, SubArchives, MainNumberTaken, SubNumberTaken, ParseSubs, Valid, SubIds, NotAmong;
    var (main, p, ss) := Unpack(t, id).value;
    var rows := SubArchives(t, main);
    assert Restored(t, id).value.subs[|t.subs|..] == ss;
    SubArchivesMembers(t, main);
    KeptRows(t, rows);
    ParsedRows(rows);
  }

  lemma KeptRows(t: Tables, rows: seq<ArchiveSub>)
    requires Valid(t) && forall x :: x in rows ==> x in t.archivedSubs
    ensures forall x :: x in Filter(NotAmong(SubIds(rows)), t.archivedSubs) <==> x in t.archivedSubs && x !in rows
  {
    hide SoundMains, SoundSubs, Together, DistinctNumbers, Map;
    forall x | x in t.archivedSubs
      ensures x.id in SubIds(rows) <==> x in rows
    {
      if x in rows {
        MapMember(SubKey, rows, x);
      }
      if x.id in SubIds(rows) {
        var y := MapOrigin(SubKey, rows, x.id);
        DistinctMember(SubKey, t.archivedSubs, x, y);
      }
    }
  }

  lemma ParsedRows(rows: seq<ArchiveSub>)
    requires ParseSubs(rows).Some?
    ensures forall s :: s in ParseSubs(rows).value <==> exists x :: x in rows && SubFromSnapshot(x.snapshot) == Some(s)
  {
    hide SubFromSnapshot, ParseSubs;
    var ss := ParseSubs(rows).value;
    forall s | s in ss
      ensures exists x :: x in rows && SubFromSnapshot(x.snapshot) == Some(s)
    {
      var k :| 0 <= k < |ss| && ss[k] == s;
      assert rows[k] in rows;
    }
    forall x | x in rows
      ensures SubFromSnapshot(x.snapshot).Some? && SubFromSnapshot(x.snapshot).value in ss
    {
      var k :| 0 <= k < |rows| && rows[k] == x;
    }
  }

  lemma Unpacked(t: Tables, id: Uuid)
    requires Valid(t) && Unpack(t, id).Success?
    ensures var (main, p, ss) := Unpack(t, id).value;
      && main in t.archivedMains && main.id == id
      && LiveMain(p) == StoredMain(main)
      && Map(LiveSub, ss) == Map(StoredSub, SubArchives(t, main))
      && !MainNumberTaken(t, main.projectNo) && !SubNumberTaken(t, SubArchives(t, main))
  {
    hide MainFromSnapshot, SubFromSnapshot, SubArchives, LiveMain, StoredMain, LiveSub, StoredSub, MainNumberTaken, SubNumberTaken,
      SoundMains, SoundSubs, Together, DistinctArchiveIds, DistinctNumbers, Map;
    var (main, p, ss) := Unpack(t, id).value;
    var rows := SubArchives(t, main);
    StoredEntrySound(t, main);
    SubArchivesMembers(t, main);
    forall i | 0 <= i < |rows|
      ensures LiveSub(ss[i]) == StoredSub(rows[i])
    {
      assert rows[i] in rows;
      StoredSubSound(t, rows[i]);
    }
  }

  lemma RestoredMainBag(t: Tables, id: Uuid)
    requires Valid(t) && Restored(t, id).Success?
    ensures MainBag(Restored(t, id).value) == MainBag(t)
  {
    hide LiveMain, StoredMain, Filter, Map, SoundMains, SoundSubs, Together, DistinctNumbers, SubArchives, Unpack, LiveSub, StoredSub;
    var (main, p, ss) := Unpack(t, id).value;
    Unpacked(t, id);
    MapSplitBag(StoredMain, HasId(id), HasOtherId(id), t.archivedMains);
    FilterOne(MainKey, HasId(id), t.archivedMains, main);
    MapConcat(LiveMain, t.projects, [p]);
    assert Map(LiveMain, [p]) == Map(StoredMain, [main]);
  }

  lemma SelectedSubs(t: Tables, main: ArchiveMain)
    requires DistinctBy(SubKey, t.archivedSubs)
    ensures forall a :: a in t.archivedSubs ==> (a.id !in SubIds(SubArchives(t, main)) <==> !ArchivedWith(main)(a))
    ensures multiset(Map(StoredSub, SubArchives(t, main))) + multiset(Map(StoredSub, Filter(NotAmong(SubIds(SubArchives(t, main))), t.archivedSubs)))
      == multiset(Map(StoredSub, t.archivedSubs))
  {
    hide StoredSub, Filter, Map, SortBy, ArchiveSubOrder;
    var rows := SubArchives(t, main);
    SubArchivesMembers(t, main);
    forall a | a in t.archivedSubs
      ensures a.id !in SubIds(rows) <==> !ArchivedWith(main)(a)
    {
      if a in rows {
        MapMember(SubKey, rows, a);
      }
      if a.id in SubIds(rows) {
        var b := MapOrigin(SubKey, rows, a.id);
        DistinctMember(SubKey, t.archivedSubs, a, b);
      }
    }
    MapSplitBag(StoredSub, ArchivedWith(main), NotAmong(SubIds(rows)), t.archivedSubs);
    MapSortBag(StoredSub, ArchiveSubOrder, Filter(ArchivedWith(main), t.archivedSubs));
  }

  lemma RestoredSubBag(t: Tables, id: Uuid)
    requires Valid(t) && Restored(t, id).Success?
    ensures SubBag(Restored(t, id).value) == SubBag(t)
  {
    hide LiveMain, StoredMain, Filter, Map, SoundMains, SoundSubs, Together, DistinctNumbers, SubArchives, Unpack, LiveSub, StoredSub;
    var (main, p, ss) := Unpack(t, id).value;
    Unpacked(t, id);
    SelectedSubs(t, main);
    MapConcat(LiveSub, t.subs, ss);
  }

  lemma RestoredTogether(t: Tables, id: Uuid)
    requires Valid(t) && Restored(t, id).Success?
    ensures Together(Restored(t, id).value)
  {
    hide MainFromSnapshot, SubFromSnapshot, SubArchives, SoundMains, SoundSubs, DistinctNumbers, Unpack, Map, RestoredMain, RestoredSub, StoredSub;
    var (main, p, ss) := Unpack(t, id).value;
    var r := Restored(t, id).value;
    var rows := SubArchives(t, main);
    Unpacked(t, id);
    SelectedSubs(t, main);
    SubArchivesMembers(t, main);
    assert p in r.projects;
    forall s | s in r.subs
      ensures HasProject(r.projects, s.mainId)
    {
      if s in t.subs {
        var q :| q in t.projects && q.id == s.mainId;
        assert q in r.projects;
      } else {
        assert s in ss;
        RestoredSubOwner(t, id, s);
      }
    }
    forall a | a in r.archivedSubs
      ensures HasArchive(r.archivedMains, a.batchId, a.originalMainId)
    {
      var m :| m in t.archivedMains && m.batchId == a.batchId && m.originalId == a.originalMainId;
      if m.id == id {
        DistinctMember(MainKey, t.archivedMains, m, main);
        assert false;
      }
      assert m in r.archivedMains;
    }
  }

  lemma RestoredSubOwner(t: Tables, id: Uuid, s: SubProject)
    requires Valid(t) && Unpack(t, id).Success? && s in Unpack(t, id).value.2
    ensures s.mainId == Unpack(t, id).value.1.id
  {
    hide MainFromSnapshot, SubFromSnapshot, SubArchives, SoundMains, SoundSubs, DistinctNumbers, Unpack, RestoredMain, RestoredSub,
      Together, DistinctArchiveIds;
    var (main, p, ss) := Unpack(t, id).value;
    var rows := SubArchives(t, main);
    Unpacked(t, id);
    SubArchivesMembers(t, main);
    var i :| 0 <= i < |ss| && ss[i] == s;
    assert Map(LiveSub, ss)[i] == Map(StoredSub, rows)[i];
    assert rows[i] in rows;
  }

  lemma RestoredNumbers(t: Tables, id: Uuid)
    requires Valid(t) && Restored(t, id).Success?
    ensures DistinctArchiveIds(Restored(t, id).value) && DistinctNumbers(Restored(t, id).value)
  {
    hide MainFromSnapshot, SubFromSnapshot, SubArchives, SoundMains, SoundSubs, Unpack, RestoredMain, RestoredSub, Together, Filter, Map;
    var (main, p, ss) := Unpack(t, id).value;
    Unpacked(t, id);
    DistinctFilter(MainKey, HasOtherId(id), t.archivedMains);
    DistinctFilter(SubKey, NotAmong(SubIds(SubArchives(t, main))), t.archivedSubs);
    RestoredSubNumbers(t, id);
    assert p.projectNo == main.projectNo;
  }

  lemma RestoredSubNumbers(t: Tables, id: Uuid)
    requires Valid(t) && Unpack(t, id).Success?
    ensures DistinctBy(SubNumber, Unpack(t, id).value.2)
    ensures forall s, r :: s in t.subs && r in Unpack(t, id).value.2 ==> s.projectNo != r.projectNo
  {
    hide MainFromSnapshot, SubFromSnapshot, SubArchives, SoundMains, Unpack, RestoredMain, RestoredSub, Together,
      DistinctNumbers, StorableSub;
    var (main, p, ss) := Unpack(t, id).value;
    var rows := SubArchives(t, main);
    Unpacked(t, id);
    SubArchivesMembers(t, main);
    SelectedSubs(t, main);
    forall i | 0 <= i < |ss|
      ensures LiveSub(ss[i]) == StoredSub(rows[i]) && StoredSub(rows[i]) in SubBag(t) && rows[i] in rows
    {
      assert Map(LiveSub, ss)[i] == Map(StoredSub, rows)[i];
      assert rows[i] in rows;
      StoredSubSound(t, rows[i]);
    }
    forall i, j | 0 <= i < j < |ss|
      ensures ss[i].projectNo != ss[j].projectNo
    {
      if ss[i].projectNo == ss[j].projectNo {
        assert StoredSub(rows[i]) == StoredSub(rows[j]);
        CountTwice(Map(StoredSub, rows), i, j);
        assert false;
      }
    }
  }

  /** A restore keeps the invariant and loses nothing. */
  lemma RestoredValid(t: Tables, id: Uuid)
    requires Valid(t) && Restored(t, id).Success?
    ensures Valid(Restored(t, id).value)
    ensures MainBag(Restored(t, id).value) == MainBag(t)
    ensures SubBag(Restored(t, id).value) == SubBag(t)
  {
    hide SoundMains, SoundSubs, MainBag, SubBag, Together, DistinctArchiveIds, DistinctNumbers, Restored;
    RestoredMainBag(t, id);
    RestoredSubBag(t, id);
    RestoredTogether(t, id);
    RestoredNumbers(t, id);
  }

  // ---------------------------------------------------------------- sub-projects travel with their main project

  lemma StoredSubBelongs(t: Tables, a: ArchiveSub)
    requires Valid(t) && a in t.archivedSubs
    ensures !HasProject(t.projects, a.originalMainId)
  {
    hide SoundMains, SoundSubs, DistinctArchiveIds, DistinctNumbers, MainBag, SubBag;
    var m :| m in t.archivedMains && m.batchId == a.batchId && m.originalId == a.originalMainId;
    forall p | p in t.projects
      ensures p.id != a.originalMainId
    {
      NotBoth(t, p, m);
    }
  }

  /** A sub-project is live exactly when its main project is. */
  lemma SubFollowsMain(t: Tables, e: SubEntry)
    requires Valid(t) && e in SubBag(t)
    ensures e in multiset(Map(LiveSub, t.subs)) <==> HasProject(t.projects, e.mainId)
    ensures e in multiset(Map(StoredSub, t.archivedSubs)) <==> !HasProject(t.projects, e.mainId)
  {
    hide SoundMains, SoundSubs, DistinctArchiveIds, DistinctNumbers, MainBag, RestoredSub, SubFromSnapshot;
    if e in multiset(Map(LiveSub, t.subs)) {
      var s := MapOrigin(LiveSub, t.subs, e);
      assert HasProject(t.projects, s.mainId);
    }
    if e in multiset(Map(StoredSub, t.archivedSubs)) {
      var a := MapOrigin(StoredSub, t.archivedSubs, e);
      StoredSubBelongs(t, a);
    }
  }

  /** Between two states with the same sub-projects, a main project that is live in both has the same live
      sub-projects in both. */
  lemma SameSubs(t: Tables, u: Tables, e: SubEntry)
    requires Valid(t) && Valid(u) && SubBag(t) == SubBag(u)
    requires HasProject(t.projects, e.mainId) && HasProject(u.projects, e.mainId)
    ensures multiset(Map(LiveSub, t.subs))[e] == multiset(Map(LiveSub, u.subs))[e]
  {
    hide Valid, LiveSub, StoredSub, Map;
    if e in SubBag(t) {
      SubFollowsMain(t, e);
      SubFollowsMain(u, e);
      assert SubBag(t)[e] == multiset(Map(LiveSub, t.subs))[e] && SubBag(u)[e] == multiset(Map(LiveSub, u.subs))[e];
    } else {
      assert SubBag(t)[e] == 0 && SubBag(u)[e] == 0;
    }
  }

  // ---------------------------------------------------------------- archive, then restore

  lemma NewRowOf(t: Tables, cutoff: int, ids: NewIds, clock: Clock, p: MainProject, a: ArchiveMain)
    requires Valid(t) && Fits(t, cutoff, ids) && Fresh(t, ids)
    requires p in t.projects && a in Archived(t, cutoff, ids, clock).archivedMains && a.originalId == p.id
    ensures StoredMain(a) == LiveMain(p) && a.projectNo == p.projectNo
  {
    hide Valid, Archived, LiveMain, StoredMain, Map;
    var u := Archived(t, cutoff, ids, clock);
    ArchivedValid(t, cutoff, ids, clock);
    SameEntry(t, u, p, a);
  }

  lemma SameEntry(t: Tables, u: Tables, p: MainProject, a: ArchiveMain)
    requires Valid(t) && MainBag(u) == MainBag(t) && p in t.projects && a in u.archivedMains && a.originalId == p.id
    ensures StoredMain(a) == LiveMain(p) && a.projectNo == p.projectNo
  {
    hide StorableMain, RestoredMain, MainFromSnapshot, SoundSubs, Together, DistinctArchiveIds, DistinctNumbers;
    LiveEntrySound(t, p);
    MapMember(StoredMain, u.archivedMains, a);
    assert StoredMain(a) in MainBag(u);
  }

  /** Right after an archive run, no live number clashes with a project that the run archived. */
  lemma NoClash(t: Tables, cutoff: int, ids: NewIds, clock: Clock, p: MainProject, a: ArchiveMain)
    requires Valid(t) && Fits(t, cutoff, ids) && Fresh(t, ids)
    requires p in t.projects && a in Archived(t, cutoff, ids, clock).archivedMains && a.originalId == p.id
    ensures !MainNumberTaken(Archived(t, cutoff, ids, clock), a.projectNo)
    ensures !SubNumberTaken(Archived(t, cutoff, ids, clock), SubArchives(Archived(t, cutoff, ids, clock), a))
  {
    hide Archived, SoundMains, SoundSubs, Map, SubArchives, LiveMain, StoredMain, MainBag, SubBag, Eligible, DistinctArchiveIds, Fresh;
    var u := Archived(t, cutoff, ids, clock);
    ArchivedValid(t, cutoff, ids, clock);
    ArchivedLeaves(t, cutoff, ids, clock);
    NewRowOf(t, cutoff, ids, clock, p, a);
    forall q | q in u.projects
      ensures q.projectNo != p.projectNo
    {
      NotBoth(u, q, a);
      assert q != p;
    }
    SubArchivesMembers(u, a);
    forall s, b | s in u.subs && b in SubArchives(u, a)
      ensures s.projectNo != b.projectNo
    {
      var o := LiveOrigin(t, u, p, b);
      var q :| q in u.projects && q.id == s.mainId;
      NotBoth(u, q, a);
      LiveSubsShrink(t, cutoff, ids, clock, s);
      assert s != o;
    }
  }

  lemma LiveSubsShrink(t: Tables, cutoff: int, ids: NewIds, clock: Clock, s: SubProject)
    requires Fits(t, cutoff, ids) && s in Archived(t, cutoff, ids, clock).subs
    ensures s in t.subs
  {
  }

  /** An archived sub-project of a project that was live before the run was one of its live sub-projects. */
  lemma LiveOrigin(t: Tables, u: Tables, p: MainProject, b: ArchiveSub) returns (s: SubProject)
    requires Valid(t) && Valid(u) && SubBag(t) == SubBag(u)
    requires p in t.projects && b in u.archivedSubs && b.originalMainId == p.id
    ensures s in t.subs && s.mainId == p.id && s.projectNo == b.projectNo
  {
    hide RestoredSub, SubFromSnapshot, SoundMains, Together, DistinctArchiveIds, DistinctNumbers, MainBag;
    StoredSubSound(u, b);
    assert HasProject(t.projects, StoredSub(b).mainId);
    SubFollowsMain(t, StoredSub(b));
    s := MapOrigin(LiveSub, t.subs, StoredSub(b));
  }

  /** Archive, then restore: the restore succeeds and brings back the main project and exactly its
      sub-projects, except for the two columns that a restore does not read. */
  lemma ArchiveThenRestore(t: Tables, cutoff: int, ids: NewIds, clock: Clock, p: MainProject, a: ArchiveMain)
    requires Valid(t) && Fits(t, cutoff, ids) && Fresh(t, ids)
    requires p in t.projects && a in Archived(t, cutoff, ids, clock).archivedMains && a.originalId == p.id
    ensures var r := Restored(Archived(t, cutoff, ids, clock), a.id);
      && r.Success? && Valid(r.value)
      && p.(projectTypeId := None) in r.value.projects
      && (forall s :: s in t.subs && s.mainId == p.id ==>
            exists o :: o in r.value.subs && o.(workflowTemplateVersionId := None) == s.(workflowTemplateVersionId := None))
      && (forall e: SubEntry :: e.mainId == p.id ==> multiset(Map(LiveSub, r.value.subs))[e] == multiset(Map(LiveSub, t.subs))[e])
  {
    hide Valid, Archived, Restored, MainBag, SubBag, Fresh, Fits, Map, LiveSub;
    var u := Archived(t, cutoff, ids, clock);
    ArchivedValid(t, cutoff, ids, clock);
    NoClash(t, cutoff, ids, clock, p, a);
    NewRowOf(t, cutoff, ids, clock, p, a);
    RestoreSucceeds(u, a.id);
    RestoredValid(u, a.id);
    var r := Restored(u, a.id).value;
    RestoredRow(u, a);
    assert HasProject(t.projects, p.id) && HasProject(r.projects, p.id);
    forall e: SubEntry | e.mainId == p.id
      ensures multiset(Map(LiveSub, r.subs))[e] == multiset(Map(LiveSub, t.subs))[e]
    {
      SameSubs(r, t, e);
    }
    SubsComeBack(t.subs, r.subs, p.id);
  }

  lemma SubsComeBack(before: seq<SubProject>, after: seq<SubProject>, mainId: Uuid)
    requires forall e: SubEntry :: e.mainId == mainId ==> multiset(Map(LiveSub, after))[e] == multiset(Map(LiveSub, before))[e]
    ensures forall s :: s in before && s.mainId == mainId ==>
      exists o :: o in after && o.(workflowTemplateVersionId := None) == s.(workflowTemplateVersionId := None)
  {
    hide Map;
    forall s | s in before && s.mainId == mainId
      ensures exists o :: o in after && o.(workflowTemplateVersionId := None) == s.(workflowTemplateVersionId := None)
    {
      MapMember(LiveSub, before, s);
      assert multiset(Map(LiveSub, after))[LiveSub(s)] > 0;
      var o := MapOrigin(LiveSub, after, LiveSub(s));
    }
  }

  lemma RestoredRow(u: Tables, a: ArchiveMain)
    requires Valid(u) && a in u.archivedMains && Restored(u, a.id).Success?
    ensures StoredMain(a).row.Some? && StoredMain(a).row.value in Restored(u, a.id).value.projects
    ensures HasProject(Restored(u, a.id).value.projects, a.originalId)
  {
    hide Unpack, MainFromSnapshot, RestoredMain, Filter, SubArchives;
    var (main, p, ss) := Unpack(u, a.id).value;
    Unpacked(u, a.id);
    DistinctMember(MainKey, u.archivedMains, main, a);
    StoredEntrySound(u, a);
    RestoredFirst(u, a.id);
    assert p in Restored(u, a.id).value.projects;
  }

  lemma RestoredFirst(u: Tables, id: Uuid)
    requires Unpack(u, id).Success?
    ensures MainFromSnapshot(Unpack(u, id).value.0.snapshot) == Some(Unpack(u, id).value.1)
  {
  }

  // ---------------------------------------------------------------- runs

  datatype Command =
    | ArchiveRun(cutoff: int, ids: NewIds, clock: Clock)
    | RestoreRun(id: Uuid)
    | OpenMain(project: MainProject)
    | OpenSub(sub: SubProject)

  ghost predicate Enabled(t: Tables, c: Command) {
    match c
    case ArchiveRun(cutoff, ids, _) => Fits(t, cutoff, ids) && Fresh(t, ids)
    case RestoreRun(_) => true
    case OpenMain(p) => StorableMain(p) && !MainNumberTaken(t, p.projectNo) && forall e :: e in MainBag(t) ==> e.id != p.id
    case OpenSub(s) =>
      && StorableSub(s) && HasProject(t.projects, s.mainId) && (forall r :: r in t.subs ==> r.projectNo != s.projectNo)
      && forall e :: e in SubBag(t) ==> e.id != s.id
  }

  function Apply(t: Tables, c: Command): Tables
    requires c.ArchiveRun? ==> Fits(t, c.cutoff, c.ids)
  {
    match c
    case ArchiveRun(cutoff, ids, clock) => Archived(t, cutoff, ids, clock)
    case RestoreRun(id) => (match Restored(t, id) case Success(u) => u case Failure(_) => t)
    case OpenMain(p) => t.(projects := t.projects + [p])
    case OpenSub(s) => t.(subs := t.subs + [s])
  }

  /** Runs can start from empty tables. */
  lemma EmptyValid()
    ensures Valid(Tables([], [], [], [], []))
  {
    var t := Tables([], [], [], [], []);
    assert MainBag(t) == multiset{} && SubBag(t) == multiset{};
  }

  ghost predicate IsRun(t: Tables, run: seq<Command>)
    decreases |run|
  {
    run == [] || (Enabled(t, run[0]) && IsRun(Apply(t, run[0]), run[1..]))
  }

  ghost function Final(t: Tables, run: seq<Command>): Tables
    requires IsRun(t, run)
    decreases |run|
  {
    if run == [] then t else Final(Apply(t, run[0]), run[1..])
  }

  ghost function OpenedMains(run: seq<Command>): multiset<MainEntry> {
    if run == [] then multiset{}
    else (if run[0].OpenMain? then multiset{LiveMain(run[0].project)} else multiset{}) + OpenedMains(run[1..])
  }

  ghost function OpenedSubs(run: seq<Command>): multiset<SubEntry> {
    if run == [] then multiset{}
    else (if run[0].OpenSub? then multiset{LiveSub(run[0].sub)} else multiset{}) + OpenedSubs(run[1..])
  }

  lemma OneMoreMain(bag: multiset<MainEntry>, p: MainProject)
    requires SoundMains(bag) && StorableMain(p) && forall e :: e in bag ==> e.id != p.id
    ensures SoundMains(bag + multiset{LiveMain(p)})
  {
    hide StorableMain;
    StorableWithoutType(p);
  }

  lemma OneMoreSub(bag: multiset<SubEntry>, s: SubProject)
    requires SoundSubs(bag) && StorableSub(s) && forall e :: e in bag ==> e.id != s.id
    requires forall e :: e in bag && e.mainId == s.mainId ==> e.projectNo != s.projectNo
    ensures SoundSubs(bag + multiset{LiveSub(s)})
  {
    hide StorableSub;
    StorableWithoutVersion(s);
  }

  lemma OpenMainBags(t: Tables, p: MainProject)
    ensures MainBag(Apply(t, OpenMain(p))) == MainBag(t) + multiset{LiveMain(p)}
    ensures SubBag(Apply(t, OpenMain(p))) == SubBag(t)
  {
    hide Map, LiveMain, StoredMain, LiveSub, StoredSub;
    MapConcat(LiveMain, t.projects, [p]);
    assert Map(LiveMain, [p]) == [LiveMain(p)];
  }

  lemma OpenSubBags(t: Tables, s: SubProject)
    ensures MainBag(Apply(t, OpenSub(s))) == MainBag(t)
    ensures SubBag(Apply(t, OpenSub(s))) == SubBag(t) + multiset{LiveSub(s)}
  {
    hide Map, LiveMain, StoredMain, LiveSub, StoredSub;
    MapConcat(LiveSub, t.subs, [s]);
    assert Map(LiveSub, [s]) == [LiveSub(s)];
  }

  lemma OpenMainValid(t: Tables, p: MainProject)
    requires Valid(t) && Enabled(t, OpenMain(p))
    ensures Valid(Apply(t, OpenMain(p)))
    ensures MainBag(Apply(t, OpenMain(p))) == MainBag(t) + multiset{LiveMain(p)}
    ensures SubBag(Apply(t, OpenMain(p))) == SubBag(t)
  {
    hide StorableMain, LiveMain, SoundMains, SoundSubs, MainBag, SubBag;
    var u := Apply(t, OpenMain(p));
    OpenMainBags(t, p);
    OneMoreMain(MainBag(t), p);
    forall s | s in u.subs
      ensures HasProject(u.projects, s.mainId)
    {
      var q :| q in t.projects && q.id == s.mainId;
      assert q in u.projects;
    }
  }

  lemma OpenSubValid(t: Tables, s: SubProject)
    requires Valid(t) && Enabled(t, OpenSub(s))
    ensures Valid(Apply(t, OpenSub(s)))
    ensures MainBag(Apply(t, OpenSub(s))) == MainBag(t)
    ensures SubBag(Apply(t, OpenSub(s))) == SubBag(t) + multiset{LiveSub(s)}
  {
    hide StorableSub, SoundMains, SoundSubs, MainBag, SubBag, Map, RestoredSub;
    OpenSubBags(t, s);
    forall e | e in SubBag(t) && e.mainId == s.mainId
      ensures e.projectNo != s.projectNo
    {
      SubFollowsMain(t, e);
      var r := MapOrigin(LiveSub, t.subs, e);
    }
    OneMoreSub(SubBag(t), s);
  }

  lemma NothingOpened(c: Command)
    ensures OpenedMains([c]) == if c.OpenMain? then multiset{LiveMain(c.project)} else multiset{}
    ensures OpenedSubs([c]) == if c.OpenSub? then multiset{LiveSub(c.sub)} else multiset{}
  {
    hide LiveMain, LiveSub;
    assert [c][1..] == [];
  }

  lemma ApplyValid(t: Tables, c: Command)
    requires Valid(t) && Enabled(t, c)
    ensures Valid(Apply(t, c))
    ensures MainBag(Apply(t, c)) == MainBag(t) + OpenedMains([c]) && SubBag(Apply(t, c)) == SubBag(t) + OpenedSubs([c])
  {
    hide Valid, MainBag, SubBag, Archived, Restored, LiveMain, LiveSub, Fits, Fresh, StorableMain, StorableSub, MainNumberTaken, HasProject,
      OpenedMains, OpenedSubs;
    NothingOpened(c);
    match c
    case ArchiveRun(cutoff, ids, clock) => ArchivedValid(t, cutoff, ids, clock);
    case RestoreRun(id) => if Restored(t, id).Success? { RestoredValid(t, id); }
    case OpenMain(p) => OpenMainValid(t, p);
    case OpenSub(s) => OpenSubValid(t, s);
  }

  /** Over every run, nothing is lost, doubled or altered: what is stored is what was stored at the
      start and what was opened since. */
  lemma {:induction false} RunConserves(t: Tables, run: seq<Command>)
    requires Valid(t) && IsRun(t, run)
    ensures Valid(Final(t, run))
    ensures MainBag(Final(t, run)) == MainBag(t) + OpenedMains(run) && SubBag(Final(t, run)) == SubBag(t) + OpenedSubs(run)
    decreases |run|
  {
    hide Valid, MainBag, SubBag, Apply, Fits, Fresh, MainNumberTaken, HasProject, LiveMain, LiveSub;
    if run != [] {
      ApplyValid(t, run[0]);
      RunConserves(Apply(t, run[0]), run[1..]);
      OpenedHead(run);
    }
  }

  lemma OpenedHead(run: seq<Command>)
    requires run != []
    ensures OpenedMains(run) == OpenedMains([run[0]]) + OpenedMains(run[1..])
    ensures OpenedSubs(run) == OpenedSubs([run[0]]) + OpenedSubs(run[1..])
  {
    assert [run[0]][1..] == [];
  }

  /** Over every run, each main project is in exactly one of the live and archive tables, and its
      sub-projects are all in the same one. */
  lemma RunKeepsProjectsWhole(t: Tables, run: seq<Command>, e: MainEntry, f: SubEntry)
    requires Valid(t) && IsRun(t, run)
    requires e in MainBag(t) + OpenedMains(run) && f in SubBag(t) + OpenedSubs(run) && f.mainId == e.id
    ensures var u := Final(t, run);
      && (HasProject(u.projects, e.id) <==> !exists a :: a in u.archivedMains && a.originalId == e.id)
      && (f in multiset(Map(LiveSub, u.subs)) <==> HasProject(u.projects, e.id))
      && (f in multiset(Map(StoredSub, u.archivedSubs)) <==> !HasProject(u.projects, e.id))
  {
    hide SoundMains, SoundSubs, Together, DistinctArchiveIds, DistinctNumbers, MainBag, SubBag, Map, LiveSub, StoredSub, HasProject;
    RunConserves(t, run);
    InExactlyOneTable(Final(t, run), e);
    SubFollowsMain(Final(t, run), f);
  }
}
