/** The archive repository with its rollback snapshot, and the service methods that archive and restore. */
module ArchiveServices {
  import opened Wrappers
  import opened Snapshots
  import opened ArchiveRows
  import opened Sequences
  import opened Archive

  /** What the store may fail at: its queries, the statements that delete, the commit. */
  datatype StoreStep = Reading | DeletingGraph | DeletingSnapshots | Committing

  class ArchiveRepository {
    var projects: seq<MainProject>
    var subs: seq<SubProject>
    var batches: seq<Batch>
    var archivedMains: seq<ArchiveMain>
    var archivedSubs: seq<ArchiveSub>
    /** The steps that raise. */
    const failing: set<StoreStep>
    var snapshot: Option<Tables>

    constructor (projects: seq<MainProject>, subs: seq<SubProject>, failing: set<StoreStep>)
      ensures State() == Tables(projects, subs, [], [], []) && this.failing == failing && snapshot == None
    {
      this.projects, this.subs, batches, archivedMains, archivedSubs := projects, subs, [], [], [];
      this.failing, snapshot := failing, None;
    }

    function State(): Tables
      reads this
    {
      Tables(projects, subs, batches, archivedMains, archivedSubs)
    }

    method Begin()
      modifies this`snapshot
      ensures snapshot == Some(State())
    {
      snapshot := Some(Tables(projects, subs, batches, archivedMains, archivedSubs));
    }

    /** False when the store raises. */
    method Commit() returns (ok: bool)
      modifies this`snapshot
      ensures ok == (Committing !in failing) && snapshot == if ok then None else old(snapshot)
    {
      if Committing in failing {
        return false;
      }
      snapshot := None;
      return true;
    }

    method Rollback()
      modifies this
      ensures State() == (match old(snapshot) case Some(t) => t case None => old(State()))
      ensures snapshot == None
    {
      if snapshot == None {
        return;
      }
      projects, subs, batches := snapshot.value.projects, snapshot.value.subs, snapshot.value.batches;
      archivedMains, archivedSubs := snapshot.value.archivedMains, snapshot.value.archivedSubs;
      snapshot := None;
    }

    /** False when the store raises. */
    method DeleteProjectGraph(ids: seq<Uuid>) returns (ok: bool)
      modifies this`projects, this`subs
      ensures ok == (DeletingGraph !in failing)
      ensures ok ==> projects == Filter(NotListed(ids), old(projects)) && subs == Filter(BelongsToNone(ids), old(subs))
      ensures !ok ==> projects == old(projects) && subs == old(subs)
    {
      if DeletingGraph in failing {
        return false;
      }
      projects := Filter(NotListed(ids), projects);
      subs := Filter(BelongsToNone(ids), subs);
      return true;
    }

    method RestoreMainProject(project: MainProject, restored: seq<SubProject>)
      modifies this`projects, this`subs
      ensures projects == old(projects) + [project] && subs == old(subs) + restored
    {
      projects := projects + [project];
      subs := subs + restored;
    }

    /** False when the store raises. */
    method DeleteArchiveProjectSnapshots(mainArchiveId: Uuid, subArchiveIds: seq<Uuid>) returns (ok: bool)
      modifies this`archivedMains, this`archivedSubs
      ensures ok == (DeletingSnapshots !in failing)
      ensures ok ==> archivedMains == Filter(HasOtherId(mainArchiveId), old(archivedMains))
      ensures ok ==> archivedSubs == Filter(NotAmong(subArchiveIds), old(archivedSubs))
      ensures !ok ==> archivedMains == old(archivedMains) && archivedSubs == old(archivedSubs)
    {
      if DeletingSnapshots in failing {
        return false;
      }
      archivedSubs := Filter(NotAmong(subArchiveIds), archivedSubs);
      archivedMains := Filter(HasOtherId(mainArchiveId), archivedMains);
      return true;
    }
  }

  datatype ArchiveRunResult = ArchiveRunResult(
    batchId: Uuid, mainCount: nat, subCount: nat, mainsBefore: nat, mainsAfter: nat, durationMs: nat)

  class ArchiveService {
    const repository: ArchiveRepository

    constructor (repository: ArchiveRepository)
      ensures this.repository == repository
    {
      this.repository := repository;
    }

    method AddMainArchives(ps: seq<MainProject>, ids: NewIds, at: int)
      requires |ids.mains| == |ps|
      modifies repository`archivedMains
      ensures repository.archivedMains == old(repository.archivedMains) + NewArchiveMains(ids.mains, ids.batch, at, ps)
    {
      hide NewArchiveMain;
      var i := 0;
      while i < |ps|
        invariant 0 <= i <= |ps|
        invariant repository.archivedMains == old(repository.archivedMains) + NewArchiveMains(ids.mains[..i], ids.batch, at, ps[..i])
      {
        repository.archivedMains := repository.archivedMains + [NewArchiveMain(ids.mains[i], ids.batch, at, ps[i])];
        i := i + 1;
      }
      assert ids.mains[..i] == ids.mains && ps[..i] == ps;
    }

    method AddSubArchives(ss: seq<SubProject>, ids: NewIds, at: int)
      requires |ids.subs| == |ss|
      modifies repository`archivedSubs
      ensures repository.archivedSubs == old(repository.archivedSubs) + NewArchiveSubs(ids.subs, ids.batch, at, ss)
    {
      hide NewArchiveSub;
      var i := 0;
      while i < |ss|
        invariant 0 <= i <= |ss|
        invariant repository.archivedSubs == old(repository.archivedSubs) + NewArchiveSubs(ids.subs[..i], ids.batch, at, ss[..i])
      {
        repository.archivedSubs := repository.archivedSubs + [NewArchiveSub(ids.subs[i], ids.batch, at, ss[i])];
        i := i + 1;
      }
      assert ids.subs[..i] == ids.subs && ss[..i] == ss;
    }

    /** A run succeeds exactly when no step of the store raises; a failed run leaves all five tables as they
        were. In a valid state a run that succeeds reports counts that add up. */
    method ArchiveEligibleProjects(clock: Clock, ids: NewIds) returns (r: Result<ArchiveRunResult>)
      requires Fits(repository.State(), Cutoff(clock.startedAt), ids)
      modifies repository
      ensures repository.snapshot == None
      ensures r.Success? <==> repository.failing !! {Reading, DeletingGraph, Committing}
      ensures r.Failure? ==> r.error == Fault && repository.State() == old(repository.State())
      ensures r.Success? ==> repository.State() == Archived(old(repository.State()), Cutoff(clock.startedAt), ids, clock)
      ensures r.Success? ==>
        r.value == ArchiveRunResult(ids.batch, |ids.mains|, |ids.subs|, |old(repository.projects)|, |repository.projects|, clock.DurationMs())
      ensures r.Success? && Valid(old(repository.State())) ==> MovesLongClosed(old(repository.State()), repository.State(), clock, ids.batch)
      ensures r.Success? && Valid(old(repository.State())) ==> r.value.mainsBefore - r.value.mainsAfter == r.value.mainCount
    {
      hide Candidates, SubsOf, NewArchiveMains, NewArchiveSubs, Valid, Map, Filter, MovesLongClosed;
      ghost var before := repository.State();
      repository.Begin();
      if Reading in repository.failing {
        repository.Rollback();
        return Failure(Fault);
      }
      var cutoff := Cutoff(clock.startedAt);
      var mainsBefore := |repository.projects|;
      var ps := Candidates(repository.State(), cutoff);
      var ss := SubsOf(repository.State(), MainIds(ps));
      repository.batches := repository.batches + [Batch(ids.batch, |ps|, |ss|, clock.DurationMs(), clock.startedAt, clock.finishedAt)];
      AddMainArchives(ps, ids, clock.finishedAt);
      AddSubArchives(ss, ids, clock.finishedAt);
      var deleted := repository.DeleteProjectGraph(MainIds(ps));
      if !deleted {
        repository.Rollback();
        return Failure(Fault);
      }
      var mainsAfter := |repository.projects|;
      var committed := repository.Commit();
      if !committed {
        repository.Rollback();
        return Failure(Fault);
      }
      if Valid(before) {
        ArchivedCounts(before, cutoff, ids, clock);
        ArchivedMoves(before, ids, clock);
      }
      return Success(ArchiveRunResult(ids.batch, |ps|, |ss|, mainsBefore, mainsAfter, clock.DurationMs()));
    }

    /** What a restore answers when it fails. */
    function RestoreError(t: Tables, actorIsAdmin: bool, id: Uuid): Error {
      if !actorIsAdmin then PermissionDenied
      else if Reading in repository.failing then Fault
      else if Restored(t, id).Failure? then Restored(t, id).error
      else Fault
    }

    /** A restore is all or nothing, and refuses taken project numbers before it changes anything. */
    method RestoreMainProject(actorIsAdmin: bool, id: Uuid) returns (r: Result<MainProject>)
      modifies repository
      ensures r.Success? <==>
        actorIsAdmin && repository.failing !! {Reading, DeletingSnapshots, Committing} && Restored(old(repository.State()), id).Success?
      ensures r.Failure? ==> r.error == RestoreError(old(repository.State()), actorIsAdmin, id)
      ensures r.Failure? ==> repository.State() == old(repository.State())
      ensures r.Success? ==> Restored(old(repository.State()), id) == Success(repository.State()) && repository.snapshot == None
      ensures r.Success? ==> |repository.projects| > 0 && r.value == repository.projects[|repository.projects| - 1]
      ensures var t := old(repository.State());
        Valid(t) ==>
          && (r.Success? <==>
              actorIsAdmin && repository.failing !! {Reading, DeletingSnapshots, Committing}
              && exists a :: a in t.archivedMains && a.id == id && NumbersFree(t, a))
          && (r.Success? ==> exists a :: a in t.archivedMains && a.id == id && BringsBack(t, repository.State(), a, r.value))
    {
      ghost var before := repository.State();
      if Valid(before) {
        RestoreMeans(before, id);
      }
      hide Valid, NumbersFree, BringsBack, Restored, Unpack;
      r := RestoreInSteps(actorIsAdmin, id);
    }

    method RestoreInSteps(actorIsAdmin: bool, id: Uuid) returns (r: Result<MainProject>)
      modifies repository
      ensures r.Success? <==>
        actorIsAdmin && repository.failing !! {Reading, DeletingSnapshots, Committing} && Restored(old(repository.State()), id).Success?
      ensures r.Failure? ==> r.error == RestoreError(old(repository.State()), actorIsAdmin, id)
      ensures r.Failure? ==> repository.State() == old(repository.State())
      ensures r.Success? ==> Restored(old(repository.State()), id) == Success(repository.State()) && repository.snapshot == None
      ensures r.Success? ==> |repository.projects| > 0 && r.value == repository.projects[|repository.projects| - 1]
      ensures r.Success? ==> Unpack(old(repository.State()), id).Success? && r.value == Unpack(old(repository.State()), id).value.1
    {
      hide SubArchives, MainFromSnapshot, SubFromSnapshot, MainNumberTaken, SubNumberTaken, SubIds, Filter;
      if !actorIsAdmin {
        return Failure(PermissionDenied);
      }
      if Reading in repository.failing {
        return Failure(Fault);
      }
      var t := repository.State();
      var found := FirstIndex(t.archivedMains, HasId(id));
      if found == None {
        return Failure(NotFound);
      }
      var main := t.archivedMains[found.value];
      if MainNumberTaken(t, main.projectNo) {
        return Failure(Conflict);
      }
      var rows := SubArchives(t, main);
      if SubNumberTaken(t, rows) {
        return Failure(Conflict);
      }
      var project := MainFromSnapshot(main.snapshot);
      if project == None {
        return Failure(ValueError);
      }
      var restored := ParseSubs(rows);
      if restored == None {
        return Failure(ValueError);
      }
      repository.Begin();
      repository.RestoreMainProject(project.value, restored.value);
      var deleted := repository.DeleteArchiveProjectSnapshots(main.id, SubIds(rows));
      var committed := false;
      if deleted {
        committed := repository.Commit();
      }
      if !committed {
        repository.Rollback();
        return Failure(Fault);
      }
      return Success(project.value);
    }
  }
}
