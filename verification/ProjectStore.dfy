/** The long ordered delete of archived projects: one DELETE statement per table, children first, the
    payments in two passes. */
module ProjectStores {
  import opened ProjectGraph

  /** The store while the sequence runs, told in terms of the store at the start. */
  ghost predicate Stage(now: Rows, rows: Rows, mains: set<nat>, done: set<Kind>) {
    Consistent(rows) ==> now == Without(rows, Doomed(rows, mains, done))
  }

  ghost predicate Plain(kind: Kind, c: Column) {
    Reference(kind, c).Some? ==> Reference(kind, c).value.rule != SetNull
  }

  lemma SelectNow(rows: Rows, gone: set<Key>, kind: Kind, c: Column, ids: set<nat>)
    requires Plain(kind, c) && forall k :: k in gone ==> k.kind != kind
    ensures Select(Without(rows, gone), kind, c, ids) == Select(rows, kind, c, ids)
  {
    hide Reference;
    forall k | k in rows && k.kind == kind
      ensures k in Without(rows, gone) && (Has(Without(rows, gone)[k], c, ids) <==> Has(rows[k], c, ids))
    {
      if c in rows[k] {
        ClearedKeeps(kind, rows[k], gone, c);
      }
    }
  }

  /** The victims of a one-column DELETE are the rows of that table to remove. */
  lemma Victims(rows: Rows, mains: set<nat>, done: set<Kind>, kind: Kind, c: Column, ids: set<nat>)
    requires kind !in done
    requires
      || (kind in {Task, Document, HandoverLink, Handover, Member} && c == ToSub && ids == SubIds(rows, mains))
      || (kind in {AcceptanceStep, PhaseHistory} && c == ToPhase && ids == OwnedIds(rows, Phase, mains))
      || (kind == TaskExecutor && c == ToTask && ids == OwnedIds(rows, Task, mains))
      || (kind in {Sub, NoCounter} && c == ToMain && ids == mains)
    ensures Select(Without(rows, Doomed(rows, mains, done)), kind, c, ids) == Doomed(rows, mains, {kind})
    ensures ids == {} ==> Doomed(rows, mains, {kind}) == {}
  {
    hide Without, SubIds, OwnedIds;
    SelectNow(rows, Doomed(rows, mains, done), kind, c, ids);
  }

  lemma TwoColumnVictims(rows: Rows, mains: set<nat>, done: set<Kind>, kind: Kind, c: Column, ids: set<nat>, d: Column, others: set<nat>)
    requires kind !in done
    requires
      || (kind == Voucher && c == ToPayment && ids == OwnedIds(rows, Payment, mains) && d == ToDocument && others == OwnedIds(rows, Document, mains))
      || (kind == RevokeRequest && c == ToPhase && ids == OwnedIds(rows, Phase, mains) && d == ToSub && others == SubIds(rows, mains))
      || (kind == Review && c == ToMain && ids == mains && d == ToSub && others == SubIds(rows, mains))
    ensures var now := Without(rows, Doomed(rows, mains, done));
      Select(now, kind, c, ids) + Select(now, kind, d, others) == Doomed(rows, mains, {kind})
    ensures ids == {} && others == {} ==> Doomed(rows, mains, {kind}) == {}
  {
    hide Without, SubIds, OwnedIds;
    SelectNow(rows, Doomed(rows, mains, done), kind, c, ids);
    SelectNow(rows, Doomed(rows, mains, done), kind, d, others);
  }

  /** The victims of a DELETE by identifier. */
  lemma IdVictims(rows: Rows, mains: set<nat>, done: set<Kind>, kind: Kind, ids: set<nat>)
    requires kind !in done
    requires
      || (kind in {Phase, Task, Document, Payment} && ids == OwnedIds(rows, kind, mains))
      || (kind == Sub && ids == SubIds(rows, mains))
      || (kind == Main && ids == mains)
    ensures SelectIds(Without(rows, Doomed(rows, mains, done)), kind, ids) == Doomed(rows, mains, {kind})
    ensures ids == {} ==> Doomed(rows, mains, {kind}) == {}
  {
    hide SubIds, OwnedIds, Reference;
    forall k | k in rows && k.kind == kind
      ensures k.id in ids <==> IsDoomed(rows, mains, k)
    {
      if kind == Sub {
        SubIdsMean(rows, mains, k.id);
      } else if kind != Main {
        OwnedIdsMean(rows, mains, kind, k.id);
      }
      assert k == Key(kind, k.id);
    }
  }

  function ReversalsIn(rows: Rows, ids: set<nat>): set<Key> {
    set k | k in SelectIds(rows, Payment, ids) && Reverses in rows[k]
  }

  lemma ReversalVictims(rows: Rows, mains: set<nat>, done: set<Kind>)
    requires Payment !in done
    ensures var now := Without(rows, Doomed(rows, mains, done));
      ReversalsIn(now, OwnedIds(rows, Payment, mains)) == Reversals(rows, mains)
  {
    hide SubIds, OwnedIds, IsDoomed, SelectIds;
    IdVictims(rows, mains, done, Payment, OwnedIds(rows, Payment, mains));
    forall k | k in Doomed(rows, mains, {Payment})
      ensures k in Without(rows, Doomed(rows, mains, done))
      ensures Reverses in Without(rows, Doomed(rows, mains, done))[k] <==> Reverses in rows[k]
    {
      if Reverses in rows[k] {
        ClearedKeeps(Payment, rows[k], Doomed(rows, mains, done), Reverses);
      }
    }
  }

  lemma RemainingPayments(rows: Rows, mains: set<nat>, done: set<Kind>)
    requires Payment !in done
    ensures SelectIds(Without(rows, Doomed(rows, mains, done) + Reversals(rows, mains)), Payment, OwnedIds(rows, Payment, mains))
      == Doomed(rows, mains, {Payment}) - Reversals(rows, mains)
  {
    hide SubIds, OwnedIds, IsDoomed, Reference;
    IdVictims(rows, mains, done, Payment, OwnedIds(rows, Payment, mains));
    forall k | k in rows && k.kind == Payment
      ensures k.id in OwnedIds(rows, Payment, mains) <==> k in Doomed(rows, mains, {Payment})
    {
      assert k in Without(rows, Doomed(rows, mains, done));
    }
  }

  const PHASES_DONE: set<Kind> := {Voucher, Payment, Document, SearchEntry, RevokeRequest, AcceptanceStep, TaskExecutor, Task, PhaseHistory, Phase}

  /** The order of the sub-project statements: no table is cleared before those that refer to it. */
  lemma SubProjectOrder(done: set<Kind>)
    requires PHASES_DONE <= done
    ensures Ready(HandoverLink, done) && Ready(Handover, done) && Ready(Member, done) && Ready(Review, done) && Ready(NoCounter, done)
    ensures {HandoverLink, Handover, Member, Review} <= done ==> Ready(Sub, done)
  {
  }

  lemma PhaseOrder(done: set<Kind>)
    requires {Voucher, Payment, Document, SearchEntry, RevokeRequest} <= done
    ensures Ready(AcceptanceStep, done) && Ready(TaskExecutor, done) && Ready(PhaseHistory, done)
    ensures TaskExecutor in done ==> Ready(Task, done)
    ensures {AcceptanceStep, Task, PhaseHistory} <= done ==> Ready(Phase, done)
  {
  }

  lemma NoDocuments(rows: Rows, mains: set<nat>, done: set<Kind>)
    requires Consistent(rows) && Doomed(rows, mains, {Document}) == {}
    ensures Doomed(rows, mains, done + {Document, SearchEntry}) == Doomed(rows, mains, done)
  {
    hide IsDoomed, Consistent;
    forall k | k in Doomed(rows, mains, {SearchEntry})
      ensures false
    {
      SearchFollowsDocument(rows, mains, k);
    }
    NothingToDo(rows, mains, done, Document);
    NothingToDo(rows, mains, done + {Document}, SearchEntry);
    assert done + {Document} + {SearchEntry} == done + {Document, SearchEntry};
  }

  lemma NoTasks(rows: Rows, mains: set<nat>)
    requires OwnedIds(rows, Task, mains) == {}
    ensures Doomed(rows, mains, {Task}) == {} && Doomed(rows, mains, {TaskExecutor}) == {}
  {
    IdVictims(rows, mains, {}, Task, {});
    Victims(rows, mains, {}, TaskExecutor, ToTask, {});
  }

  lemma NoSubs(rows: Rows, mains: set<nat>)
    requires SubIds(rows, mains) == {}
    ensures Doomed(rows, mains, PHASES_DONE + {Sub, HandoverLink, Handover, Member}) == Doomed(rows, mains, PHASES_DONE)
  {
    hide SubIds, OwnedIds;
    IdVictims(rows, mains, {}, Sub, {});
    Victims(rows, mains, {}, HandoverLink, ToSub, {});
    Victims(rows, mains, {}, Handover, ToSub, {});
    Victims(rows, mains, {}, Member, ToSub, {});
    hide IsDoomed;
    NothingToDo(rows, mains, PHASES_DONE, Sub);
    NothingToDo(rows, mains, PHASES_DONE + {Sub}, HandoverLink);
    NothingToDo(rows, mains, PHASES_DONE + {Sub} + {HandoverLink}, Handover);
    NothingToDo(rows, mains, PHASES_DONE + {Sub} + {HandoverLink} + {Handover}, Member);
    assert PHASES_DONE + {Sub} + {HandoverLink} + {Handover} + {Member} == PHASES_DONE + {Sub, HandoverLink, Handover, Member};
  }

  lemma AllBut(rows: Rows, mains: set<nat>, done: set<Kind>)
    requires PHASES_DONE + {Sub, HandoverLink, Handover, Member} <= done
    ensures forall k :: k in AllDoomed(rows, mains) ==> k.kind in {Main, Review, NoCounter} || k.kind in done
  {
    hide SubIds, OwnedIds;
  }

  lemma NothingGone(rows: Rows)
    ensures Without(rows, {}) == rows
  {
    hide Reference;
    assert forall k :: k in rows ==> Cleared(k.kind, rows[k], {}) == rows[k];
  }

  lemma StartStage(rows: Rows, mains: set<nat>)
    ensures Stage(rows, rows, mains, {})
  {
    hide Consistent, Without;
    NothingGone(rows);
    assert Doomed(rows, mains, {}) == {};
  }

  lemma NoMains(rows: Rows)
    requires Consistent(rows)
    ensures Purged(rows, {}) == rows
  {
    hide Consistent, Without;
    DoomedIsLeast(rows, {}, {});
    assert AllDoomed(rows, {}) == {};
    NothingGone(rows);
  }

  class ProjectStore {
    var rows: Rows

    constructor (rows: Rows)
      ensures this.rows == rows
    {
      this.rows := rows;
    }

    /** One DELETE; a violated restriction aborts it. */
    method Delete(victims: set<Key>) returns (ok: bool)
      modifies this
      ensures ok <==> !Blocked(old(rows), victims)
      ensures rows == if ok then Deleted(old(rows), victims) else old(rows)
    {
      if Blocked(rows, victims) {
        return false;
      }
      rows := Deleted(rows, victims);
      return true;
    }

    /** The DELETE that clears one table, once every table that refers to it has been cleared. */
    method DeleteTable(victims: set<Key>, ghost start: Rows, ghost mains: set<nat>, ghost done: set<Kind>, ghost kind: Kind)
      returns (ok: bool)
      requires Stage(rows, start, mains, done) && Ready(kind, done)
      requires Consistent(start) ==> victims == Doomed(start, mains, {kind})
      modifies this
      ensures Consistent(start) ==> ok
      ensures ok ==> Stage(rows, start, mains, done + {kind})
    {
      hide Consistent, Without, Doomed, Deleted, Blocked, Ready;
      if Consistent(start) {
        KindStep(start, mains, done, kind);
      }
      ok := Delete(victims);
    }

    method DeletePayments(paymentIds: set<nat>, documentIds: set<nat>, ghost start: Rows, ghost mains: set<nat>) returns (ok: bool)
      requires Stage(rows, start, mains, {})
      requires paymentIds == OwnedIds(start, Payment, mains) && documentIds == OwnedIds(start, Document, mains)
      modifies this
      ensures Consistent(start) ==> ok
      ensures ok ==> Stage(rows, start, mains, {Voucher, Payment})
    {
      hide Consistent, Without, Doomed, OwnedIds, Deleted, Blocked, Reversals, ReversalsIn, SelectIds, Select;
      TwoColumnVictims(start, mains, {}, Voucher, ToPayment, paymentIds, ToDocument, documentIds);
      ok := true;
      if paymentIds != {} || documentIds != {} {
        ok := DeleteTable(Select(rows, Voucher, ToPayment, paymentIds) + Select(rows, Voucher, ToDocument, documentIds),
                          start, mains, {}, Voucher);
      } else {
        NothingToDo(start, mains, {}, Voucher);
      }
      if !ok {
        return;
      }
      assert {} + {Voucher} == {Voucher};
      if paymentIds != {} {
        ReversalVictims(start, mains, {Voucher});
        RemainingPayments(start, mains, {Voucher});
        if Consistent(start) {
          ReversalStep(start, mains, {Voucher});
          PaymentStep(start, mains, {Voucher});
        }
        ok := Delete(ReversalsIn(rows, paymentIds));
        if ok {
          ok := Delete(SelectIds(rows, Payment, paymentIds));
        }
      } else {
        IdVictims(start, mains, {Voucher}, Payment, paymentIds);
        NothingToDo(start, mains, {Voucher}, Payment);
      }
      assert {Voucher} + {Payment} == {Voucher, Payment};
    }

    method DeleteDocuments(phaseIds: set<nat>, subIds: set<nat>, documentIds: set<nat>, ghost start: Rows, ghost mains: set<nat>)
      returns (ok: bool)
      requires Stage(rows, start, mains, {Voucher, Payment})
      requires subIds == SubIds(start, mains)
      requires phaseIds == OwnedIds(start, Phase, mains) && documentIds == OwnedIds(start, Document, mains)
      modifies this
      ensures Consistent(start) ==> ok
      ensures ok ==> Stage(rows, start, mains, {Voucher, Payment, Document, SearchEntry, RevokeRequest})
    {
      hide Consistent, Without, Doomed, OwnedIds, SubIds, Deleted, Blocked, SelectIds, Select;
      ghost var paid := {Voucher, Payment};
      ghost var filed := {Voucher, Payment, Document, SearchEntry};
      IdVictims(start, mains, paid, Document, documentIds);
      ok := true;
      if documentIds != {} {
        if Consistent(start) {
          DocumentStep(start, mains, paid);
        }
        ok := Delete(SelectIds(rows, Document, documentIds));
      } else {
        if Consistent(start) {
          NoDocuments(start, mains, paid);
        }
      }
      assert paid + {Document, SearchEntry} == filed;
      if !ok {
        return;
      }
      TwoColumnVictims(start, mains, filed, RevokeRequest, ToPhase, phaseIds, ToSub, subIds);
      if phaseIds != {} || subIds != {} {
        ok := DeleteTable(Select(rows, RevokeRequest, ToPhase, phaseIds) + Select(rows, RevokeRequest, ToSub, subIds),
                          start, mains, filed, RevokeRequest);
      } else {
        NothingToDo(start, mains, filed, RevokeRequest);
      }
      assert filed + {RevokeRequest} == {Voucher, Payment, Document, SearchEntry, RevokeRequest};
    }

    method DeletePhases(phaseIds: set<nat>, taskIds: set<nat>, ghost start: Rows, ghost mains: set<nat>, ghost done: set<Kind>)
      returns (ok: bool)
      requires done == {Voucher, Payment, Document, SearchEntry, RevokeRequest}
      requires Stage(rows, start, mains, done)
      requires phaseIds == OwnedIds(start, Phase, mains) && taskIds == OwnedIds(start, Task, mains)
      modifies this
      ensures Consistent(start) ==> ok
      ensures ok ==> Stage(rows, start, mains, done + {AcceptanceStep} + {TaskExecutor} + {Task} + {PhaseHistory} + {Phase})
    {
      hide Ready, Reference, Consistent, Without, Doomed, OwnedIds, SubIds, Deleted, Blocked, SelectIds, Select;
      ghost var stepped := done + {AcceptanceStep};
      ghost var staffed := stepped + {TaskExecutor};
      ghost var tasked := staffed + {Task};
      ghost var recorded := tasked + {PhaseHistory};
      Victims(start, mains, done, AcceptanceStep, ToPhase, phaseIds);
      Victims(start, mains, stepped, TaskExecutor, ToTask, taskIds);
      IdVictims(start, mains, staffed, Task, taskIds);
      Victims(start, mains, tasked, PhaseHistory, ToPhase, phaseIds);
      IdVictims(start, mains, recorded, Phase, phaseIds);
      PhaseOrder(done);
      PhaseOrder(stepped);
      PhaseOrder(staffed);
      PhaseOrder(tasked);
      PhaseOrder(recorded);
      ok := true;
      if phaseIds != {} {
        ok := DeleteTable(Select(rows, AcceptanceStep, ToPhase, phaseIds), start, mains, done, AcceptanceStep);
      } else {
        NothingToDo(start, mains, done, AcceptanceStep);
      }
      if !ok {
        return;
      }
      if taskIds != {} {
        ok := DeleteTable(Select(rows, TaskExecutor, ToTask, taskIds), start, mains, stepped, TaskExecutor);
        if ok {
          ok := DeleteTable(SelectIds(rows, Task, taskIds), start, mains, staffed, Task);
        }
      } else {
        NoTasks(start, mains);
        NothingToDo(start, mains, stepped, TaskExecutor);
        NothingToDo(start, mains, staffed, Task);
      }
      if !ok {
        return;
      }
      if phaseIds != {} {
        ok := DeleteTable(Select(rows, PhaseHistory, ToPhase, phaseIds), start, mains, tasked, PhaseHistory);
        if ok {
          ok := DeleteTable(SelectIds(rows, Phase, phaseIds), start, mains, recorded, Phase);
        }
      } else {
        NothingToDo(start, mains, tasked, PhaseHistory);
        NothingToDo(start, mains, recorded, Phase);
      }
    }

    method DeleteSubProjects(mainIds: set<nat>, subIds: set<nat>, ghost start: Rows, ghost done: set<Kind>) returns (ok: bool)
      requires done == PHASES_DONE
      requires Stage(rows, start, mainIds, done) && subIds == SubIds(start, mainIds) && subIds != {}
      modifies this
      ensures Consistent(start) ==> ok
      ensures ok ==> Stage(rows, start, mainIds, done + {HandoverLink} + {Handover} + {Member} + {Review} + {NoCounter} + {Sub})
    {
      hide Ready, Reference, Consistent, Without, Doomed, OwnedIds, SubIds, Deleted, Blocked, SelectIds, Select;
      ghost var linked := done + {HandoverLink};
      ghost var handed := linked + {Handover};
      ghost var staffed := handed + {Member};
      ghost var reviewed := staffed + {Review};
      ghost var counted := reviewed + {NoCounter};
      Victims(start, mainIds, done, HandoverLink, ToSub, subIds);
      Victims(start, mainIds, linked, Handover, ToSub, subIds);
      Victims(start, mainIds, handed, Member, ToSub, subIds);
      TwoColumnVictims(start, mainIds, staffed, Review, ToMain, mainIds, ToSub, subIds);
      Victims(start, mainIds, reviewed, NoCounter, ToMain, mainIds);
      IdVictims(start, mainIds, counted, Sub, subIds);
      SubProjectOrder(done);
      SubProjectOrder(linked);
      SubProjectOrder(handed);
      SubProjectOrder(staffed);
      SubProjectOrder(reviewed);
      SubProjectOrder(counted);
      ok := DeleteTable(Select(rows, HandoverLink, ToSub, subIds), start, mainIds, done, HandoverLink);
      if ok {
        ok := DeleteTable(Select(rows, Handover, ToSub, subIds), start, mainIds, linked, Handover);
      }
      if ok {
        ok := DeleteTable(Select(rows, Member, ToSub, subIds), start, mainIds, handed, Member);
      }
      if ok {
        ok := DeleteTable(Select(rows, Review, ToMain, mainIds) + Select(rows, Review, ToSub, subIds), start, mainIds, staffed, Review);
      }
      if ok {
        ok := DeleteTable(Select(rows, NoCounter, ToMain, mainIds), start, mainIds, reviewed, NoCounter);
      }
      if ok {
        ok := DeleteTable(SelectIds(rows, Sub, subIds), start, mainIds, counted, Sub);
      }
    }

    method DeleteProjects(mainIds: set<nat>, subIds: set<nat>, ghost start: Rows) returns (ok: bool)
      requires Stage(rows, start, mainIds, PHASES_DONE) && subIds == SubIds(start, mainIds)
      modifies this
      ensures Consistent(start) ==> ok && rows == Purged(start, mainIds)
    {
      hide Consistent, Without, Doomed, OwnedIds, SubIds, Deleted, Blocked, SelectIds, Select, Purged, AllDoomed, IsDoomed;
      ghost var done := PHASES_DONE + {Sub, HandoverLink, Handover, Member};
      if subIds != {} {
        ok := DeleteSubProjects(mainIds, subIds, start, PHASES_DONE);
        if !ok {
          return;
        }
        done := PHASES_DONE + {HandoverLink} + {Handover} + {Member} + {Review} + {NoCounter} + {Sub};
      } else {
        NoSubs(start, mainIds);
      }
      IdVictims(start, mainIds, done, Main, mainIds);
      if Consistent(start) {
        AllBut(start, mainIds, done);
        MainStep(start, mainIds, done);
      }
      ok := Delete(SelectIds(rows, Main, mainIds));
    }

    /** No statement is blocked in a consistent store, and what is left is the store without the
        projects and everything that depends on them. */
    method DeleteProjectGraph(mainIds: set<nat>) returns (ok: bool)
      modifies this
      ensures mainIds == {} ==> ok && rows == old(rows)
      ensures Consistent(old(rows)) ==> ok && rows == Purged(old(rows), mainIds)
    {
      hide Consistent, Without, Doomed, OwnedIds, SubIds, Deleted, Blocked, SelectIds, Select, Purged;
      ghost var start := rows;
      StartStage(start, mainIds);
      if mainIds == {} {
        if Consistent(start) {
          NoMains(start);
        }
        return true;
      }
      var subIds := SubIds(rows, mainIds);
      var phaseIds := OwnedIds(rows, Phase, mainIds);
      var taskIds := OwnedIds(rows, Task, mainIds);
      var paymentIds := OwnedIds(rows, Payment, mainIds);
      var documentIds := OwnedIds(rows, Document, mainIds);
      ok := DeletePayments(paymentIds, documentIds, start, mainIds);
      if !ok {
        return;
      }
      ok := DeleteDocuments(phaseIds, subIds, documentIds, start, mainIds);
      if !ok {
        return;
      }
      ghost var filed := {Voucher, Payment, Document, SearchEntry, RevokeRequest};
      ok := DeletePhases(phaseIds, taskIds, start, mainIds, filed);
      if !ok {
        return;
      }
      assert filed + {AcceptanceStep} + {TaskExecutor} + {Task} + {PhaseHistory} + {Phase} == PHASES_DONE;
      ok := DeleteProjects(mainIds, subIds, start);
    }
  }
}
