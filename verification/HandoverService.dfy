/** The handover service: each public method is one transaction over the tables. */
module HandoverServices {
  import opened Wrappers
  import opened Sequences
  import opened Handover

  class HandoverRequestService {
    var projects: map<ProjectId, Project>
    var members: map<(ProjectId, UserId), MemberRole>
    var users: map<UserId, User>
    var requests: map<RequestId, Request>
    var links: seq<Link>
    var handovers: seq<Record>

    constructor (s: State)
      ensures Tables() == s
    {
      projects, members, users, requests, links, handovers := s.projects, s.members, s.users, s.requests, s.links, s.handovers;
    }

    function Tables(): State
      reads this
    {
      State(projects, members, users, requests, links, handovers)
    }

    method Rollback(s: State)
      modifies this
      ensures Tables() == s
    {
      projects, members, users, requests, links, handovers := s.projects, s.members, s.users, s.requests, s.links, s.handovers;
    }

    method ListRequestProjectIds(id: RequestId) returns (ids: seq<ProjectId>)
      ensures ids == LinkedProjects(links, id)
    {
      ids := [];
      var i := 0;
      while i < |links|
        invariant 0 <= i <= |links| && ids == LinkedProjects(links[..i], id)
      {
        assert links[..i + 1][..i] == links[..i];
        if links[i].request == id {
          ids := ids + [links[i].project];
        }
        i := i + 1;
      }
      assert links[..i] == links;
    }

    method CheckProposal(ids: seq<ProjectId>, actor: UserId) returns (error: Option<Error>)
      requires AllExist(Tables(), ids)
      ensures error == ProposalError(Tables(), ids, actor)
    {
      error := None;
      var i := 0;
      while i < |ids| && error == None
        invariant 0 <= i <= |ids| && error == ProposalError(Tables(), ids[..i], actor)
      {
        assert ids[..i + 1][..i] == ids[..i];
        if !projects[ids[i]].active {
          error := Some(Business(3003));
        } else if projects[ids[i]].manager != actor {
          error := Some(PermissionDenied);
        }
        i := i + 1;
      }
      assert ids[..|ids|] == ids;
      FirstErrorStays(Tables(), ids, actor, i);
    }

    lemma {:induction false} FirstErrorStays(s: State, ids: seq<ProjectId>, actor: UserId, i: nat)
      requires AllExist(s, ids) && i <= |ids|
      ensures ProposalError(s, ids[..i], actor).Some? ==> ProposalError(s, ids, actor) == ProposalError(s, ids[..i], actor)
      decreases |ids|
    {
      if i < |ids| {
        FirstErrorStays(s, ids[..|ids| - 1], actor, i);
        assert ids[..|ids| - 1][..i] == ids[..i];
      } else {
        assert ids[..i] == ids;
      }
    }

    method UpsertMembers(p: ProjectId, from: UserId, to: UserId)
      modifies this`members
      ensures members == Promoted(old(members), p, from, to)
    {
      if (p, from) in members {
        members := members[(p, from) := Member];
      }
      members := members[(p, to) := Leader];
    }

    /** Hands the projects over one by one; on an error the earlier ones have already been changed. */
    method ApplyTransferLoop(r: Request, ids: seq<ProjectId>, operator: UserId, now: int) returns (error: Option<Error>)
      requires AllExist(Tables(), ids)
      modifies this
      ensures match Transfer(old(Tables()), r, ids, operator, now)
        case Success(t) => error == None && Tables() == t
        case Failure(e) => error == Some(e)
    {
      hide Promoted;
      ghost var start := Tables();
      var i := 0;
      while i < |ids|
        invariant 0 <= i <= |ids|
        invariant Transfer(start, r, ids[..i], operator, now) == Success(Tables())
      {
        assert ids[..i + 1][..i] == ids[..i];
        var p := ids[i];
        if !projects[p].active || projects[p].manager != r.from {
          TransferFails(start, r, ids, i, operator, now);
          return Some(Business(3003));
        }
        projects := projects[p := projects[p].(manager := r.to)];
        UpsertMembers(p, r.from, r.to);
        handovers := handovers + [Record(p, r.from, r.to, operator, now)];
        i := i + 1;
      }
      assert ids[..i] == ids;
      return None;
    }

    lemma {:induction false} TransferFails(s: State, r: Request, ids: seq<ProjectId>, i: nat, operator: UserId, now: int)
      requires AllExist(s, ids) && i < |ids|
      requires Transfer(s, r, ids[..i + 1], operator, now) == Failure(Business(3003))
      ensures Transfer(s, r, ids, operator, now) == Failure(Business(3003))
      decreases |ids|
    {
      if i + 1 < |ids| {
        assert ids[..|ids| - 1][..i + 1] == ids[..i + 1];
        TransferFails(s, r, ids[..|ids| - 1], i, operator, now);
      } else {
        assert ids[..i + 1] == ids;
      }
    }

    method AddLinks(id: RequestId, ids: seq<ProjectId>)
      modifies this`links
      ensures links == old(links) + LinksOf(id, ids)
    {
      var i := 0;
      while i < |ids|
        invariant 0 <= i <= |ids|
        invariant links == old(links) + LinksOf(id, ids[..i])
      {
        links := links + [Link(id, ids[i])];
        i := i + 1;
      }
      assert ids[..i] == ids;
    }

    method SubmitRequest(actor: UserId, values: seq<ProjectId>, to: UserId, id: RequestId, now: int) returns (error: Option<Error>)
      modifies this
      ensures match Submit(old(Tables()), actor, values, to, id, now)
        case Success(t) => error == None && Tables() == t
        case Failure(e) => error == Some(e) && Tables() == old(Tables())
      ensures error == None <==> MaySubmit(old(Tables()), actor, values, to)
      ensures error == None ==> Submitted(old(Tables()), Tables(), actor, values, to, id, now)
    {
      SubmitMeans(Tables(), actor, values, to, id, now);
      hide Unique, ProposalError, MaySubmit, Submitted;
      if actor !in users || users[actor].role != ProjLeader {
        return Some(PermissionDenied);
      }
      var ids := CollectUnique(values);
      if ids == [] {
        return Some(ValidationFailed);
      }
      if to == actor {
        return Some(Business(3003));
      }
      error := ActiveLeader(Tables(), to);
      if error.Some? {
        return;
      }
      if !AllExist(Tables(), ids) {
        return Some(NotFound);
      }
      error := CheckProposal(ids, actor);
      if error.Some? {
        return;
      }
      requests := requests[id := Request(actor, to, PendingCandidate, now, None, None, None, None, None)];
      AddLinks(id, ids);
      return None;
    }

    method AnswerCandidate(actor: UserId, id: RequestId, accept: bool, now: int) returns (error: Option<Error>)
      modifies this
      ensures match ReviewCandidate(old(Tables()), actor, id, accept, now)
        case Success(t) => error == None && Tables() == t
        case Failure(e) => error == Some(e) && Tables() == old(Tables())
      ensures error == None <==> MayAnswer(old(Tables()), actor, id, accept)
      ensures error == None ==> OnlyRequest(old(Tables()), Tables(), id) && SameHoldings(old(Tables()), Tables())
      ensures error == None && accept ==> requests[id] == old(requests)[id].(status := PendingReview, respondedAt := Some(now))
      ensures error == None && !accept ==> requests[id] == old(requests)[id].(status := CandidateRejected, respondedAt := Some(now))
    {
      AnswerMeans(Tables(), actor, id, accept, now);
      hide MayAnswer;
      if id !in requests {
        return Some(NotFound);
      }
      var saved := Tables();
      var r := requests[id];
      if actor != r.to {
        return Some(PermissionDenied);
      }
      if r.status != PendingCandidate {
        return Some(Business(3003));
      }
      requests := requests[id := r.(respondedAt := Some(now))];
      var ids := ListRequestProjectIds(id);
      if accept {
        requests := requests[id := requests[id].(status := PendingReview)];
        if !AllExist(Tables(), ids) {
          Rollback(saved);
          return Some(NotFound);
        }
      } else {
        requests := requests[id := requests[id].(status := CandidateRejected)];
      }
      return None;
    }

    method Decide(actor: UserId, id: RequestId, approve: bool, now: int) returns (error: Option<Error>)
      modifies this
      ensures match ReviewRequest(old(Tables()), actor, id, approve, now)
        case Success(t) => error == None && Tables() == t
        case Failure(e) => error == Some(e) && Tables() == old(Tables())
      ensures Valid(old(Tables())) ==> (error == None <==> MayDecide(old(Tables()), actor, id, approve))
      ensures Valid(old(Tables())) && error == None ==> OnlyRequest(old(Tables()), Tables(), id)
      ensures Valid(old(Tables())) && error == None && approve ==>
        && requests[id] == old(requests)[id].(status := Approved, reviewer := Some(actor), reviewedAt := Some(now))
        && LinkedHandedOver(old(Tables()), Tables(), id, actor, now)
      ensures Valid(old(Tables())) && error == None && !approve ==>
        && requests[id] == old(requests)[id].(status := ReviewRejected, reviewer := Some(actor), reviewedAt := Some(now))
        && SameHoldings(old(Tables()), Tables())
    {
      if Valid(Tables()) {
        DecideMeans(Tables(), actor, id, approve, now);
      }
      hide Transfer, LinkedProjects, Valid, MayDecide, LinkedHandedOver;
      if id !in requests {
        return Some(NotFound);
      }
      var saved := Tables();
      var r := requests[id];
      if r.status != PendingReview {
        return Some(Business(3003));
      }
      var ids := ListRequestProjectIds(id);
      if !AllExist(Tables(), ids) {
        return Some(NotFound);
      }
      if !CanReview(Tables(), actor, ids) {
        return Some(PermissionDenied);
      }
      requests := requests[id := r.(reviewer := Some(actor), reviewedAt := Some(now))];
      if !approve {
        requests := requests[id := requests[id].(status := ReviewRejected)];
        assert requests == old(requests)[id := requests[id]];
        return None;
      }
      requests := requests[id := requests[id].(status := Approved)];
      assert requests == old(requests)[id := requests[id]];
      error := ActiveLeader(Tables(), r.to);
      if error == None {
        error := ApplyTransferLoop(requests[id], ids, actor, now);
      }
      if error.Some? {
        Rollback(saved);
      }
    }

    method ForceRequest(actor: UserId, id: RequestId, now: int) returns (error: Option<Error>)
      modifies this
      ensures match Force(old(Tables()), actor, id, now)
        case Success(t) => error == None && Tables() == t
        case Failure(e) => error == Some(e) && Tables() == old(Tables())
      ensures Valid(old(Tables())) ==> (error == None <==> MayForce(old(Tables()), actor, id, now))
      ensures Valid(old(Tables())) && error == None ==>
        && OnlyRequest(old(Tables()), Tables(), id) && LinkedHandedOver(old(Tables()), Tables(), id, actor, now)
        && requests[id] == old(requests)[id].(status := Forced, forcedBy := Some(actor), forcedAt := Some(now))
    {
      if Valid(Tables()) {
        ForceMeans(Tables(), actor, id, now);
      }
      hide Transfer, LinkedProjects, Valid, MayForce, LinkedHandedOver;
      if actor !in users || users[actor].role != Admin {
        return Some(PermissionDenied);
      }
      if id !in requests {
        return Some(NotFound);
      }
      var saved := Tables();
      var r := requests[id];
      if r.status != PendingCandidate || now - r.createdAt < ADMIN_FORCE_AFTER {
        return Some(Business(3003));
      }
      var ids := ListRequestProjectIds(id);
      if !AllExist(Tables(), ids) {
        return Some(NotFound);
      }
      requests := requests[id := r.(status := Forced, forcedBy := Some(actor), forcedAt := Some(now))];
      error := ActiveLeader(Tables(), r.to);
      if error == None {
        error := ApplyTransferLoop(requests[id], ids, actor, now);
      }
      if error.Some? {
        Rollback(saved);
      }
    }
  }
}
