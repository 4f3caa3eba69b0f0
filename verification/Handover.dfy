/** The handover protocol: a project leader proposes a successor, who accepts or refuses; a reviewer
    decides, or an administrator forces the handover after a week without an answer. */
module Handover {
  import opened Wrappers
  import opened Sequences
  import opened Calendar

  type UserId = nat
  type ProjectId = nat
  type RequestId = nat

  const ADMIN_FORCE_AFTER := 7 * DAY

  datatype UserRole = Admin | DeptManager | ProjLeader | OtherRole

  datatype User = User(role: UserRole, active: bool, deptId: Option<nat>)

  /** `active`: the status is one of not started, in progress and completed. */
  datatype Project = Project(manager: UserId, deptId: nat, active: bool)

  datatype MemberRole = Leader | Member

  datatype Status = PendingCandidate | CandidateRejected | PendingReview | ReviewRejected | Approved | Forced

  datatype Request = Request(
    from: UserId, to: UserId, status: Status, createdAt: int, respondedAt: Option<int>,
    reviewer: Option<UserId>, reviewedAt: Option<int>, forcedBy: Option<UserId>, forcedAt: Option<int>)

  datatype Link = Link(request: RequestId, project: ProjectId)

  datatype Record = Record(project: ProjectId, from: UserId, to: UserId, operator: UserId, at: int)

  datatype State = State(
    projects: map<ProjectId, Project>, members: map<(ProjectId, UserId), MemberRole>, users: map<UserId, User>,
    requests: map<RequestId, Request>, links: seq<Link>, handovers: seq<Record>)

  // ---------------------------------------------------------------- pieces

  /** `list_request_project_ids`. */
  function LinkedProjects(links: seq<Link>, id: RequestId): seq<ProjectId> {
    if links == [] then []
    else
      var rest := LinkedProjects(links[..|links| - 1], id);
      if links[|links| - 1].request == id then rest + [links[|links| - 1].project] else rest
  }

  function ActiveLeader(s: State, user: UserId): Option<Error> {
    if user !in s.users then Some(NotFound)
    else if s.users[user].role != ProjLeader || !s.users[user].active then Some(Business(3003))
    else None
  }

  predicate AllExist(s: State, ids: seq<ProjectId>) {
    forall i :: 0 <= i < |ids| ==> ids[i] in s.projects
  }

  /** The first reason why `actor` may not propose these projects. */
  function ProposalError(s: State, ids: seq<ProjectId>, actor: UserId): Option<Error>
    requires AllExist(s, ids)
  {
    if ids == [] then None
    else
      var before := ProposalError(s, ids[..|ids| - 1], actor);
      if before.Some? then before
      else if !s.projects[ids[|ids| - 1]].active then Some(Business(3003))
      else if s.projects[ids[|ids| - 1]].manager != actor then Some(PermissionDenied)
      else None
  }

  predicate CanReview(s: State, actor: UserId, ids: seq<ProjectId>)
    requires AllExist(s, ids)
  {
    && actor in s.users
    && (s.users[actor].role == Admin
        || (s.users[actor].role == DeptManager && forall i :: 0 <= i < |ids| ==> s.users[actor].deptId == Some(s.projects[ids[i]].deptId)))
  }

  /** `_upsert_members`. */
  function Promoted(members: map<(ProjectId, UserId), MemberRole>, p: ProjectId, from: UserId, to: UserId): map<(ProjectId, UserId), MemberRole> {
    var demoted := if (p, from) in members then members[(p, from) := Member] else members;
    demoted[(p, to) := Leader]
  }

  function TransferOne(s: State, r: Request, p: ProjectId, operator: UserId, now: int): Result<State>
    requires p in s.projects
  {
    if !s.projects[p].active then Failure(Business(3003))
    else if s.projects[p].manager != r.from then Failure(Business(3003))
    else Success(s.(projects := s.projects[p := s.projects[p].(manager := r.to)],
                    members := Promoted(s.members, p, r.from, r.to),
                    handovers := s.handovers + [Record(p, r.from, r.to, operator, now)]))
  }

  /** The loop of `_apply_transfer`; one bad project fails the whole transfer. */
  function Transfer(s: State, r: Request, ids: seq<ProjectId>, operator: UserId, now: int): (t: Result<State>)
    requires AllExist(s, ids)
    ensures t.Success? ==> t.value.projects.Keys == s.projects.Keys
    decreases |ids|
  {
    if ids == [] then Success(s)
    else
      match Transfer(s, r, ids[..|ids| - 1], operator, now)
      case Failure(e) => Failure(e)
      case Success(t) => TransferOne(t, r, ids[|ids| - 1], operator, now)
  }

  function ApplyTransfer(s: State, r: Request, ids: seq<ProjectId>, operator: UserId, now: int): Result<State>
    requires AllExist(s, ids)
  {
    match ActiveLeader(s, r.to)
    case Some(e) => Failure(e)
    case None => Transfer(s, r, ids, operator, now)
  }

  function LinksOf(id: RequestId, ids: seq<ProjectId>): seq<Link> {
    seq(|ids|, i requires 0 <= i < |ids| => Link(id, ids[i]))
  }

  // ---------------------------------------------------------------- the transitions

  function Submit(s: State, actor: UserId, ids: seq<ProjectId>, to: UserId, id: RequestId, now: int): Result<State> {
    if actor !in s.users || s.users[actor].role != ProjLeader then Failure(PermissionDenied)
    else
      var projects := Unique(ids);
      if projects == [] then Failure(ValidationFailed)
      else if to == actor then Failure(Business(3003))
      else if ActiveLeader(s, to).Some? then Failure(ActiveLeader(s, to).value)
      else if !AllExist(s, projects) then Failure(NotFound)
      else if ProposalError(s, projects, actor).Some? then Failure(ProposalError(s, projects, actor).value)
      else Success(s.(requests := s.requests[id := Request(actor, to, PendingCandidate, now, None, None, None, None, None)],
                      links := s.links + LinksOf(id, projects)))
  }

  function ReviewCandidate(s: State, actor: UserId, id: RequestId, accept: bool, now: int): Result<State> {
    if id !in s.requests then Failure(NotFound)
    else
      var r := s.requests[id];
      if actor != r.to then Failure(PermissionDenied)
      else if r.status != PendingCandidate then Failure(Business(3003))
      else if accept && !AllExist(s, LinkedProjects(s.links, id)) then Failure(NotFound)
      else
        var status := if accept then PendingReview else CandidateRejected;
        Success(s.(requests := s.requests[id := r.(status := status, respondedAt := Some(now))]))
  }

  function ReviewRequest(s: State, actor: UserId, id: RequestId, approve: bool, now: int): Result<State> {
    if id !in s.requests then Failure(NotFound)
    else
      var r := s.requests[id];
      var ids := LinkedProjects(s.links, id);
      if r.status != PendingReview then Failure(Business(3003))
      else if !AllExist(s, ids) then Failure(NotFound)
      else if !CanReview(s, actor, ids) then Failure(PermissionDenied)
      else
        var reviewed := r.(status := if approve then Approved else ReviewRejected, reviewer := Some(actor), reviewedAt := Some(now));
        var t := s.(requests := s.requests[id := reviewed]);
        if approve then ApplyTransfer(t, reviewed, ids, actor, now) else Success(t)
  }

  function Force(s: State, actor: UserId, id: RequestId, now: int): Result<State> {
    if actor !in s.users || s.users[actor].role != Admin then Failure(PermissionDenied)
    else if id !in s.requests then Failure(NotFound)
    else
      var r := s.requests[id];
      var ids := LinkedProjects(s.links, id);
      if r.status != PendingCandidate then Failure(Business(3003))
      else if now - r.createdAt < ADMIN_FORCE_AFTER then Failure(Business(3003))
      else if !AllExist(s, ids) then Failure(NotFound)
      else
        var forced := r.(status := Forced, forcedBy := Some(actor), forcedAt := Some(now));
        ApplyTransfer(s.(requests := s.requests[id := forced]), forced, ids, actor, now)
  }

  // ---------------------------------------------------------------- what the transitions do

  /** The project was proposed in the request. */
  predicate IsLinked(links: seq<Link>, id: RequestId, p: ProjectId) {
    Link(id, p) in links
  }

  lemma {:induction false} LinkedMeans(links: seq<Link>, id: RequestId)
    ensures forall p :: p in LinkedProjects(links, id) <==> IsLinked(links, id, p)
  {
    if links != [] {
      var before, last := links[..|links| - 1], links[|links| - 1];
      LinkedMeans(before, id);
      assert links == before + [last];
      forall p
        ensures p in LinkedProjects(links, id) <==> IsLinked(links, id, p)
      {
        assert IsLinked(links, id, p) <==> IsLinked(before, id, p) || last == Link(id, p);
      }
    }
  }

  /** The listed projects went from one manager to another: manager, leader row, former leader's row, and one
      record each, in order; all other projects, member rows and records stay. */
  ghost predicate HandsOver(s: State, t: State, ids: seq<ProjectId>, from: UserId, to: UserId, operator: UserId, now: int) {
    && t.projects.Keys == s.projects.Keys
    && (forall p :: p in s.projects ==> t.projects[p] == if p in ids then s.projects[p].(manager := to) else s.projects[p])
    && t.members.Keys == s.members.Keys + (set p | p in ids :: (p, to))
    && (forall p, u :: (p, u) in t.members ==>
          t.members[(p, u)] == if p in ids && u == to then Leader else if p in ids && u == from then Member else s.members[(p, u)])
    && |t.handovers| == |s.handovers| + |ids| && t.handovers[..|s.handovers|] == s.handovers
    && (forall k :: |s.handovers| <= k < |t.handovers| ==> t.handovers[k] == Record(ids[k - |s.handovers|], from, to, operator, now))
  }

  /** All are active, managed by the giver, and listed once. */
  predicate CanHandOver(s: State, ids: seq<ProjectId>, from: UserId)
    requires AllExist(s, ids)
  {
    && (forall i :: 0 <= i < |ids| ==> s.projects[ids[i]].active && s.projects[ids[i]].manager == from)
    && forall i, j :: 0 <= i < j < |ids| ==> ids[i] != ids[j]
  }

  lemma HandsOverNext(s: State, t: State, r: Request, ids: seq<ProjectId>, p: ProjectId, operator: UserId, now: int)
    requires HandsOver(s, t, ids, r.from, r.to, operator, now) && p in s.projects && r.from != r.to && p !in ids
    requires TransferOne(t, r, p, operator, now).Success?
    ensures HandsOver(s, TransferOne(t, r, p, operator, now).value, ids + [p], r.from, r.to, operator, now)
  {
    var u := TransferOne(t, r, p, operator, now).value;
    var more := ids + [p];
    assert forall q :: q in more <==> q in ids || q == p;
    assert (set q | q in more :: (q, r.to)) == (set q | q in ids :: (q, r.to)) + {(p, r.to)};
  }

  lemma {:induction false} TransferMeans(s: State, r: Request, ids: seq<ProjectId>, operator: UserId, now: int)
    requires AllExist(s, ids) && r.from != r.to
    ensures Transfer(s, r, ids, operator, now).Success? <==> CanHandOver(s, ids, r.from)
    ensures Transfer(s, r, ids, operator, now).Success? ==>
      HandsOver(s, Transfer(s, r, ids, operator, now).value, ids, r.from, r.to, operator, now)
    decreases |ids|
  {
    if ids != [] {
      var before, p := ids[..|ids| - 1], ids[|ids| - 1];
      assert ids == before + [p];
      TransferMeans(s, r, before, operator, now);
      if Transfer(s, r, before, operator, now).Success? {
        var t := Transfer(s, r, before, operator, now).value;
        CanHandOverNext(s, before, p, r.from);
        assert t.projects[p] == if p in before then s.projects[p].(manager := r.to) else s.projects[p];
        hide HandsOver, CanHandOver, Promoted;
        if p !in before && s.projects[p].active && s.projects[p].manager == r.from {
          HandsOverNext(s, t, r, before, p, operator, now);
        }
      } else {
        CanHandOverNext(s, before, p, r.from);
      }
    }
  }

  lemma CanHandOverNext(s: State, before: seq<ProjectId>, p: ProjectId, from: UserId)
    requires AllExist(s, before) && p in s.projects && AllExist(s, before + [p])
    ensures CanHandOver(s, before + [p], from) <==>
      CanHandOver(s, before, from) && p !in before && s.projects[p].active && s.projects[p].manager == from
  {
    var ids := before + [p];
    assert ids[|before|] == p;
    assert forall i :: 0 <= i < |before| ==> ids[i] == before[i];
  }

  // ---------------------------------------------------------------- the invariant

  /** Exactly one member row of the project is the leader's, and it is the manager's. */
  ghost predicate OneLeader(s: State, p: ProjectId)
    requires p in s.projects
  {
    forall u :: (p, u) in s.members && s.members[(p, u)] == Leader <==> u == s.projects[p].manager
  }

  /** The records of a project, up to the last, hand it from user to user and end at `holder`. */
  ghost predicate ChainEnds(hs: seq<Record>, p: ProjectId, holder: UserId) {
    if hs == [] then true
    else
      var last := hs[|hs| - 1];
      if last.project == p then last.to == holder && last.from != last.to && ChainEnds(hs[..|hs| - 1], p, last.from)
      else ChainEnds(hs[..|hs| - 1], p, holder)
  }

  ghost predicate RequestOk(r: Request) {
    && r.from != r.to
    && (r.status == Forced ==> r.forcedAt.Some? && r.forcedAt.value - r.createdAt >= ADMIN_FORCE_AFTER)
    && (r.status == PendingReview || r.status == Approved ==> r.respondedAt.Some?)
    && (r.status == Approved ==> r.reviewer.Some?)
  }

  ghost predicate Valid(s: State) {
    && (forall p :: p in s.projects ==> OneLeader(s, p) && ChainEnds(s.handovers, p, s.projects[p].manager))
    && (forall id :: id in s.requests ==> RequestOk(s.requests[id]))
    && (forall i :: 0 <= i < |s.links| ==> s.links[i].request in s.requests)
  }

  /** What a chain is: givers and receivers differ, each receiver is the next giver, the last receiver is the holder. */
  ghost predicate IsChain(hs: seq<Record>, p: ProjectId, holder: UserId) {
    && (forall i :: 0 <= i < |hs| && hs[i].project == p ==> hs[i].from != hs[i].to)
    && (forall i, j :: 0 <= i < j < |hs| && hs[i].project == p && hs[j].project == p && NoneBetween(hs, p, i, j) ==> hs[i].to == hs[j].from)
    && (forall i :: 0 <= i < |hs| && hs[i].project == p && NoneBetween(hs, p, i, |hs|) ==> hs[i].to == holder)
  }

  ghost predicate NoneBetween(hs: seq<Record>, p: ProjectId, i: int, j: int)
    requires 0 <= i && j <= |hs|
  {
    forall k :: i < k < j ==> hs[k].project != p
  }

  lemma {:induction false} ChainMeans(hs: seq<Record>, p: ProjectId, holder: UserId)
    ensures ChainEnds(hs, p, holder) <==> IsChain(hs, p, holder)
  {
    if hs != [] {
      var n := |hs| - 1;
      var before, last := hs[..n], hs[n];
      if last.project == p {
        ChainMeans(before, p, last.from);
        ChainStep(hs, p, holder);
      } else {
        ChainMeans(before, p, holder);
        ChainSkip(hs, p, holder);
      }
    }
  }

  lemma ChainSkip(hs: seq<Record>, p: ProjectId, holder: UserId)
    requires hs != [] && hs[|hs| - 1].project != p
    ensures IsChain(hs, p, holder) <==> IsChain(hs[..|hs| - 1], p, holder)
  {
    var n := |hs| - 1;
    var before := hs[..n];
    assert forall i, j :: 0 <= i < j <= n ==> (NoneBetween(hs, p, i, j) <==> NoneBetween(before, p, i, j));
    assert forall i :: 0 <= i < n ==> (NoneBetween(hs, p, i, |hs|) <==> NoneBetween(hs, p, i, n));
  }

  lemma ChainStep(hs: seq<Record>, p: ProjectId, holder: UserId)
    requires hs != [] && hs[|hs| - 1].project == p
    ensures IsChain(hs, p, holder) <==>
      hs[|hs| - 1].to == holder && hs[|hs| - 1].from != hs[|hs| - 1].to && IsChain(hs[..|hs| - 1], p, hs[|hs| - 1].from)
  {
    var n := |hs| - 1;
    var before := hs[..n];
    assert forall i, j :: 0 <= i < j <= n ==> (NoneBetween(hs, p, i, j) <==> NoneBetween(before, p, i, j));
    assert NoneBetween(hs, p, n, |hs|);
    assert forall i :: 0 <= i < n ==> !NoneBetween(hs, p, i, |hs|);
    if IsChain(hs, p, holder) {
      assert IsChain(before, p, hs[n].from);
    } else if hs[n].to == holder && hs[n].from != hs[n].to {
      assert !IsChain(before, p, hs[n].from);
    }
  }

  // ---------------------------------------------------------------- every transition keeps the invariant

  lemma TransferOneValid(s: State, r: Request, p: ProjectId, operator: UserId, now: int)
    requires Valid(s) && p in s.projects && r.from != r.to && TransferOne(s, r, p, operator, now).Success?
    ensures Valid(TransferOne(s, r, p, operator, now).value)
  {
    var t := TransferOne(s, r, p, operator, now).value;
    assert t.handovers[..|t.handovers| - 1] == s.handovers;
    forall q | q in t.projects
      ensures OneLeader(t, q) && ChainEnds(t.handovers, q, t.projects[q].manager)
    {
      assert OneLeader(s, q) && ChainEnds(s.handovers, q, s.projects[q].manager);
    }
  }

  lemma {:induction false} TransferValid(s: State, r: Request, ids: seq<ProjectId>, operator: UserId, now: int)
    requires Valid(s) && AllExist(s, ids) && r.from != r.to && Transfer(s, r, ids, operator, now).Success?
    ensures Valid(Transfer(s, r, ids, operator, now).value)
    ensures Transfer(s, r, ids, operator, now).value.requests == s.requests
    ensures Transfer(s, r, ids, operator, now).value.links == s.links
    decreases |ids|
  {
    hide Valid;
    if ids != [] {
      TransferValid(s, r, ids[..|ids| - 1], operator, now);
      TransferOneValid(Transfer(s, r, ids[..|ids| - 1], operator, now).value, r, ids[|ids| - 1], operator, now);
    }
  }

  lemma NewStatusValid(s: State, id: RequestId, r: Request)
    requires Valid(s) && RequestOk(r)
    ensures Valid(s.(requests := s.requests[id := r]))
  {
    var t := s.(requests := s.requests[id := r]);
    assert forall p :: p in t.projects ==> OneLeader(s, p) && (OneLeader(t, p) <==> OneLeader(s, p));
  }

  datatype Command =
    | DoSubmit(actor: UserId, ids: seq<ProjectId>, to: UserId, id: RequestId, now: int)
    | DoReviewCandidate(actor: UserId, id: RequestId, accept: bool, now: int)
    | DoReviewRequest(actor: UserId, id: RequestId, approve: bool, now: int)
    | DoForce(actor: UserId, id: RequestId, now: int)
    | ChangeUser(user: UserId, newUser: User)
    | ChangeActivity(project: ProjectId, active: bool)

  /** Generated request identifiers are new. */
  predicate Enabled(s: State, c: Command) {
    c.DoSubmit? ==> c.id !in s.requests
  }

  function Outcome(s: State, c: Command): Result<State> {
    match c
    case DoSubmit(actor, ids, to, id, now) => Submit(s, actor, ids, to, id, now)
    case DoReviewCandidate(actor, id, accept, now) => ReviewCandidate(s, actor, id, accept, now)
    case DoReviewRequest(actor, id, approve, now) => ReviewRequest(s, actor, id, approve, now)
    case DoForce(actor, id, now) => Force(s, actor, id, now)
    case ChangeUser(user, newUser) => Success(s.(users := s.users[user := newUser]))
    case ChangeActivity(p, active) =>
      if p in s.projects then Success(s.(projects := s.projects[p := s.projects[p].(active := active)])) else Failure(NotFound)
  }

  /** A failed call commits nothing. */
  function Apply(s: State, c: Command): State {
    match Outcome(s, c)
    case Success(t) => t
    case Failure(_) => s
  }

  lemma SubmitValid(s: State, actor: UserId, ids: seq<ProjectId>, to: UserId, id: RequestId, now: int)
    requires Valid(s) && Submit(s, actor, ids, to, id, now).Success?
    ensures Valid(Submit(s, actor, ids, to, id, now).value)
  {
    var t := Submit(s, actor, ids, to, id, now).value;
    NewStatusValid(s, id, t.requests[id]);
    assert forall p :: p in t.projects ==> OneLeader(s, p) && (OneLeader(t, p) <==> OneLeader(s, p));
  }

  lemma CandidateValid(s: State, actor: UserId, id: RequestId, accept: bool, now: int)
    requires Valid(s) && ReviewCandidate(s, actor, id, accept, now).Success?
    ensures Valid(ReviewCandidate(s, actor, id, accept, now).value)
  {
    hide LinkedProjects;
    var t := ReviewCandidate(s, actor, id, accept, now).value;
    NewStatusValid(s, id, t.requests[id]);
  }

  lemma ReviewValid(s: State, actor: UserId, id: RequestId, approve: bool, now: int)
    requires Valid(s) && ReviewRequest(s, actor, id, approve, now).Success?
    ensures Valid(ReviewRequest(s, actor, id, approve, now).value)
  {
    hide LinkedProjects, Transfer;
    var r := s.requests[id];
    var reviewed := r.(status := if approve then Approved else ReviewRejected, reviewer := Some(actor), reviewedAt := Some(now));
    NewStatusValid(s, id, reviewed);
    if approve {
      TransferValid(s.(requests := s.requests[id := reviewed]), reviewed, LinkedProjects(s.links, id), actor, now);
    }
  }

  lemma ForceValid(s: State, actor: UserId, id: RequestId, now: int)
    requires Valid(s) && Force(s, actor, id, now).Success?
    ensures Valid(Force(s, actor, id, now).value)
  {
    hide LinkedProjects, Transfer;
    var forced := s.requests[id].(status := Forced, forcedBy := Some(actor), forcedAt := Some(now));
    NewStatusValid(s, id, forced);
    TransferValid(s.(requests := s.requests[id := forced]), forced, LinkedProjects(s.links, id), actor, now);
  }

  lemma ApplyValid(s: State, c: Command)
    requires Valid(s) && Enabled(s, c)
    ensures Valid(Apply(s, c))
  {
    if Outcome(s, c).Success? {
      match c
      case DoSubmit(actor, ids, to, id, now) => SubmitValid(s, actor, ids, to, id, now);
      case DoReviewCandidate(actor, id, accept, now) => CandidateValid(s, actor, id, accept, now);
      case DoReviewRequest(actor, id, approve, now) => ReviewValid(s, actor, id, approve, now);
      case DoForce(actor, id, now) => ForceValid(s, actor, id, now);
      case ChangeUser(_, _) => SameProjects(s, Apply(s, c));
      case ChangeActivity(_, _) => SameProjects(s, Apply(s, c));
    }
  }

  lemma SameProjects(s: State, t: State)
    requires Valid(s) && t.projects.Keys == s.projects.Keys && t.members == s.members && t.requests == s.requests
    requires t.links == s.links && t.handovers == s.handovers
    requires forall p :: p in s.projects ==> t.projects[p].manager == s.projects[p].manager
    ensures Valid(t)
  {
    assert forall p :: p in t.projects ==> OneLeader(s, p) && (OneLeader(t, p) <==> OneLeader(s, p));
  }

  // ---------------------------------------------------------------- a request only moves forward

  predicate Finished(status: Status) {
    status == CandidateRejected || status == ReviewRejected || status == Approved || status == Forced
  }

  /** The moves of the protocol. */
  predicate Moves(before: Status, after: Status) {
    || before == after
    || (before == PendingCandidate && (after == PendingReview || after == CandidateRejected || after == Forced))
    || (before == PendingReview && (after == Approved || after == ReviewRejected))
  }

  /** One call changes at most one request, along a move of the protocol, and keeps its parties. */
  predicate Progress(before: Request, after: Request) {
    && Moves(before.status, after.status) && (Finished(before.status) ==> after == before)
    && after.from == before.from && after.to == before.to && after.createdAt == before.createdAt
  }

  lemma {:induction false} TransferKeepsRequests(s: State, r: Request, ids: seq<ProjectId>, operator: UserId, now: int)
    requires AllExist(s, ids) && Transfer(s, r, ids, operator, now).Success?
    ensures Transfer(s, r, ids, operator, now).value.requests == s.requests && Transfer(s, r, ids, operator, now).value.links == s.links
    decreases |ids|
  {
    if ids != [] {
      TransferKeepsRequests(s, r, ids[..|ids| - 1], operator, now);
    }
  }

  lemma ApplyProgress(s: State, c: Command, id: RequestId)
    requires Enabled(s, c) && id in s.requests
    ensures id in Apply(s, c).requests && Progress(s.requests[id], Apply(s, c).requests[id])
  {
    hide LinkedProjects, Transfer, Unique, ProposalError;
    if (c.DoReviewRequest? || c.DoForce?) && Outcome(s, c).Success? {
      var r := s.requests[c.id];
      var next := if c.DoForce? then r.(status := Forced, forcedBy := Some(c.actor), forcedAt := Some(c.now))
        else r.(status := if c.approve then Approved else ReviewRejected, reviewer := Some(c.actor), reviewedAt := Some(c.now));
      if c.DoForce? || c.approve {
        TransferKeepsRequests(s.(requests := s.requests[c.id := next]), next, LinkedProjects(s.links, c.id), c.actor, c.now);
      }
    }
  }

  // ---------------------------------------------------------------- what the calls do

  predicate IsActiveLeader(s: State, user: UserId) {
    user in s.users && s.users[user].role == ProjLeader && s.users[user].active
  }

  /** Only one request changed, and no user or link. */
  ghost predicate OnlyRequest(s: State, t: State, id: RequestId) {
    && id in s.requests && t.requests.Keys == s.requests.Keys && (forall q :: q in s.requests && q != id ==> t.requests[q] == s.requests[q])
    && t.users == s.users && t.links == s.links
  }

  ghost predicate SameHoldings(s: State, t: State) {
    t.projects == s.projects && t.members == s.members && t.handovers == s.handovers
  }

  /** The linked projects went to the request's receiver. */
  ghost predicate LinkedHandedOver(s: State, t: State, id: RequestId, operator: UserId, now: int)
    requires id in s.requests
  {
    && HandsOver(s, t, LinkedProjects(s.links, id), s.requests[id].from, s.requests[id].to, operator, now)
    && forall p :: IsLinked(s.links, id, p) ==> p in t.projects && t.projects[p].manager == s.requests[id].to
  }

  ghost predicate LinkedCanMove(s: State, id: RequestId)
    requires id in s.requests
  {
    var ids := LinkedProjects(s.links, id);
    AllExist(s, ids) && IsActiveLeader(s, s.requests[id].to) && CanHandOver(s, ids, s.requests[id].from)
  }

  lemma ApplyTransferMeans(s: State, t: State, id: RequestId, operator: UserId, now: int)
    requires id in s.requests && s.requests[id].from != s.requests[id].to
    requires t.projects == s.projects && t.members == s.members && t.handovers == s.handovers && t.users == s.users
    requires id in t.requests && t.requests[id].from == s.requests[id].from && t.requests[id].to == s.requests[id].to
    requires AllExist(t, LinkedProjects(s.links, id))
    ensures var u := ApplyTransfer(t, t.requests[id], LinkedProjects(s.links, id), operator, now);
      && (u.Success? <==> LinkedCanMove(s, id))
      && (u.Success? ==> LinkedHandedOver(s, u.value, id, operator, now)
                         && u.value.requests == t.requests && u.value.links == t.links && u.value.users == t.users)
  {
    hide CanHandOver, HandsOver, Transfer;
    var ids := LinkedProjects(s.links, id);
    LinkedMeans(s.links, id);
    TransferMeans(t, t.requests[id], ids, operator, now);
    SameProjectsCan(s, t, ids, s.requests[id].from);
    if Transfer(t, t.requests[id], ids, operator, now).Success? {
      var u := Transfer(t, t.requests[id], ids, operator, now).value;
      TransferKeepsOthers(t, t.requests[id], ids, operator, now);
      SameProjectsMoved(s, t, u, ids, s.requests[id].from, s.requests[id].to, operator, now);
      NewManagers(s, u, ids, s.requests[id].from, s.requests[id].to, operator, now);
    }
  }

  lemma SameProjectsCan(s: State, t: State, ids: seq<ProjectId>, from: UserId)
    requires AllExist(s, ids) && t.projects == s.projects
    ensures CanHandOver(t, ids, from) <==> CanHandOver(s, ids, from)
  {
  }

  lemma SameProjectsMoved(s: State, t: State, u: State, ids: seq<ProjectId>, from: UserId, to: UserId, operator: UserId, now: int)
    requires HandsOver(t, u, ids, from, to, operator, now) && SameHoldings(s, t)
    ensures HandsOver(s, u, ids, from, to, operator, now)
  {
  }

  lemma NewManagers(s: State, u: State, ids: seq<ProjectId>, from: UserId, to: UserId, operator: UserId, now: int)
    requires HandsOver(s, u, ids, from, to, operator, now) && AllExist(s, ids)
    ensures forall p :: p in ids ==> p in u.projects && u.projects[p].manager == to
  {
  }

  lemma {:induction false} TransferKeepsOthers(s: State, r: Request, ids: seq<ProjectId>, operator: UserId, now: int)
    requires AllExist(s, ids) && Transfer(s, r, ids, operator, now).Success?
    ensures var t := Transfer(s, r, ids, operator, now).value; t.requests == s.requests && t.links == s.links && t.users == s.users
    decreases |ids|
  {
    if ids != [] {
      TransferKeepsOthers(s, r, ids[..|ids| - 1], operator, now);
    }
  }

  /** Who may propose which projects to whom. */
  ghost predicate MaySubmit(s: State, actor: UserId, values: seq<ProjectId>, to: UserId) {
    && actor in s.users && s.users[actor].role == ProjLeader && values != [] && to != actor && IsActiveLeader(s, to)
    && forall p :: p in values ==> p in s.projects && s.projects[p].active && s.projects[p].manager == actor
  }

  /** A pending request of the actor, linked once to each of the projects; nothing else changed. */
  ghost predicate Submitted(s: State, t: State, actor: UserId, values: seq<ProjectId>, to: UserId, id: RequestId, now: int) {
    && t.requests == s.requests[id := Request(actor, to, PendingCandidate, now, None, None, None, None, None)]
    && SameHoldings(s, t) && t.users == s.users
    && |t.links| >= |s.links| && t.links[..|s.links|] == s.links
    && (forall k :: |s.links| <= k < |t.links| ==> t.links[k].request == id && t.links[k].project in values)
    && (forall p :: p in values ==> Link(id, p) in t.links[|s.links|..])
    && forall k, l :: |s.links| <= k < l < |t.links| ==> t.links[k] != t.links[l]
  }

  lemma {:induction false} ProposalMeans(s: State, ids: seq<ProjectId>, actor: UserId)
    requires AllExist(s, ids)
    ensures ProposalError(s, ids, actor).None? <==> forall p :: p in ids ==> s.projects[p].active && s.projects[p].manager == actor
  {
    if ids != [] {
      ProposalMeans(s, ids[..|ids| - 1], actor);
      assert ids == ids[..|ids| - 1] + [ids[|ids| - 1]];
    }
  }

  lemma SubmitMeans(s: State, actor: UserId, values: seq<ProjectId>, to: UserId, id: RequestId, now: int)
    ensures var r := Submit(s, actor, values, to, id, now);
      (r.Success? <==> MaySubmit(s, actor, values, to)) && (r.Success? ==> Submitted(s, r.value, actor, values, to, id, now))
  {
    hide ProposalError, Unique;
    var ids := Unique(values);
    UniqueMeans(values);
    assert ids == [] ==> values == [] by {
      if values != [] { assert values[0] in values; }
    }
    assert values == [] ==> ids == [] by {
      if ids != [] { assert ids[0] in ids; }
    }
    if AllExist(s, ids) {
      ProposalMeans(s, ids, actor);
    }
    if Submit(s, actor, values, to, id, now).Success? {
      var t := Submit(s, actor, values, to, id, now).value;
      assert t.links[|s.links|..] == LinksOf(id, ids);
      forall p | p in values
        ensures Link(id, p) in LinksOf(id, ids)
      {
        var k :| 0 <= k < |ids| && ids[k] == p;
        assert LinksOf(id, ids)[k] == Link(id, p);
      }
      forall k | |s.links| <= k < |t.links|
        ensures t.links[k].request == id && t.links[k].project in values
      {
        assert t.links[k] == Link(id, ids[k - |s.links|]);
        assert ids[k - |s.links|] in ids;
      }
    }
  }

  /** Only the candidate answers, and only once. */
  ghost predicate MayAnswer(s: State, actor: UserId, id: RequestId, accept: bool) {
    && id in s.requests && s.requests[id].to == actor && s.requests[id].status == PendingCandidate
    && (accept ==> forall p :: IsLinked(s.links, id, p) ==> p in s.projects)
  }

  lemma AnswerMeans(s: State, actor: UserId, id: RequestId, accept: bool, now: int)
    ensures var r := ReviewCandidate(s, actor, id, accept, now);
      (r.Success? <==> MayAnswer(s, actor, id, accept)) && (r.Success? ==> OnlyRequest(s, r.value, id) && SameHoldings(s, r.value))
    ensures var r := ReviewCandidate(s, actor, id, accept, now);
      && (r.Success? && accept ==> r.value.requests[id] == s.requests[id].(status := PendingReview, respondedAt := Some(now)))
      && (r.Success? && !accept ==> r.value.requests[id] == s.requests[id].(status := CandidateRejected, respondedAt := Some(now)))
  {
    LinkedMeans(s.links, id);
    AllLinked(s, id);
  }

  lemma AllLinked(s: State, id: RequestId)
    ensures AllExist(s, LinkedProjects(s.links, id)) <==> forall p :: IsLinked(s.links, id, p) ==> p in s.projects
  {
    LinkedMeans(s.links, id);
    var ids := LinkedProjects(s.links, id);
    if AllExist(s, ids) {
      forall p | p in ids
        ensures p in s.projects
      {
        var k :| 0 <= k < |ids| && ids[k] == p;
      }
    }
  }

  /** An administrator, or the manager of the department of all the projects. */
  ghost predicate MayDecide(s: State, actor: UserId, id: RequestId, approve: bool) {
    && id in s.requests && s.requests[id].status == PendingReview
    && (forall p :: IsLinked(s.links, id, p) ==> p in s.projects)
    && actor in s.users
    && (s.users[actor].role == Admin
        || (s.users[actor].role == DeptManager
            && forall p :: IsLinked(s.links, id, p) ==> s.users[actor].deptId == Some(s.projects[p].deptId)))
    && (approve ==> LinkedCanMove(s, id))
  }

  lemma DecideMeans(s: State, actor: UserId, id: RequestId, approve: bool, now: int)
    requires Valid(s)
    ensures var r := ReviewRequest(s, actor, id, approve, now);
      (r.Success? <==> MayDecide(s, actor, id, approve)) && (r.Success? ==> OnlyRequest(s, r.value, id))
    ensures var r := ReviewRequest(s, actor, id, approve, now);
      && (r.Success? && approve ==>
            && r.value.requests[id] == s.requests[id].(status := Approved, reviewer := Some(actor), reviewedAt := Some(now))
            && LinkedHandedOver(s, r.value, id, actor, now))
      && (r.Success? && !approve ==>
            && r.value.requests[id] == s.requests[id].(status := ReviewRejected, reviewer := Some(actor), reviewedAt := Some(now))
            && SameHoldings(s, r.value))
  {
    hide LinkedCanMove, LinkedHandedOver, ApplyTransfer, OneLeader, ChainEnds;
    if id in s.requests {
      assert RequestOk(s.requests[id]);
      var ids := LinkedProjects(s.links, id);
      LinkedMeans(s.links, id);
      AllLinked(s, id);
      if AllExist(s, ids) && approve {
        var reviewed := s.requests[id].(status := Approved, reviewer := Some(actor), reviewedAt := Some(now));
        ApplyTransferMeans(s, s.(requests := s.requests[id := reviewed]), id, actor, now);
      }
    }
  }

  /** An administrator, a week after the request, while the candidate has not answered. */
  ghost predicate MayForce(s: State, actor: UserId, id: RequestId, now: int) {
    && actor in s.users && s.users[actor].role == Admin
    && id in s.requests && s.requests[id].status == PendingCandidate && now - s.requests[id].createdAt >= 7 * DAY
    && LinkedCanMove(s, id)
  }

  lemma ForceMeans(s: State, actor: UserId, id: RequestId, now: int)
    requires Valid(s)
    ensures var r := Force(s, actor, id, now);
      && (r.Success? <==> MayForce(s, actor, id, now))
      && (r.Success? ==>
            && OnlyRequest(s, r.value, id) && LinkedHandedOver(s, r.value, id, actor, now)
            && r.value.requests[id] == s.requests[id].(status := Forced, forcedBy := Some(actor), forcedAt := Some(now)))
  {
    hide LinkedHandedOver, ApplyTransfer, OneLeader, ChainEnds, CanHandOver;
    if id in s.requests {
      assert RequestOk(s.requests[id]);
      if AllExist(s, LinkedProjects(s.links, id)) {
        var forced := s.requests[id].(status := Forced, forcedBy := Some(actor), forcedAt := Some(now));
        ApplyTransferMeans(s, s.(requests := s.requests[id := forced]), id, actor, now);
      }
    }
  }

  // ---------------------------------------------------------------- runs

  ghost predicate IsRun(s: State, run: seq<Command>)
    decreases |run|
  {
    run == [] || (Enabled(s, run[0]) && IsRun(Apply(s, run[0]), run[1..]))
  }

  ghost function Final(s: State, run: seq<Command>): State
    decreases |run|
  {
    if run == [] then s else Final(Apply(s, run[0]), run[1..])
  }

  lemma {:induction false} RunValid(s: State, run: seq<Command>)
    requires Valid(s) && IsRun(s, run)
    ensures Valid(Final(s, run))
    decreases |run|
  {
    hide Valid, Apply, Enabled;
    if run != [] {
      ApplyValid(s, run[0]);
      RunValid(Apply(s, run[0]), run[1..]);
    }
  }

  /** Over every run, a project's records form a chain that ends at its manager, who holds the one leader row. */
  lemma RunKeepsChain(s: State, run: seq<Command>, p: ProjectId)
    requires Valid(s) && IsRun(s, run) && p in Final(s, run).projects
    ensures var t := Final(s, run);
      IsChain(t.handovers, p, t.projects[p].manager) && OneLeader(t, p)
  {
    hide ChainEnds, IsChain, IsRun, Final;
    RunValid(s, run);
    var t := Final(s, run);
    ChainMeans(t.handovers, p, t.projects[p].manager);
  }

  /** Over every run, a finished request never changes, and any request only moves forward. */
  lemma {:induction false} RunFinishedStays(s: State, run: seq<Command>, id: RequestId)
    requires IsRun(s, run) && id in s.requests
    ensures id in Final(s, run).requests
    ensures Finished(s.requests[id].status) ==> Final(s, run).requests[id] == s.requests[id]
    ensures Final(s, run).requests[id].from == s.requests[id].from && Final(s, run).requests[id].to == s.requests[id].to
    decreases |run|
  {
    hide Apply, Enabled;
    if run != [] {
      ApplyProgress(s, run[0], id);
      RunFinishedStays(Apply(s, run[0]), run[1..], id);
    }
  }

  // ---------------------------------------------------------------- accounting

  /** A project that went from one user to another. */
  datatype Fact = Fact(project: ProjectId, from: UserId, to: UserId)

  ghost function RecordFacts(hs: seq<Record>): multiset<Fact> {
    if hs == [] then multiset{}
    else RecordFacts(hs[..|hs| - 1]) + multiset{Fact(hs[|hs| - 1].project, hs[|hs| - 1].from, hs[|hs| - 1].to)}
  }

  predicate Effective(requests: map<RequestId, Request>, link: Link) {
    link.request in requests && (requests[link.request].status == Approved || requests[link.request].status == Forced)
  }

  ghost function LinkFact(requests: map<RequestId, Request>, link: Link): multiset<Fact> {
    if Effective(requests, link) then multiset{Fact(link.project, requests[link.request].from, requests[link.request].to)} else multiset{}
  }

  /** One fact for each project of each approved or forced request. */
  ghost function RequestFacts(links: seq<Link>, requests: map<RequestId, Request>): multiset<Fact> {
    if links == [] then multiset{}
    else RequestFacts(links[..|links| - 1], requests) + LinkFact(requests, links[|links| - 1])
  }

  ghost function Facts(ids: seq<ProjectId>, r: Request): multiset<Fact> {
    if ids == [] then multiset{} else Facts(ids[..|ids| - 1], r) + multiset{Fact(ids[|ids| - 1], r.from, r.to)}
  }

  /** The handover records are exactly what the approved and forced requests asked for. */
  ghost predicate Accounted(s: State) {
    RecordFacts(s.handovers) == RequestFacts(s.links, s.requests)
  }

  lemma {:induction false} TransferFacts(s: State, r: Request, ids: seq<ProjectId>, operator: UserId, now: int)
    requires AllExist(s, ids) && Transfer(s, r, ids, operator, now).Success?
    ensures RecordFacts(Transfer(s, r, ids, operator, now).value.handovers) == RecordFacts(s.handovers) + Facts(ids, r)
    decreases |ids|
  {
    if ids != [] {
      TransferFacts(s, r, ids[..|ids| - 1], operator, now);
      var before := Transfer(s, r, ids[..|ids| - 1], operator, now).value;
      var after := Transfer(s, r, ids, operator, now).value;
      assert after.handovers[..|after.handovers| - 1] == before.handovers;
    }
  }

  /** Completing a request adds the facts of its projects; any other change of one request adds none. */
  lemma {:induction false} ChangedRequestFacts(links: seq<Link>, requests: map<RequestId, Request>, id: RequestId, r: Request)
    requires id in requests ==> requests[id].status != Approved && requests[id].status != Forced
    ensures RequestFacts(links, requests[id := r])
      == RequestFacts(links, requests) + if r.status == Approved || r.status == Forced then Facts(LinkedProjects(links, id), r) else multiset{}
  {
    hide RequestFacts, Facts, LinkedProjects, Effective;
    var done := r.status == Approved || r.status == Forced;
    RequestFactsLast(links, requests);
    RequestFactsLast(links, requests[id := r]);
    if links == [] {
      NoLinks(id, r);
    } else {
      var before, last := links[..|links| - 1], links[|links| - 1];
      ChangedRequestFacts(before, requests, id, r);
      LinkedLast(links, id);
      FactsAppend(LinkedProjects(before, id), last.project, r);
      ChangedLinkFact(last, requests, id, r);
      assert LinkedProjects(before, id) + [] == LinkedProjects(before, id);
    }
  }

  lemma NoLinks(id: RequestId, r: Request)
    ensures Facts(LinkedProjects([], id), r) == multiset{}
  {
  }

  lemma RequestFactsLast(links: seq<Link>, requests: map<RequestId, Request>)
    ensures links == [] ==> RequestFacts(links, requests) == multiset{}
    ensures links != [] ==> RequestFacts(links, requests) == RequestFacts(links[..|links| - 1], requests) + LinkFact(requests, links[|links| - 1])
  {
  }

  lemma FactsAppend(ids: seq<ProjectId>, p: ProjectId, r: Request)
    ensures Facts(ids + [p], r) == Facts(ids, r) + multiset{Fact(p, r.from, r.to)}
  {
    assert (ids + [p])[..|ids + [p]| - 1] == ids;
  }

  ghost function FactIfDone(p: ProjectId, r: Request): multiset<Fact> {
    if r.status == Approved || r.status == Forced then multiset{Fact(p, r.from, r.to)} else multiset{}
  }

  lemma ChangedLinkFact(link: Link, requests: map<RequestId, Request>, id: RequestId, r: Request)
    requires id in requests ==> requests[id].status != Approved && requests[id].status != Forced
    ensures link.request != id ==> LinkFact(requests[id := r], link) == LinkFact(requests, link)
    ensures link.request == id ==> LinkFact(requests, link) == multiset{}
    ensures link.request == id ==> LinkFact(requests[id := r], link) == FactIfDone(link.project, r)
  {
  }

  lemma LinkedLast(links: seq<Link>, id: RequestId)
    requires links != []
    ensures LinkedProjects(links, id) == LinkedProjects(links[..|links| - 1], id)
      + if links[|links| - 1].request == id then [links[|links| - 1].project] else []
  {
  }

  lemma {:induction false} PendingLinkFacts(links: seq<Link>, requests: map<RequestId, Request>, more: seq<Link>)
    requires forall i :: 0 <= i < |more| ==> !Effective(requests, more[i])
    ensures RequestFacts(links + more, requests) == RequestFacts(links, requests)
  {
    if more == [] {
      assert links + more == links;
    } else {
      PendingLinkFacts(links, requests, more[..|more| - 1]);
      assert (links + more)[..|links + more| - 1] == links + more[..|more| - 1];
    }
  }

  lemma ApplyAccounted(s: State, c: Command)
    requires Enabled(s, c) && Accounted(s)
    ensures Accounted(Apply(s, c))
  {
    hide LinkedProjects, Transfer, Unique, ProposalError, RequestFacts, RecordFacts, Facts;
    if Outcome(s, c).Success? && !c.ChangeUser? && !c.ChangeActivity? {
      var t := Apply(s, c);
      if c.DoSubmit? {
        PendingLinkFacts(s.links, t.requests, LinksOf(c.id, Unique(c.ids)));
        ChangedRequestFacts(s.links, s.requests, c.id, t.requests[c.id]);
      } else if c.DoReviewCandidate? {
        ChangedRequestFacts(s.links, s.requests, c.id, t.requests[c.id]);
      } else {
        var r := s.requests[c.id];
        var next := if c.DoForce? then r.(status := Forced, forcedBy := Some(c.actor), forcedAt := Some(c.now))
          else r.(status := if c.approve then Approved else ReviewRejected, reviewer := Some(c.actor), reviewedAt := Some(c.now));
        ChangedRequestFacts(s.links, s.requests, c.id, next);
        if c.DoForce? || c.approve {
          TransferFacts(s.(requests := s.requests[c.id := next]), next, LinkedProjects(s.links, c.id), c.actor, c.now);
          TransferKeepsRequests(s.(requests := s.requests[c.id := next]), next, LinkedProjects(s.links, c.id), c.actor, c.now);
        }
      }
    }
  }

  /** Over every run, each project of each approved or forced request was handed over exactly once for
      that request, and nothing else was handed over. */
  lemma {:induction false} RunAccounted(s: State, run: seq<Command>)
    requires IsRun(s, run) && Accounted(s)
    ensures Accounted(Final(s, run))
    decreases |run|
  {
    hide Apply, Enabled, Accounted;
    if run != [] {
      ApplyAccounted(s, run[0]);
      RunAccounted(Apply(s, run[0]), run[1..]);
    }
  }
}
