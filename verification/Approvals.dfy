/**
 Two-approver requests and the erasure of a user that they gate.  The flag `unique` says
 whether the database refuses a second decision by one approver; every result holds
 either way.
 */
module Approvals {
  import opened Wrappers

  type UserId = nat

  datatype Role = SUPERADMIN | OWNER | OPERATOR
  datatype Verb = APPROVE | REJECT
  datatype Decision = Decision(approver: UserId, verb: Verb)
  datatype Phase = PENDING | APPROVED | REJECTED | CANCELLED
  datatype Action = REVOKE_USER | OTHER_ACTION
  /** `onUser` tells whether the target is a user; other targets have ids of their own. */
  datatype Request = Request(requester: UserId, action: Action, onUser: bool, target: nat, phase: Phase,
                             decisions: seq<Decision>)

  const APPROVALS_NEEDED := 2

  function CountApprovals(ds: seq<Decision>): nat {
    if ds == [] then 0 else (if ds[0].verb == APPROVE then 1 else 0) + CountApprovals(ds[1..])
  }

  function ByOthers(ds: seq<Decision>, approver: UserId): seq<Decision> {
    if ds == [] then []
    else if ds[0].approver != approver then [ds[0]] + ByOthers(ds[1..], approver)
    else ByOthers(ds[1..], approver)
  }

  function Decide(r: Request, approver: UserId, role: Role, verb: Verb, unique: bool): (Request, Reply) {
    if role != SUPERADMIN && role != OWNER then (r, Forbidden)
    else if r.phase != PENDING then (r, BadRequest)
    else if r.requester == approver then (r, Forbidden)
    else if unique && exists d | d in r.decisions :: d.approver == approver then (r, BadRequest)
    else
      var mine := Decision(approver, verb);
      var counted := ByOthers(r.decisions, approver) + [mine];
      var phase :=
        if verb == REJECT then REJECTED
        else if CountApprovals(counted) >= APPROVALS_NEEDED then APPROVED
        else PENDING;
      (r.(decisions := r.decisions + [mine], phase := phase), Done)
  }

  function Cancel(r: Request, user: UserId): (Request, Reply) {
    if r.requester != user then (r, Forbidden)
    else if r.phase != PENDING then (r, BadRequest)
    else (r.(phase := CANCELLED), Done)
  }

  /** The same calls on the table of requests. */
  class ApprovalsService {
    var requests: map<nat, Request>

    constructor ()
      ensures requests == map[]
    {
      requests := map[];
    }

    method RequestApproval(id: nat, requester: UserId, action: Action, onUser: bool, target: nat)
      requires id !in requests
      modifies this
      ensures requests == old(requests)[id := Request(requester, action, onUser, target, PENDING, [])]
    {
      requests := requests[id := Request(requester, action, onUser, target, PENDING, [])];
    }

    method DecideRequest(id: nat, approver: UserId, role: Role, verb: Verb, unique: bool) returns (reply: Reply)
      modifies this
      ensures requests.Keys == old(requests).Keys
      ensures forall k | k in requests && k != id :: requests[k] == old(requests)[k]
      ensures id in requests ==> (requests[id], reply) == Decide(old(requests)[id], approver, role, verb, unique)
      ensures id !in requests ==> reply == if role == OPERATOR then Forbidden else NotFound
    {
      if role != SUPERADMIN && role != OWNER { return Forbidden; }
      if id !in requests { return NotFound; }
      var req := requests[id];
      if req.phase != PENDING { return BadRequest; }
      if req.requester == approver { return Forbidden; }
      if unique && exists d | d in req.decisions :: d.approver == approver { return BadRequest; }
      requests := requests[id := req.(decisions := req.decisions + [Decision(approver, verb)])];
      if verb == REJECT {
        requests := requests[id := requests[id].(phase := REJECTED)];
        return Done;
      }
      var counted := ByOthers(req.decisions, approver) + [Decision(approver, verb)];
      if CountApprovals(counted) >= APPROVALS_NEEDED {
        requests := requests[id := requests[id].(phase := APPROVED)];
      }
      return Done;
    }

    method CancelRequest(id: nat, user: UserId) returns (reply: Reply)
      modifies this
      ensures requests.Keys == old(requests).Keys
      ensures forall k | k in requests && k != id :: requests[k] == old(requests)[k]
      ensures id in requests ==> (requests[id], reply) == Cancel(old(requests)[id], user)
      ensures id !in requests ==> reply == NotFound
    {
      if id !in requests { return NotFound; }
      if requests[id].requester != user { return Forbidden; }
      if requests[id].phase != PENDING { return BadRequest; }
      requests := requests[id := requests[id].(phase := CANCELLED)];
      return Done;
    }
  }

  // ------------------------------------------------------------ every sequence of calls

  datatype Call = DecideCall(approver: UserId, role: Role, verb: Verb) | CancelCall(user: UserId)

  function Step(r: Request, c: Call, unique: bool): (Request, Reply) {
    match c
    case DecideCall(approver, role, verb) => Decide(r, approver, role, verb, unique)
    case CancelCall(user) => Cancel(r, user)
  }

  function After(r: Request, calls: seq<Call>, unique: bool): Request {
    if calls == [] then r else Step(After(r, calls[..|calls| - 1], unique), calls[|calls| - 1], unique).0
  }

  ghost function Approvers(r: Request): set<UserId> {
    set d | d in r.decisions && d.verb == APPROVE :: d.approver
  }

  ghost predicate RejectedBySomeone(r: Request) {
    exists d | d in r.decisions :: d.verb == REJECT
  }

  /** Some cancellation was accepted along the way. */
  ghost predicate CancelAccepted(r: Request, calls: seq<Call>, unique: bool) {
    exists i | 0 <= i < |calls| ::
      calls[i].CancelCall? && Step(After(r, calls[..i], unique), calls[i], unique).1 == Done
  }

  ghost predicate RequestInv(r: Request) {
    && r.requester !in Approvers(r)
    && (r.phase == PENDING ==> !RejectedBySomeone(r) && |Approvers(r)| < APPROVALS_NEEDED)
    && (r.phase == APPROVED ==> !RejectedBySomeone(r) && |Approvers(r)| >= APPROVALS_NEEDED)
    && (r.phase == REJECTED ==> RejectedBySomeone(r))
    && (r.phase == CANCELLED ==> !RejectedBySomeone(r) && |Approvers(r)| < APPROVALS_NEEDED)
  }

  // ------------------------------------------------------------ counting

  lemma {:induction false} OthersApproving(ds: seq<Decision>, approver: UserId)
    ensures CountApprovals(ByOthers(ds, approver)) >= 1 <==>
      exists d | d in ds :: d.verb == APPROVE && d.approver != approver
  {
    if ds != [] {
      OthersApproving(ds[1..], approver);
      assert forall d :: d in ds <==> d == ds[0] || d in ds[1..];
    }
  }

  lemma {:induction false} CountAppend(a: seq<Decision>, d: Decision)
    ensures CountApprovals(a + [d]) == CountApprovals(a) + if d.verb == APPROVE then 1 else 0
  {
    if a == [] {
      assert a + [d] == [d];
    } else {
      assert (a + [d])[1..] == a[1..] + [d];
      CountAppend(a[1..], d);
    }
  }

  // ------------------------------------------------------------ one call

  predicate DecidedBy(r: Request, approver: UserId) {
    exists d | d in r.decisions :: d.approver == approver
  }

  /** Someone other than `approver` has approved. */
  predicate ApprovedByAnother(r: Request, approver: UserId) {
    exists d | d in r.decisions :: d.verb == APPROVE && d.approver != approver
  }

  /**
   A decision is accepted exactly from a SUPERADMIN or OWNER, on a PENDING request of somebody else,
   and by the database only once from each.  It is recorded behind the earlier ones and alone settles
   the phase: a rejection rejects, and an approval approves if another approver was there before.
   Refused, it changes nothing.
   */
  lemma DecideEffect(r: Request, approver: UserId, role: Role, verb: Verb, unique: bool)
    ensures var (r', reply) := Decide(r, approver, role, verb, unique);
      && (reply == Done <==>
            && (role == SUPERADMIN || role == OWNER) && r.phase == PENDING && r.requester != approver
            && !(unique && DecidedBy(r, approver)))
      && (reply == Forbidden <==> role == OPERATOR || (r.phase == PENDING && r.requester == approver))
      && (reply == Done || reply == Forbidden || reply == BadRequest) && (reply != Done ==> r' == r)
      && (reply == Done ==>
            && r'.decisions == r.decisions + [Decision(approver, verb)]
            && r'.requester == r.requester && r'.action == r.action && r'.onUser == r.onUser && r'.target == r.target
            && (r'.phase == REJECTED <==> verb == REJECT)
            && (r'.phase == APPROVED <==> verb == APPROVE && ApprovedByAnother(r, approver))
            && (r'.phase == PENDING <==> verb == APPROVE && !ApprovedByAnother(r, approver)))
  {
    OthersApproving(r.decisions, approver);
    CountAppend(ByOthers(r.decisions, approver), Decision(approver, verb));
  }

  /** A cancellation is accepted exactly from the requester while the request is PENDING, and only cancels. */
  lemma CancelEffect(r: Request, user: UserId)
    ensures var (r', reply) := Cancel(r, user);
      && (reply == Done <==> user == r.requester && r.phase == PENDING)
      && (reply == Forbidden <==> user != r.requester)
      && (reply == Done || reply == Forbidden || reply == BadRequest) && (reply != Done ==> r' == r)
      && (reply == Done ==>
            && r'.phase == CANCELLED && r'.decisions == r.decisions
            && r'.requester == r.requester && r'.action == r.action && r'.onUser == r.onUser && r'.target == r.target)
  {
  }

  lemma TwoDistinct(s: set<UserId>, x: UserId)
    requires x in s
    ensures |s| >= 2 <==> exists y | y in s :: y != x
  {
    assert |s - {x}| == |s| - 1;
    if y :| y in s && y != x { assert y in s - {x}; }
    if |s| >= 2 { var y :| y in s - {x}; }
  }

  lemma ApproversAppend(r: Request, d: Decision)
    ensures Approvers(r.(decisions := r.decisions + [d])) ==
      Approvers(r) + if d.verb == APPROVE then {d.approver} else {}
    ensures RejectedBySomeone(r.(decisions := r.decisions + [d])) <==> RejectedBySomeone(r) || d.verb == REJECT
  {
    assert forall e :: e in r.decisions + [d] <==> e in r.decisions || e == d;
  }

  lemma DecideKeepsInv(r: Request, approver: UserId, role: Role, verb: Verb, unique: bool)
    requires RequestInv(r)
    ensures RequestInv(Decide(r, approver, role, verb, unique).0)
  {
    var (r', reply) := Decide(r, approver, role, verb, unique);
    if reply == Done {
      var mine := Decision(approver, verb);
      ApproversAppend(r, mine);
      assert Approvers(r') == Approvers(r.(decisions := r.decisions + [mine]));
      if verb == APPROVE {
        CountAppend(ByOthers(r.decisions, approver), mine);
        OthersApproving(r.decisions, approver);
        TwoDistinct(Approvers(r'), approver);
        forall d | d in r.decisions && d.verb == APPROVE ensures d.approver in Approvers(r') {
          assert d in r'.decisions;
        }
        assert (exists d | d in r.decisions :: d.verb == APPROVE && d.approver != approver)
          <==> exists y | y in Approvers(r') :: y != approver;
      } else {
        assert mine in r'.decisions;
      }
    }
  }

  lemma StepKeepsInv(r: Request, c: Call, unique: bool)
    requires RequestInv(r)
    ensures RequestInv(Step(r, c, unique).0)
  {
    match c
    case DecideCall(approver, role, verb) => DecideKeepsInv(r, approver, role, verb, unique);
    case CancelCall(user) =>
      var r' := Cancel(r, user).0;
      assert Approvers(r') == Approvers(r);
  }

  /** Cancellation is accepted only by the call that leaves the request CANCELLED. */
  lemma CancelsLast(r: Request, calls: seq<Call>, unique: bool)
    requires calls != []
    ensures var before, last := calls[..|calls| - 1], calls[|calls| - 1];
      CancelAccepted(r, calls, unique) <==>
      (CancelAccepted(r, before, unique)
        || (last.CancelCall? && Step(After(r, before, unique), last, unique).1 == Done))
  {
    hide Step, After;
    var before := calls[..|calls| - 1];
    forall i | 0 <= i < |before| ensures calls[..i] == before[..i] && calls[i] == before[i] {}
    if CancelAccepted(r, before, unique) {
      var i :| 0 <= i < |before| && before[i].CancelCall?
        && Step(After(r, before[..i], unique), before[i], unique).1 == Done;
      assert calls[..i] == before[..i];
    }
  }

  lemma {:induction false} AfterInv(r: Request, calls: seq<Call>, unique: bool)
    requires r.phase == PENDING && r.decisions == []
    ensures RequestInv(After(r, calls, unique)) && After(r, calls, unique).requester == r.requester
    ensures After(r, calls, unique).phase == CANCELLED <==> CancelAccepted(r, calls, unique)
    decreases |calls|
  {
    if calls == [] {
      assert Approvers(r) == {};
    } else {
      hide RequestInv;
      var before, last := calls[..|calls| - 1], calls[|calls| - 1];
      AfterInv(r, before, unique);
      StepKeepsInv(After(r, before, unique), last, unique);
      CancelsLast(r, calls, unique);
    }
  }

  /** What a request's status says, after any calls by anyone: the full outcome, in both directions. */
  lemma TwoApproverOutcome(r: Request, calls: seq<Call>, unique: bool)
    requires r.phase == PENDING && r.decisions == []
    ensures var r' := After(r, calls, unique);
      && (r'.phase == PENDING <==>
            !RejectedBySomeone(r') && !CancelAccepted(r, calls, unique) && |Approvers(r')| < APPROVALS_NEEDED)
      && (r'.phase == APPROVED <==> !RejectedBySomeone(r') && |Approvers(r')| >= APPROVALS_NEEDED)
      && (r'.phase == REJECTED <==> RejectedBySomeone(r'))
      && r.requester !in Approvers(r')
      && forall u | u in Approvers(r') ::
           exists c | c in calls :: c.DecideCall? && c.approver == u && c.verb == APPROVE && c.role != OPERATOR
  {
    AfterInv(r, calls, unique);
    hide After;
    forall u | u in Approvers(After(r, calls, unique))
      ensures exists c | c in calls :: c.DecideCall? && c.approver == u && c.verb == APPROVE && c.role != OPERATOR
    {
      ApproversHadTheRole(r, calls, unique, u);
    }
  }

  /** Everyone who approved did so in a call of their own, as SUPERADMIN or OWNER. */
  lemma {:induction false} ApproversHadTheRole(r: Request, calls: seq<Call>, unique: bool, u: UserId)
    requires r.decisions == [] && u in Approvers(After(r, calls, unique))
    ensures exists c | c in calls :: c.DecideCall? && c.approver == u && c.verb == APPROVE && c.role != OPERATOR
    decreases |calls|
  {
    if calls != [] {
      var before, last := calls[..|calls| - 1], calls[|calls| - 1];
      assert forall c :: c in calls <==> c in before || c == last;
      StepApprovers(After(r, before, unique), last, unique, u);
      if u in Approvers(After(r, before, unique)) { ApproversHadTheRole(r, before, unique, u); }
    }
  }

  lemma StepApprovers(r: Request, c: Call, unique: bool, u: UserId)
    requires u in Approvers(Step(r, c, unique).0)
    ensures u in Approvers(r) || (c.DecideCall? && c.approver == u && c.verb == APPROVE && c.role != OPERATOR)
  {
    if c.DecideCall? {
      ApproversAppend(r, Decision(c.approver, c.verb));
    }
    var r' := Step(r, c, unique).0;
    var d :| d in r'.decisions && d.verb == APPROVE && d.approver == u;
  }

  /** A resolved request stays as it is, whoever calls. */
  lemma ResolvedIsFinal(r: Request, c: Call, unique: bool)
    requires r.phase != PENDING
    ensures Step(r, c, unique).0 == r && Step(r, c, unique).1 != Done
  {
  }
}
