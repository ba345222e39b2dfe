/**
 The right-to-erasure service as the client of approvals: a user is pseudonymised only
 behind an approved request, and never hard-deleted.
 */
module Erasure {
  import opened Wrappers
  import opened Approvals

  /** The digest is a constructor: distinct addresses are taken to have distinct digests. */
  datatype Email = Address(text: nat) | Pseudonym(digestOf: Email)

  datatype User = User(email: Email, named: bool, active: bool, canLogIn: bool)
  datatype Token = Token(user: UserId, revoked: bool)
  datatype AuditRow = AuditRow(user: UserId, email: Email)

  datatype Platform = Platform(
    users: map<UserId, User>,
    tokens: map<nat, Token>,
    audit: map<nat, AuditRow>,
    requests: map<nat, Request>)

  function File(p: Platform, id: nat, subject: UserId, requester: UserId): (Platform, Reply) {
    if subject !in p.users || id in p.requests then (p, NotFound)
    else (p.(requests := p.requests[id := Request(requester, REVOKE_USER, true, subject, PENDING, [])]), Done)
  }

  function Execute(p: Platform, id: nat): (Platform, Reply) {
    if id !in p.requests then (p, NotFound)
    else
      var req := p.requests[id];
      if req.action != REVOKE_USER || !req.onUser then (p, BadRequest)
      else if req.phase != APPROVED then (p, BadRequest)
      else if req.target !in p.users then (p, NotFound)
      else
        var u := req.target;
        var pseudonym := Pseudonym(p.users[u].email);
        (p.(users := p.users[u := User(pseudonym, false, false, false)],
            tokens := map t | t in p.tokens ::
              if p.tokens[t].user == u then p.tokens[t].(revoked := true) else p.tokens[t],
            audit := map a | a in p.audit ::
              if p.audit[a].user == u then p.audit[a].(email := pseudonym) else p.audit[a]),
         Done)
  }

  /** The service over its tables: users, refresh tokens, the login audit and the approval requests. */
  class ErasureService {
    var users: map<UserId, User>
    var tokens: map<nat, Token>
    var audit: map<nat, AuditRow>
    var requests: map<nat, Request>

    ghost function Abstract(): Platform
      reads this
    {
      Platform(users, tokens, audit, requests)
    }

    constructor (p: Platform)
      ensures Abstract() == p
    {
      users, tokens, audit, requests := p.users, p.tokens, p.audit, p.requests;
    }

    /** `id` is the new row's id. */
    method FileRequest(id: nat, subject: UserId, requester: UserId) returns (reply: Reply)
      requires id !in requests
      modifies this`requests
      ensures (Abstract(), reply) == File(old(Abstract()), id, subject, requester)
    {
      if subject !in users { return NotFound; }
      requests := requests[id := Request(requester, REVOKE_USER, true, subject, PENDING, [])];
      return Done;
    }

    /** One transaction over three tables. */
    method ExecuteRequest(id: nat) returns (reply: Reply)
      modifies this`users, this`tokens, this`audit
      ensures (Abstract(), reply) == Execute(old(Abstract()), id)
    {
      if id !in requests { return NotFound; }
      var req := requests[id];
      if req.action != REVOKE_USER || !req.onUser { return BadRequest; }
      if req.phase != APPROVED { return BadRequest; }
      var u := req.target;
      if u !in users { return NotFound; }
      var pseudonym := Pseudonym(users[u].email);
      tokens := map t | t in tokens :: if tokens[t].user == u then tokens[t].(revoked := true) else tokens[t];
      users := users[u := User(pseudonym, false, false, false)];
      audit := map a | a in audit :: if audit[a].user == u then audit[a].(email := pseudonym) else audit[a];
      return Done;
    }
  }

  datatype Op =
    | FileErasure(id: nat, subject: UserId, requester: UserId)
    | Ask(id: nat, request: Request)
    | CallOn(id: nat, call: Call)
    | ExecuteErasure(id: nat)
    | LogIn(row: nat, token: nat, user: UserId)
    | EditProfile(user: UserId, named: bool, active: bool)
    | ChangePassword(user: UserId)

  function Apply(p: Platform, op: Op, unique: bool): Platform {
    match op
    case FileErasure(id, subject, requester) => File(p, id, subject, requester).0
    case Ask(id, r) =>
      if id in p.requests then p else p.(requests := p.requests[id := r.(phase := PENDING, decisions := [])])
    case CallOn(id, call) =>
      if id !in p.requests then p else p.(requests := p.requests[id := Step(p.requests[id], call, unique).0])
    case ExecuteErasure(id) => Execute(p, id).0
    case LogIn(row, token, user) =>
      if user !in p.users || !p.users[user].canLogIn || row in p.audit || token in p.tokens then p
      else p.(audit := p.audit[row := AuditRow(user, p.users[user].email)],
        tokens := p.tokens[token := Token(user, false)])
    case EditProfile(u, named, active) =>
      if u !in p.users then p else p.(users := p.users[u := p.users[u].(named := named, active := active)])
    case ChangePassword(u) =>
      if u !in p.users then p
      else p.(users := p.users[u := p.users[u].(canLogIn := true)],
              tokens := map t | t in p.tokens ::
                if p.tokens[t].user == u then p.tokens[t].(revoked := true) else p.tokens[t])
  }

  function History(p: Platform, ops: seq<Op>, unique: bool): Platform {
    if ops == [] then p else Apply(History(p, ops[..|ops| - 1], unique), ops[|ops| - 1], unique)
  }

  // ------------------------------------------------------------ one call

  /** A known user's erasure is filed as a PENDING request on that user without decisions; nothing else changes. */
  lemma FileEffect(p: Platform, id: nat, subject: UserId, requester: UserId)
    requires id !in p.requests
    ensures var (p', reply) := File(p, id, subject, requester);
      && (reply == Done <==> subject in p.users) && (reply == Done || (reply == NotFound && p' == p))
      && p'.users == p.users && p'.tokens == p.tokens && p'.audit == p.audit
      && (forall other | other in p.requests :: other in p'.requests && p'.requests[other] == p.requests[other])
      && (reply == Done ==>
            && p'.requests.Keys == p.requests.Keys + {id}
            && p'.requests[id].action == REVOKE_USER && p'.requests[id].onUser && p'.requests[id].target == subject
            && p'.requests[id].requester == requester
            && p'.requests[id].phase == PENDING && p'.requests[id].decisions == [])
  {
  }

  /** An APPROVED request to revoke a user. */
  predicate IsErasure(r: Request) {
    r.action == REVOKE_USER && r.onUser && r.phase == APPROVED
  }

  /**
   An execution is accepted exactly for an approved erasure of a user that exists.  The user's address
   then is the pseudonym of the old one, in the audit trail too, the name is gone, the account is off
   and cannot log in, and every one of its tokens is revoked.  Other users, their tokens and audit
   rows, and all requests stay.  Refused, it changes nothing.
   */
  lemma ExecuteEffect(p: Platform, id: nat)
    ensures var (p', reply) := Execute(p, id);
      && (reply == Done <==> id in p.requests && IsErasure(p.requests[id]) && p.requests[id].target in p.users)
      && (reply == BadRequest <==> id in p.requests && !IsErasure(p.requests[id]))
      && (reply == Done || reply == NotFound || reply == BadRequest) && (reply != Done ==> p' == p)
      && p'.requests == p.requests && p'.users.Keys == p.users.Keys && p'.tokens.Keys == p.tokens.Keys
      && p'.audit.Keys == p.audit.Keys
      && (reply == Done ==> Erased(p, p', p.requests[id].target))
  {
  }

  ghost predicate Erased(p: Platform, p': Platform, u: UserId)
    requires p'.users.Keys == p.users.Keys && p'.tokens.Keys == p.tokens.Keys && p'.audit.Keys == p.audit.Keys
    requires u in p.users
  {
    && p'.users[u].email == Pseudonym(p.users[u].email)
    && !p'.users[u].named && !p'.users[u].active && !p'.users[u].canLogIn
    && (forall v | v in p.users && v != u :: p'.users[v] == p.users[v])
    && (forall t | t in p.tokens ::
          p'.tokens[t].user == p.tokens[t].user
            && (p'.tokens[t].revoked <==> p.tokens[t].revoked || p.tokens[t].user == u))
    && (forall a | a in p.audit ::
          && p'.audit[a].user == p.audit[a].user
          && p'.audit[a].email == if p.audit[a].user == u then p'.users[u].email else p.audit[a].email)
  }

  /** Before any request: nobody erased, nothing decided. */
  ghost predicate Pristine(p: Platform) {
    && p.requests == map[]
    && (forall u | u in p.users :: p.users[u].email.Address?)
    && (forall a | a in p.audit :: p.audit[a].user in p.users && p.audit[a].email == p.users[p.audit[a].user].email)
    && (forall t | t in p.tokens :: p.tokens[t].user in p.users)
  }

  /** Two people other than the requester approved the erasure of `u`, and nobody rejected it. */
  ghost predicate Sanctioned(p: Platform, u: UserId) {
    exists id | id in p.requests ::
      var r := p.requests[id];
      && r.action == REVOKE_USER && r.onUser && r.target == u && r.phase == APPROVED
      && |Approvers(r)| >= 2 && r.requester !in Approvers(r) && !RejectedBySomeone(r)
  }

  ghost predicate PlatformInv(p: Platform) {
    && (forall id | id in p.requests :: RequestInv(p.requests[id]))
    && (forall u | u in p.users && p.users[u].email.Pseudonym? :: Sanctioned(p, u))
    && SessionsClosed(p) && AuditAgrees(p)
  }

  /** Requests only gain decisions: an approval, once given, keeps sanctioning. */
  lemma SanctionStays(p: Platform, op: Op, unique: bool, u: UserId)
    requires Sanctioned(p, u)
    ensures Sanctioned(Apply(p, op, unique), u)
  {
    var id :| id in p.requests && (var r := p.requests[id];
      && r.action == REVOKE_USER && r.onUser && r.target == u && r.phase == APPROVED
      && |Approvers(r)| >= 2 && r.requester !in Approvers(r) && !RejectedBySomeone(r));
    match op
    case CallOn(i, call) =>
      if i == id { ResolvedIsFinal(p.requests[id], call, unique); }
      assert Apply(p, op, unique).requests[id] == p.requests[id];
    case _ => assert Apply(p, op, unique).requests[id] == p.requests[id];
  }

  lemma NewRequestInv(r: Request)
    requires r.phase == PENDING && r.decisions == []
    ensures RequestInv(r)
  {
    assert Approvers(r) == {};
  }

  lemma RequestsStayGood(p: Platform, op: Op, unique: bool)
    requires PlatformInv(p)
    ensures forall id | id in Apply(p, op, unique).requests :: RequestInv(Apply(p, op, unique).requests[id])
  {
    hide Step, RequestInv;
    var p' := Apply(p, op, unique);
    forall id | id in p'.requests ensures RequestInv(p'.requests[id]) {
      if id in p.requests && p'.requests[id] != p.requests[id] {
        StepKeepsInv(p.requests[id], op.call, unique);
      } else if id !in p.requests {
        NewRequestInv(p'.requests[id]);
      }
    }
  }

  lemma ErasedStaySanctioned(p: Platform, op: Op, unique: bool, u: UserId)
    requires PlatformInv(p)
    requires var p' := Apply(p, op, unique); u in p'.users && p'.users[u].email.Pseudonym?
    ensures Sanctioned(Apply(p, op, unique), u)
  {
    hide Step, RejectedBySomeone, Approvers;
    if u in p.users && p.users[u].email.Pseudonym? {
      SanctionStays(p, op, unique, u);
    } else {
      assert op.ExecuteErasure? && RequestInv(p.requests[op.id]);
      assert Apply(p, op, unique).requests[op.id] == p.requests[op.id];
    }
  }

  /** An erased user without a password has no session left. */
  ghost predicate SessionsClosed(p: Platform) {
    forall u, t | u in p.users && p.users[u].email.Pseudonym? && !p.users[u].canLogIn && t in p.tokens
      && p.tokens[t].user == u ::
      p.tokens[t].revoked
  }

  /** The audit trail knows every user under the present address. */
  ghost predicate AuditAgrees(p: Platform) {
    forall a | a in p.audit :: p.audit[a].user in p.users && p.audit[a].email == p.users[p.audit[a].user].email
  }

  lemma SessionsStayClosed(p: Platform, op: Op, unique: bool)
    requires SessionsClosed(p)
    ensures SessionsClosed(Apply(p, op, unique))
  {
    hide Step;
  }

  lemma AuditStaysAgreed(p: Platform, op: Op, unique: bool)
    requires AuditAgrees(p)
    ensures AuditAgrees(Apply(p, op, unique))
  {
    hide Step;
  }

  lemma ApplyKeepsPlatform(p: Platform, op: Op, unique: bool)
    requires PlatformInv(p)
    ensures PlatformInv(Apply(p, op, unique)) && Apply(p, op, unique).users.Keys == p.users.Keys
  {
    RequestsStayGood(p, op, unique);
    SessionsStayClosed(p, op, unique);
    AuditStaysAgreed(p, op, unique);
    var p' := Apply(p, op, unique);
    assert p'.users.Keys == p.users.Keys;
    forall u | u in p'.users && p'.users[u].email.Pseudonym? ensures Sanctioned(p', u) {
      ErasedStaySanctioned(p, op, unique, u);
    }
    hide Apply, Sanctioned, RequestInv, SessionsClosed, AuditAgrees;
  }

  lemma PristineInv(p: Platform)
    requires Pristine(p)
    ensures PlatformInv(p)
  {
  }

  lemma {:induction false} HistoryInv(p: Platform, ops: seq<Op>, unique: bool)
    requires Pristine(p)
    ensures PlatformInv(History(p, ops, unique)) && History(p, ops, unique).users.Keys == p.users.Keys
    decreases |ops|
  {
    hide Apply;
    if ops == [] {
      PristineInv(p);
    } else {
      hide PlatformInv;
      HistoryInv(p, ops[..|ops| - 1], unique);
      ApplyKeepsPlatform(History(p, ops[..|ops| - 1], unique), ops[|ops| - 1], unique);
    }
  }

  /**
   In every history, profile and password changes included: an email changes only into a pseudonym,
   and only for a user whose erasure was sanctioned by two approvers other than the requester.  The
   audit trail then knows the user under the pseudonym only, and until someone sets a new password no
   session is left.  No user is ever removed by an erasure.
   */
  lemma ErasureOnlyWhenSanctioned(p: Platform, ops: seq<Op>, unique: bool, u: UserId)
    requires Pristine(p) && u in p.users
    ensures var p' := History(p, ops, unique);
      && u in p'.users
      && (p'.users[u].email != p.users[u].email ==>
            && p'.users[u].email.Pseudonym? && Sanctioned(p', u)
            && (forall a | a in p'.audit && p'.audit[a].user == u :: p'.audit[a].email == p'.users[u].email)
            && (!p'.users[u].canLogIn ==> forall t | t in p'.tokens && p'.tokens[t].user == u :: p'.tokens[t].revoked))
  {
    HistoryInv(p, ops, unique);
    KeptOrErased(p, ops, unique, u);
  }

  lemma EmailMoves(p: Platform, op: Op, unique: bool, u: UserId)
    requires u in p.users
    ensures var p' := Apply(p, op, unique);
      u in p'.users && (p'.users[u].email == p.users[u].email || p'.users[u].email.Pseudonym?)
  {
    hide Step;
  }

  lemma {:induction false} KeptOrErased(p: Platform, ops: seq<Op>, unique: bool, u: UserId)
    requires Pristine(p) && u in p.users
    ensures var p' := History(p, ops, unique);
      u in p'.users && (p'.users[u].email == p.users[u].email || p'.users[u].email.Pseudonym?)
    decreases |ops|
  {
    hide Apply;
    if ops != [] {
      KeptOrErased(p, ops[..|ops| - 1], unique, u);
      EmailMoves(History(p, ops[..|ops| - 1], unique), ops[|ops| - 1], unique, u);
    }
  }

  /**
   Executing an approved erasure a second time is not the no-op its comment announces: the
   pseudonym is digested again.  Everything else is left as it was.
   */
  lemma SecondExecutionRehashes(p: Platform, id: nat)
    requires Execute(p, id).1 == Done
    ensures var once := Execute(p, id).0; var (twice, reply) := Execute(once, id); var u := p.requests[id].target;
      && reply == Done
      && twice.users[u].email == Pseudonym(once.users[u].email) && twice.users[u].email != once.users[u].email
      && twice.users[u] == once.users[u].(email := twice.users[u].email)
      && twice.tokens == once.tokens && twice.requests == once.requests
  {
    var once := Execute(p, id).0;
    var twice := Execute(once, id).0;
    assert once.users[p.requests[id].target].email.Pseudonym?;
    assert twice.tokens == once.tokens;
  }
}
