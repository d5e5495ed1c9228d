/** Approval tokens: grants, their validation, and the ledger that spends them. */
module ApprovalLedger {
  import opened Basics
  import opened Stream
  import opened Fnv

  datatype Scope = Scope(policy: string, action: string, repository: Option<string>, branch: Option<string>)

  datatype Hop = Hop(actor: string, sessionId: Option<string>, reason: string)

  datatype Status = Pending | Granted | Consumed | Expired | Revoked

  datatype Error =
    | NoApproval
    | ApprovalPending
    | ApprovalExpired
    | ApprovalRevoked
    | ApprovalAlreadyConsumed
    | ScopeMismatch(expectedScope: Scope, actualScope: Scope)
    | UnauthorizedDelegate(expectedActor: string, actualActor: string)

  datatype Grant = Grant(
    token: string,
    scope: Scope,
    approvingActor: string,
    approvedExecutor: string,
    status: Status,
    expiresAt: Option<u64>,
    maxUses: u32,
    uses: u32,
    chain: seq<Hop>)
  {
    function Approve(): (g: Grant) { this.(status := Granted) }

    function ExpiresAt(epochSeconds: u64): (g: Grant) { this.(expiresAt := Some(epochSeconds)) }

    function WithMaxUses(n: u32): (g: Grant) { this.(maxUses := if n < 1 then 1 else n) }

    function WithDelegationHop(hop: Hop): (g: Grant) { this.(chain := chain + [hop]) }

    /** What every builder keeps: nothing spent yet, and at least one use to spend. */
    predicate Unspent() { uses == 0 && maxUses >= 1 && status in {Pending, Granted} }
  }

  function PendingGrant(token: string, scope: Scope, approvingActor: string, approvedExecutor: string): (g: Grant)
  {
    Grant(token, scope, approvingActor, approvedExecutor, Pending, None, 1, 0, [])
  }

  datatype BuilderCall = Approve | ExpiresAt(epochSeconds: u64) | WithMaxUses(n: u32) | WithDelegationHop(hop: Hop)

  /** What a chain of builder calls makes of a grant. */
  function Build(g: Grant, calls: seq<BuilderCall>): (r: Grant)
  {
    if calls == [] then g
    else
      var built := Build(g, calls[..|calls| - 1]);
      match calls[|calls| - 1]
      case Approve => built.Approve()
      case ExpiresAt(at) => built.ExpiresAt(at)
      case WithMaxUses(n) => built.WithMaxUses(n)
      case WithDelegationHop(hop) => built.WithDelegationHop(hop)
  }

  /** Whatever is built is unspent, has at least one use, and keeps its token, scope and people. */
  lemma {:induction false} BuiltIsUnspent(g: Grant, calls: seq<BuilderCall>)
    requires g.Unspent()
    ensures
      var built := Build(g, calls);
      && built.Unspent()
      && built.token == g.token && built.scope == g.scope
      && built.approvingActor == g.approvingActor && built.approvedExecutor == g.approvedExecutor
  {
    if calls != [] { BuiltIsUnspent(g, calls[..|calls| - 1]); }
  }

  function HopsOf(calls: seq<BuilderCall>): (hops: seq<Hop>)
  {
    if calls == [] then []
    else
      var last := calls[|calls| - 1];
      HopsOf(calls[..|calls| - 1]) + if last.WithDelegationHop? then [last.hop] else []
  }

  predicate LastDeadline(calls: seq<BuilderCall>, k: int)
  {
    0 <= k < |calls| && calls[k].ExpiresAt? && forall l :: k < l < |calls| ==> !calls[l].ExpiresAt?
  }

  predicate LastMaximum(calls: seq<BuilderCall>, k: int)
  {
    0 <= k < |calls| && calls[k].WithMaxUses? && forall l :: k < l < |calls| ==> !calls[l].WithMaxUses?
  }

  lemma {:induction false} BuiltHops(g: Grant, calls: seq<BuilderCall>)
    ensures Build(g, calls).chain == g.chain + HopsOf(calls)
  {
    if calls == [] {
      assert g.chain + [] == g.chain;
    } else {
      var init, last := calls[..|calls| - 1], calls[|calls| - 1];
      BuiltHops(g, init);
      ConcatAssociative(g.chain, HopsOf(init), if last.WithDelegationHop? then [last.hop] else []);
      assert HopsOf(init) + [] == HopsOf(init);
    }
  }

  lemma {:induction false} BuiltStatus(g: Grant, calls: seq<BuilderCall>)
    ensures Build(g, calls).status == if Approve in calls then Granted else g.status
  {
    if calls != [] {
      var init, last := calls[..|calls| - 1], calls[|calls| - 1];
      BuiltStatus(g, init);
      assert calls == init + [last];
    }
  }

  lemma {:induction false} BuiltDeadline(g: Grant, calls: seq<BuilderCall>, k: nat)
    requires LastDeadline(calls, k)
    ensures Build(g, calls).expiresAt == Some(calls[k].epochSeconds)
  {
    var n := |calls| - 1;
    if k < n {
      assert !calls[n].ExpiresAt?;
      BuiltDeadline(g, calls[..n], k);
    }
  }

  lemma {:induction false} BuiltMaximum(g: Grant, calls: seq<BuilderCall>, k: nat)
    requires LastMaximum(calls, k)
    ensures Build(g, calls).maxUses == if calls[k].n == 0 then 1 else calls[k].n
  {
    var n := |calls| - 1;
    if k < n {
      assert !calls[n].WithMaxUses?;
      BuiltMaximum(g, calls[..n], k);
    }
  }

  lemma {:induction false} BuiltUnset(g: Grant, calls: seq<BuilderCall>)
    ensures (forall k :: 0 <= k < |calls| ==> !calls[k].ExpiresAt?) ==> Build(g, calls).expiresAt == g.expiresAt
    ensures (forall k :: 0 <= k < |calls| ==> !calls[k].WithMaxUses?) ==> Build(g, calls).maxUses == g.maxUses
  {
    if calls != [] {
      var n := |calls| - 1;
      BuiltUnset(g, calls[..n]);
      assert forall k :: 0 <= k < n ==> calls[..n][k] == calls[k];
    }
  }

  /** What a chain of builder calls sets: granted once approved, the latest deadline given, the latest
      maximum given but at least one, and the hops in their order. */
  lemma BuiltAsCalled(g: Grant, calls: seq<BuilderCall>)
    ensures
      var built := Build(g, calls);
      && built.status == (if Approve in calls then Granted else g.status)
      && built.chain == g.chain + HopsOf(calls)
      && (forall k :: LastDeadline(calls, k) ==> built.expiresAt == Some(calls[k].epochSeconds))
      && (forall k :: LastMaximum(calls, k) ==> built.maxUses == if calls[k].n == 0 then 1 else calls[k].n)
      && ((forall k :: 0 <= k < |calls| ==> !calls[k].ExpiresAt?) ==> built.expiresAt == g.expiresAt)
      && ((forall k :: 0 <= k < |calls| ==> !calls[k].WithMaxUses?) ==> built.maxUses == g.maxUses)
  {
    BuiltHops(g, calls);
    BuiltStatus(g, calls);
    forall k | LastDeadline(calls, k) ensures Build(g, calls).expiresAt == Some(calls[k].epochSeconds) {
      BuiltDeadline(g, calls, k);
    }
    forall k | LastMaximum(calls, k) ensures Build(g, calls).maxUses == if calls[k].n == 0 then 1 else calls[k].n {
      BuiltMaximum(g, calls, k);
    }
    BuiltUnset(g, calls);
  }

  datatype Audit = Audit(
    token: string,
    scope: Scope,
    approvingActor: string,
    executingActor: string,
    status: Status,
    delegatedExecution: bool,
    chain: seq<Hop>,
    uses: u32,
    maxUses: u32)

  /** One request to spend a token: by whom, for what, and when. */
  datatype Request = Request(scope: Scope, actor: string, now: u64)

  /** The first objection to a request, in the order the ledger raises them. */
  function Validate(g: Grant, r: Request): (e: Option<Error>)
  {
    match g.status
    case Pending => Some(ApprovalPending)
    case Consumed => Some(ApprovalAlreadyConsumed)
    case Expired => Some(ApprovalExpired)
    case Revoked => Some(ApprovalRevoked)
    case Granted =>
      if g.expiresAt.Some? && r.now > g.expiresAt.value then Some(ApprovalExpired)
      else if g.uses >= g.maxUses then Some(ApprovalAlreadyConsumed)
      else if g.scope != r.scope then Some(ScopeMismatch(g.scope, r.scope))
      else if g.approvedExecutor != r.actor then Some(UnauthorizedDelegate(g.approvedExecutor, r.actor))
      else None
  }

  function AuditFor(g: Grant, actor: string): (a: Audit)
  {
    var base := if g.chain == [] then [Hop(g.approvingActor, None, "approval granted")] else g.chain;
    var chain :=
      if g.approvingActor != actor && !(exists hop :: hop in base && hop.actor == actor)
      then base + [Hop(actor, None, "delegated execution")] else base;
    Audit(g.token, g.scope, g.approvingActor, actor, g.status, g.approvingActor != actor, chain, g.uses, g.maxUses)
  }

  /** An audit keeps the recorded chain as a prefix, is never without a hop, opens with the approver
      when nothing was recorded, and names a delegated executor; at most one hop is added for each. */
  lemma AuditIsTraceable(g: Grant, actor: string)
    ensures
      var a := AuditFor(g, actor);
      && g.chain <= a.chain
      && a.chain != []
      && (g.chain == [] ==> a.chain[0] == Hop(g.approvingActor, None, "approval granted"))
      && (a.delegatedExecution <==> g.approvingActor != actor)
      && (a.delegatedExecution ==> exists hop :: hop in a.chain && hop.actor == actor)
      && (a.chain != g.chain && g.chain != [] ==> a.chain == g.chain + [Hop(actor, None, "delegated execution")])
      && |a.chain| <= |g.chain| + 2
  {
    var a := AuditFor(g, actor);
    var base := if g.chain == [] then [Hop(g.approvingActor, None, "approval granted")] else g.chain;
    assert base <= a.chain;
    if g.approvingActor != actor && a.chain != base {
      assert a.chain[|base|] in a.chain;
    }
  }

  type Grants = map<string, Grant>

  /** A grant after one more accepted use. */
  function Spend(g: Grant): (h: Grant)
    requires g.uses < g.maxUses
  {
    g.(uses := g.uses + 1, status := if g.uses + 1 >= g.maxUses then Consumed else g.status)
  }

  datatype Op =
    | Insert(grant: Grant)
    | Revoke(token: string)
    | Verify(token: string, request: Request)
    | Consume(token: string, request: Request)

  function TokenOf(op: Op): (t: string)
  {
    if op.Insert? then op.grant.token else op.token
  }

  function Step(grants: Grants, op: Op): (after: Grants)
  {
    match op
    case Insert(g) => grants[g.token := g]
    case Revoke(t) => if t in grants then grants[t := grants[t].(status := Revoked)] else grants
    case Verify(_, _) => grants
    case Consume(t, r) => if t in grants && Validate(grants[t], r).None? then grants[t := Spend(grants[t])] else grants
  }

  /** What the caller is told.  Inserting tells nothing. */
  function Answer(grants: Grants, op: Op): (a: Option<Result<Audit, Error>>)
  {
    match op
    case Insert(_) => None
    case Revoke(t) =>
      if t !in grants then Some(Err(NoApproval))
      else var g := grants[t].(status := Revoked); Some(Ok(AuditFor(g, g.approvedExecutor)))
    case Verify(t, r) =>
      if t !in grants then Some(Err(NoApproval))
      else var e := Validate(grants[t], r); Some(if e.Some? then Err(e.value) else Ok(AuditFor(grants[t], r.actor)))
    case Consume(t, r) =>
      if t !in grants then Some(Err(NoApproval))
      else
        var e := Validate(grants[t], r);
        Some(if e.Some? then Err(e.value) else Ok(AuditFor(Spend(grants[t]), r.actor)))
  }

  predicate Accepted(grants: Grants, op: Op)
  {
    var a := Answer(grants, op); a.Some? && a.value.Ok?
  }

  /** The ledger object. */
  class Ledger {
    var grants: Grants

    constructor ()
      ensures grants == map[]
    {
      grants := map[];
    }

    method Insert(grant: Grant)
      modifies this
      ensures grants == Step(old(grants), Op.Insert(grant))
    {
      grants := grants[grant.token := grant];
    }

    method Revoke(token: string) returns (a: Result<Audit, Error>)
      modifies this
      ensures grants == Step(old(grants), Op.Revoke(token))
      ensures Some(a) == Answer(old(grants), Op.Revoke(token))
    {
      if token !in grants { return Err(NoApproval); }
      var grant := grants[token].(status := Revoked);
      grants := grants[token := grant];
      a := Ok(AuditFor(grant, grant.approvedExecutor));
    }

    method Verify(token: string, request: Request) returns (a: Result<Audit, Error>)
      ensures Some(a) == Answer(grants, Op.Verify(token, request))
    {
      if token !in grants { return Err(NoApproval); }
      var objection := Validate(grants[token], request);
      if objection.Some? { return Err(objection.value); }
      a := Ok(AuditFor(grants[token], request.actor));
    }

    method Consume(token: string, request: Request) returns (a: Result<Audit, Error>)
      modifies this
      ensures grants == Step(old(grants), Op.Consume(token, request))
      ensures Some(a) == Answer(old(grants), Op.Consume(token, request))
    {
      if token !in grants { return Err(NoApproval); }
      var grant := grants[token];
      var objection := Validate(grant, request);
      if objection.Some? { return Err(objection.value); }
      grant := grant.(uses := grant.uses + 1);
      if grant.uses >= grant.maxUses { grant := grant.(status := Consumed); }
      grants := grants[token := grant];
      a := Ok(AuditFor(grant, request.actor));
    }
  }
}
