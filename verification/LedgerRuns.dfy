/** Whole runs of the approval ledger: what a history of operations says about each token. */
module LedgerRuns {
  import opened Basics
  import opened ApprovalLedger

  /** The ledger after a history of operations. */
  function Run(ops: seq<Op>): (grants: Grants)
  {
    if ops == [] then map[] else Step(Run(ops[..|ops| - 1]), ops[|ops| - 1])
  }

  predicate Inserts(op: Op, t: string)
  {
    op.Insert? && op.grant.token == t
  }

  /** Where the history last inserted the token, if it ever did. */
  function LastInsert(ops: seq<Op>, t: string): (at: Option<nat>)
    ensures at.Some? ==> at.value < |ops| && Inserts(ops[at.value], t)
    ensures at.Some? ==> forall j :: at.value < j < |ops| ==> !Inserts(ops[j], t)
    ensures at.None? ==> forall j :: 0 <= j < |ops| ==> !Inserts(ops[j], t)
  {
    if ops == [] then None
    else if Inserts(ops[|ops| - 1], t) then Some(|ops| - 1)
    else LastInsert(ops[..|ops| - 1], t)
  }

  predicate RevokedSince(ops: seq<Op>, t: string, from: nat)
  {
    exists j :: from <= j < |ops| && ops[j] == Revoke(t)
  }

  /** The request names the grant's scope and executor and is not too late. */
  predicate Fits(g: Grant, r: Request)
  {
    && g.scope == r.scope
    && g.approvedExecutor == r.actor
    && (g.expiresAt.Some? ==> r.now <= g.expiresAt.value)
  }

  /** How many fitting requests to spend the token the history holds from `from` on, before any
      revocation.  Read off the requests alone: no outcome is consulted. */
  function FittingRequests(ops: seq<Op>, t: string, g: Grant, from: nat): (n: nat)
  {
    if |ops| <= from then 0
    else
      var init, op := ops[..|ops| - 1], ops[|ops| - 1];
      FittingRequests(init, t, g, from) +
      if op.Consume? && op.token == t && Fits(g, op.request) && !RevokedSince(init, t, from) then 1 else 0
  }

  /** What is left of the uses `g` was inserted with after `n` fitting requests. */
  function UsesAfter(g: Grant, n: nat): (uses: nat)
  {
    if g.status != Granted || g.uses >= g.maxUses then g.uses
    else if g.uses + n < g.maxUses then g.uses + n else g.maxUses
  }

  function StatusAfter(g: Grant, n: nat, revoked: bool): (s: Status)
  {
    if revoked then Revoked
    else if g.status == Granted && g.uses < g.maxUses <= g.uses + n then Consumed
    else g.status
  }

  /** A ledger record is the grant as last inserted, `n` fitting requests later. */
  predicate Remembers(record: Grant, g: Grant, n: nat, revoked: bool)
  {
    record == g.(uses := record.uses, status := record.status)
    && record.uses == UsesAfter(g, n) && record.status == StatusAfter(g, n, revoked)
  }

  lemma RevokedSinceAfter(ops: seq<Op>, t: string, from: nat)
    requires from < |ops|
    ensures
      var init, op := ops[..|ops| - 1], ops[|ops| - 1];
      RevokedSince(ops, t, from) <==> RevokedSince(init, t, from) || op == Revoke(t)
  {
    var init, op := ops[..|ops| - 1], ops[|ops| - 1];
    if RevokedSince(init, t, from) {
      var j :| from <= j < |init| && init[j] == Revoke(t);
      assert ops[j] == Revoke(t);
    }
    if RevokedSince(ops, t, from) && op != Revoke(t) {
      var j :| from <= j < |ops| && ops[j] == Revoke(t);
      assert init[j] == Revoke(t);
    }
  }

  /** One operation carries the record forward as the history does. */
  lemma StepRemembers(grants: Grants, op: Op, t: string, g: Grant, n: nat, revoked: bool)
    requires t in grants && Remembers(grants[t], g, n, revoked) && !Inserts(op, t)
    ensures t in Step(grants, op)
    ensures
      var counted := op.Consume? && op.token == t && Fits(g, op.request) && !revoked;
      Remembers(Step(grants, op)[t], g, if counted then n + 1 else n, revoked || op == Revoke(t))
  {
  }

  /** The ledger is a function of the history, token by token: a record exists exactly when the
      token was inserted, and then is the newest insert with the fitting requests since then spent,
      up to the budget. */
  lemma {:induction false} LedgerFollowsHistory(ops: seq<Op>, t: string)
    ensures t in Run(ops) <==> LastInsert(ops, t).Some?
    ensures
      var at := LastInsert(ops, t);
      at.Some? ==>
      var g := ops[at.value].grant;
      t in Run(ops) &&
      Remembers(Run(ops)[t], g, FittingRequests(ops, t, g, at.value + 1), RevokedSince(ops, t, at.value + 1))
  {
    if ops != [] {
      var init, op := ops[..|ops| - 1], ops[|ops| - 1];
      LedgerFollowsHistory(init, t);
      var at := LastInsert(ops, t);
      if at.Some? && at.value < |init| {
        var g, from := ops[at.value].grant, at.value + 1;
        RevokedSinceAfter(ops, t, from);
        StepRemembers(Run(init), op, t, g, FittingRequests(init, t, g, from), RevokedSince(init, t, from));
      }
    }
  }

  lemma ValidateDecided(record: Grant, g: Grant, n: nat, revoked: bool, r: Request)
    requires Remembers(record, g, n, revoked)
    ensures Validate(record, r).None? <==> g.status == Granted && !revoked && Fits(g, r) && g.uses + n < g.maxUses
  {
  }

  /** When a request to spend is accepted: exactly when the token's newest insert was a granted one,
      nothing revoked it since, the request fits it, and fewer fitting requests came before than it
      has uses.  So one-time tokens serve the first fitting request and no other. */
  lemma ConsumeDecided(ops: seq<Op>, t: string, r: Request)
    ensures
      var at := LastInsert(ops, t);
      Accepted(Run(ops), Consume(t, r)) <==>
      at.Some? &&
      var g := ops[at.value].grant;
      && g.status == Granted
      && !RevokedSince(ops, t, at.value + 1)
      && Fits(g, r)
      && g.uses + FittingRequests(ops, t, g, at.value + 1) < g.maxUses
  {
    LedgerFollowsHistory(ops, t);
    var at := LastInsert(ops, t);
    if at.Some? {
      var g := ops[at.value].grant;
      ValidateDecided(Run(ops)[t], g, FittingRequests(ops, t, g, at.value + 1), RevokedSince(ops, t, at.value + 1), r);
    }
  }

  /** The objection to a request, from the newest insert, the fitting requests since and whether a
      revocation followed.  Revocation comes first, then the state the grant was inserted in or spent
      down to, then lateness, an insert without uses, the scope and the executor. */
  function Objection(g: Grant, n: nat, revoked: bool, r: Request): (e: Option<Error>)
  {
    if revoked || g.status == Revoked then Some(ApprovalRevoked)
    else if g.status == Pending then Some(ApprovalPending)
    else if g.status == Expired then Some(ApprovalExpired)
    else if g.status == Consumed || g.uses < g.maxUses <= g.uses + n then Some(ApprovalAlreadyConsumed)
    else if g.expiresAt.Some? && g.expiresAt.value < r.now then Some(ApprovalExpired)
    else if g.maxUses <= g.uses then Some(ApprovalAlreadyConsumed)
    else if r.scope != g.scope then Some(ScopeMismatch(g.scope, r.scope))
    else if r.actor != g.approvedExecutor then Some(UnauthorizedDelegate(g.approvedExecutor, r.actor))
    else None
  }

  /** What a request to spend or to check is told. */
  predicate Told(answer: Option<Result<Audit, Error>>, g: Grant, n: nat, revoked: bool, r: Request, spent: nat)
  {
    answer.Some? &&
    var objection := Objection(g, n, revoked, r);
    if objection.Some? then answer.value == Err(objection.value)
    else
      && answer.value.Ok?
      && var a := answer.value.value;
         && a.token == g.token && a.scope == g.scope && a.approvingActor == g.approvingActor
         && a.executingActor == r.actor && a.maxUses == g.maxUses && a.uses == g.uses + n + spent
         && a.status == if a.uses == a.maxUses then Consumed else Granted
  }

  lemma RecordTells(record: Grant, g: Grant, n: nat, revoked: bool, r: Request)
    requires Remembers(record, g, n, revoked)
    ensures Validate(record, r) == Objection(g, n, revoked, r)
    ensures Validate(record, r).None? ==> record.uses == g.uses + n < g.maxUses && record.status == Granted
  {
  }

  /** After any history, what every request to spend or to check is told: without an insert that there
      is no approval; otherwise the first objection there is, with both scopes or both actors where
      those differ; otherwise an audit of the newest insert with its count of uses. */
  lemma AnswersDecided(ops: seq<Op>, t: string, r: Request)
    ensures
      var at := LastInsert(ops, t);
      if at.None? then Answer(Run(ops), Consume(t, r)) == Some(Err(NoApproval)) == Answer(Run(ops), Verify(t, r))
      else
        var g, from := ops[at.value].grant, at.value + 1;
        var n, revoked := FittingRequests(ops, t, g, from), RevokedSince(ops, t, from);
        && Told(Answer(Run(ops), Consume(t, r)), g, n, revoked, r, 1)
        && Told(Answer(Run(ops), Verify(t, r)), g, n, revoked, r, 0)
  {
    LedgerFollowsHistory(ops, t);
    var at := LastInsert(ops, t);
    if at.Some? {
      var g, from := ops[at.value].grant, at.value + 1;
      RecordTells(Run(ops)[t], g, FittingRequests(ops, t, g, from), RevokedSince(ops, t, from), r);
      AuditTells(Run(ops)[t], g, FittingRequests(ops, t, g, from), RevokedSince(ops, t, from), r);
    }
  }

  /** A revocation answers with an audit of the record as it stood, now revoked, for its executor. */
  lemma RevocationTells(ops: seq<Op>, t: string)
    ensures
      var at, answer := LastInsert(ops, t), Answer(Run(ops), Revoke(t));
      if at.None? then answer == Some(Err(NoApproval))
      else
        && t in Run(ops) && answer.Some? && answer.value.Ok?
        && var a, g := answer.value.value, ops[at.value].grant;
           && a.token == t && a.status == Revoked && a.scope == g.scope && a.approvingActor == g.approvingActor
           && a.executingActor == g.approvedExecutor && a.uses == Run(ops)[t].uses && a.maxUses == g.maxUses
  {
    LedgerFollowsHistory(ops, t);
  }

  lemma AuditTells(record: Grant, g: Grant, n: nat, revoked: bool, r: Request)
    requires Remembers(record, g, n, revoked) && record.token == g.token
    ensures Told(Some(CheckAnswer(record, r)), g, n, revoked, r, 0)
    ensures Told(Some(SpendAnswer(record, r)), g, n, revoked, r, 1)
  {
    RecordTells(record, g, n, revoked, r);
  }

  function CheckAnswer(record: Grant, r: Request): (a: Result<Audit, Error>)
  {
    var e := Validate(record, r); if e.Some? then Err(e.value) else Ok(AuditFor(record, r.actor))
  }

  function SpendAnswer(record: Grant, r: Request): (a: Result<Audit, Error>)
  {
    var e := Validate(record, r); if e.Some? then Err(e.value) else Ok(AuditFor(Spend(record), r.actor))
  }

  lemma RevokedRecord(ops: seq<Op>, t: string, j: nat)
    requires j < |ops| && ops[j] == Revoke(t)
    requires forall k :: j < k < |ops| ==> !Inserts(ops[k], t)
    ensures t in Run(ops) ==> Run(ops)[t].status == Revoked
  {
    RevokedAfterInsert(ops, t, j);
    LedgerFollowsHistory(ops, t);
  }

  lemma RevokedAfterInsert(ops: seq<Op>, t: string, j: nat)
    requires j < |ops| && ops[j] == Revoke(t)
    requires forall k :: j < k < |ops| ==> !Inserts(ops[k], t)
    ensures LastInsert(ops, t).Some? ==> RevokedSince(ops, t, LastInsert(ops, t).value + 1)
  {
    var at := LastInsert(ops, t);
    if at.Some? {
      assert at.value != j && Inserts(ops[at.value], t);
      assert at.value + 1 <= j;
    }
  }

  /** Revocation is final until the token is inserted anew. */
  lemma RevokedStaysRefused(ops: seq<Op>, t: string, j: nat, r: Request)
    requires j < |ops| && ops[j] == Revoke(t)
    requires forall k :: j < k < |ops| ==> !Inserts(ops[k], t)
    ensures
      var refusal := Some(Err(if t in Run(ops) then ApprovalRevoked else NoApproval));
      Answer(Run(ops), Consume(t, r)) == refusal == Answer(Run(ops), Verify(t, r))
  {
    RevokedRecord(ops, t, j);
  }

  /** How many requests to spend the token were accepted from `from` on: counted from the answers. */
  function AcceptedSince(ops: seq<Op>, t: string, from: nat): (n: nat)
  {
    if |ops| <= from then 0
    else
      var init, op := ops[..|ops| - 1], ops[|ops| - 1];
      AcceptedSince(init, t, from) + if op.Consume? && op.token == t && Accepted(Run(init), op) then 1 else 0
  }

  /** The counter on the record is the number of accepted requests since the newest insert, on top of
      the count it was inserted with. */
  lemma {:induction false} UsesAreAcceptances(ops: seq<Op>, t: string)
    requires LastInsert(ops, t).Some?
    ensures
      var at := LastInsert(ops, t).value;
      t in Run(ops) && Run(ops)[t].uses == ops[at].grant.uses + AcceptedSince(ops, t, at + 1)
  {
    var init, op := ops[..|ops| - 1], ops[|ops| - 1];
    var at := LastInsert(ops, t).value;
    LedgerFollowsHistory(ops, t);
    if at < |init| {
      UsesAreAcceptances(init, t);
    }
  }

  /** The budget: between two inserts of a grant made with the builders, however they were chained,
      accepted requests number exactly the recorded uses and never exceed the maximum, which is at
      least one. */
  lemma BudgetIsKept(ops: seq<Op>, t: string, scope: Scope, approver: string, executor: string, calls: seq<BuilderCall>)
    requires LastInsert(ops, t).Some?
    requires ops[LastInsert(ops, t).value].grant == Build(PendingGrant(t, scope, approver, executor), calls)
    ensures
      var at := LastInsert(ops, t).value;
      && t in Run(ops)
      && AcceptedSince(ops, t, at + 1) == Run(ops)[t].uses <= ops[at].grant.maxUses
      && ops[at].grant.maxUses >= 1
  {
    BuiltIsUnspent(PendingGrant(t, scope, approver, executor), calls);
    UsesAreAcceptances(ops, t);
    LedgerFollowsHistory(ops, t);
  }

  /** Asking changes nothing and foretells the answer to spending: same verdict, same objection. */
  lemma VerifyForetellsConsume(grants: Grants, t: string, r: Request)
    ensures Step(grants, Verify(t, r)) == grants
    ensures Accepted(grants, Verify(t, r)) <==> Accepted(grants, Consume(t, r))
    ensures
      var v, c := Answer(grants, Verify(t, r)).value, Answer(grants, Consume(t, r)).value;
      (v.Err? ==> c == v) && (v.Ok? ==> c.Ok? && c.value.uses == v.value.uses + 1)
  {
  }

  function Record(grants: Grants, t: string): (g: Option<Grant>)
  {
    if t in grants then Some(grants[t]) else None
  }

  /** An operation leaves every other token's record alone. */
  lemma StepFrame(grants: Grants, op: Op, t: string)
    requires TokenOf(op) != t
    ensures Record(Step(grants, op), t) == Record(grants, t)
  {
  }

  /** An operation reads nothing but the record of its own token. */
  lemma StepLocal(grants: Grants, others: Grants, op: Op)
    requires Record(grants, TokenOf(op)) == Record(others, TokenOf(op))
    ensures Record(Step(grants, op), TokenOf(op)) == Record(Step(others, op), TokenOf(op))
    ensures Answer(grants, op) == Answer(others, op)
  {
  }

  lemma SameRecords(x: Grants, y: Grants)
    requires forall t :: Record(x, t) == Record(y, t)
    ensures x == y
  {
    assert forall t :: (t in x) == Record(x, t).Some? && (t in y) == Record(y, t).Some?;
    assert forall t :: t in x ==> x[t] == Record(x, t).value && y[t] == Record(y, t).value;
  }

  /** Operations on different tokens commute, and neither changes the other's answer. */
  lemma DifferentTokensCommute(grants: Grants, a: Op, b: Op)
    requires TokenOf(a) != TokenOf(b)
    ensures Step(Step(grants, a), b) == Step(Step(grants, b), a)
    ensures Answer(Step(grants, a), b) == Answer(grants, b) && Answer(Step(grants, b), a) == Answer(grants, a)
  {
    var sa, sb := Step(grants, a), Step(grants, b);
    StepFrame(grants, a, TokenOf(b));
    StepLocal(sa, grants, b);
    StepFrame(grants, b, TokenOf(a));
    StepLocal(sb, grants, a);
    StepFrame(sa, b, TokenOf(a));
    StepFrame(sb, a, TokenOf(b));
    forall t ensures Record(Step(sa, b), t) == Record(Step(sb, a), t) {
      CommuteAt(grants, a, b, t);
    }
    SameRecords(Step(sa, b), Step(sb, a));
  }

  lemma CommuteAt(grants: Grants, a: Op, b: Op, t: string)
    requires TokenOf(a) != TokenOf(b)
    ensures Record(Step(Step(grants, a), b), t) == Record(Step(Step(grants, b), a), t)
  {
    var sa, sb := Step(grants, a), Step(grants, b);
    if t != TokenOf(b) {
      StepFrame(sa, b, t);
      StepFrame(grants, b, t);
      if t != TokenOf(a) { StepFrame(grants, a, t); StepFrame(sb, a, t); } else { StepLocal(grants, sb, a); }
    } else {
      StepFrame(sb, a, t);
      StepFrame(grants, a, t);
      StepLocal(grants, sa, b);
    }
  }

  /** The operations of a history that name the token. */
  function Touching(ops: seq<Op>, t: string): (mine: seq<Op>)
  {
    if ops == [] then []
    else Touching(ops[..|ops| - 1], t) + if TokenOf(ops[|ops| - 1]) == t then [ops[|ops| - 1]] else []
  }

  lemma {:induction false} RecordIsIsolated(ops: seq<Op>, t: string)
    ensures Record(Run(ops), t) == Record(Run(Touching(ops, t)), t)
  {
    if ops != [] {
      var init, last := ops[..|ops| - 1], ops[|ops| - 1];
      RecordIsIsolated(init, t);
      var mine := Touching(ops, t);
      if TokenOf(last) == t {
        assert mine[..|mine| - 1] == Touching(init, t);
        StepLocal(Run(init), Run(Touching(init, t)), last);
      } else {
        assert mine == Touching(init, t);
        StepFrame(Run(init), last, t);
      }
    }
  }

  /** Isolation: a token's record, and every answer about it, depends only on the operations that
      name it, however they are interleaved with the rest. */
  lemma TokensAreIsolated(ops: seq<Op>, op: Op)
    ensures
      var t, mine := TokenOf(op), Run(Touching(ops, TokenOf(op)));
      && (t in Run(ops) <==> t in mine)
      && (t in mine ==> Run(ops)[t] == mine[t])
      && Answer(Run(ops), op) == Answer(mine, op)
  {
    var t := TokenOf(op);
    RecordIsIsolated(ops, t);
    StepLocal(Run(ops), Run(Touching(ops, t)), op);
    var mine := Run(Touching(ops, t));
    assert Record(mine, t).Some? == (t in mine) && Record(Run(ops), t).Some? == (t in Run(ops));
  }
}
