/**
 The whole kernel: the session actor, its shared map, every session handle, and the calls that run
 beside the actor (`deliver_proxy_result`, `cancel_turn`, the workers and the executors).

 Actor commands are cut where another task can look in between: a turn command clears the cancel
 flag and then swaps the token; create and resume publish in the shared map before the live map;
 remove does the reverse.  `cancel_turn` is cut into its snapshot, its flag and its token.  A handle is an
 allocated entry: it outlives its removal from the maps for as long as a worker uses it.
 */
module SessionSystem {
  import opened Basics
  import P = ProxySlots
  import T = TurnLock

  /** What both maps hold for a session: its handle and the token `cancel_turn` would fire. */
  datatype Ref = Ref(h: nat, token: nat)

  /** `token` is the one the executor was created with and waits on.  `straddled` records that a
      `cancel_turn` whose snapshot came before the first turn command fired after it. */
  datatype Handle = Handle(
    proxy: P.Proxy,
    entry: T.Entry,
    flag: bool,
    token: nat,
    turns: nat,
    straddled: bool)

  /** A `cancel_turn`: what it read, whether it has raised the flag yet, and how it ended.  It is
      `early` if it read the shared map before the session's first turn command. */
  datatype Cancel = Taken(h: nat, token: nat, early: bool, flagged: bool) | Fired(h: nat, early: bool) | NoSession

  datatype Actor =
    | Idle
    | Installing(key: string, ref: Ref)
    | Counting
    | Swapping(sid: string, h: nat)
    | Unsharing(sid: string)

  datatype System = System(
    handles: seq<Handle>,
    cancelled: set<nat>,
    nextToken: nat,
    sessions: map<string, Ref>,
    shared: map<string, Ref>,
    activeCount: nat,
    actor: Actor,
    cancels: seq<Cancel>)

  const INIT := System([], {}, 0, map[], map[], 0, Idle, [])

  datatype Action =
    | Create(sid: string, hasSink: bool)
    | ResumeLive(sid: string)
    | ResumeLoad(sid: string, fileSid: string, count: nat, hasSink: bool)
    | Install
    | Count
    | BeginTurn(sid: string)
    | SwapToken
    | Remove(sid: string)
    | Unshare
    | CancelBegin(sid: string)
    | CancelFlag(c: nat)
    | CancelFire(c: nat)
    | Deliver(sid: string, id: string, payload: P.Payload)
    | OnProxy(h: nat, step: P.Action)
    | OnEntry(h: nat, work: T.Action)

  /** A worker holds the entry lock and is inside `run_turn`. */
  predicate InTurn(x: Handle)
  {
    x.entry.lock.Some? && x.entry.lock.value < |x.entry.workers| && x.entry.workers[x.entry.lock.value].Running?
  }

  predicate TokenFired(s: System, h: nat)
    requires h < |s.handles|
  {
    s.handles[h].token in s.cancelled
  }

  predicate Enabled(s: System, a: Action)
  {
    match a
    case Create(_, _) => s.actor.Idle?
    case ResumeLive(sid) => s.actor.Idle? && sid in s.sessions
    case ResumeLoad(sid, _, _, _) => s.actor.Idle? && sid !in s.sessions
    case Install => s.actor.Installing?
    case Count => s.actor.Counting?
    case BeginTurn(sid) => s.actor.Idle? && (sid in s.sessions ==> s.sessions[sid].h < |s.handles|)
    case SwapToken => s.actor.Swapping? && s.actor.h < |s.handles|
    case Remove(_) => s.actor.Idle?
    case Unshare => s.actor.Unsharing?
    case CancelBegin(sid) => sid in s.shared ==> s.shared[sid].h < |s.handles|
    case CancelFlag(c) =>
      c < |s.cancels| && s.cancels[c].Taken? && !s.cancels[c].flagged && s.cancels[c].h < |s.handles|
    case CancelFire(c) => c < |s.cancels| && s.cancels[c].Taken? && s.cancels[c].flagged && s.cancels[c].h < |s.handles|
    case Deliver(sid, _, _) => sid in s.shared ==> s.shared[sid].h < |s.handles|
    case OnProxy(h, step) =>
      && h < |s.handles| && !step.DeliverBegin?
      && (P.IsExecutorStep(step) ==> InTurn(s.handles[h]))
      && (step.Check? ==> step.gate == (s.handles[h].flag || TokenFired(s, h)))
      && P.Enabled(s.handles[h].proxy, step, TokenFired(s, h))
    case OnEntry(h, work) =>
      && h < |s.handles| && !work.Spawn?
      && (work.EndRun? ==> s.handles[h].proxy.phase.Ready?)
      && T.Enabled(s.handles[h].entry, work)
  }

  function Allocate(s: System, sid: string, key: string, seed: nat, hasSink: bool): (t: System)
  {
    var ref := Ref(|s.handles|, s.nextToken);
    s.(handles := s.handles + [Handle(P.Fresh(sid), T.Fresh(hasSink, seed), false, s.nextToken, 0, false)],
       nextToken := s.nextToken + 1,
       shared := s.shared[sid := ref],
       actor := Installing(key, ref))
  }

  function Apply(s: System, a: Action): (t: System)
    requires Enabled(s, a)
  {
    match a
    case Create(sid, hasSink) => Allocate(s, sid, sid, 0, hasSink)
    case ResumeLive(sid) => s
    case ResumeLoad(sid, fileSid, count, hasSink) => Allocate(s, fileSid, sid, count, hasSink)
    case Install => s.(sessions := s.sessions[s.actor.key := s.actor.ref], actor := Counting)
    case Count => s.(activeCount := |s.sessions|, actor := Idle)
    case BeginTurn(sid) =>
      if sid !in s.sessions then s
      else
        var h := s.sessions[sid].h;
        s.(handles := s.handles[h := s.handles[h].(flag := false)], actor := Swapping(sid, h))
    case SwapToken =>
      var Swapping(sid, h) := s.actor;
      var x := s.handles[h];
      s.(handles := s.handles[h := x.(turns := x.turns + 1, entry := T.Apply(x.entry, T.Spawn))],
         nextToken := s.nextToken + 1,
         shared := if sid in s.shared then s.shared[sid := s.shared[sid].(token := s.nextToken)] else s.shared,
         sessions := s.sessions[sid := Ref(h, s.nextToken)],
         actor := Idle)
    case Remove(sid) => s.(sessions := s.sessions - {sid}, actor := Unsharing(sid))
    case Unshare => s.(shared := s.shared - {s.actor.sid}, actor := Counting)
    case CancelBegin(sid) =>
      if sid !in s.shared then s.(cancels := s.cancels + [NoSession])
      else
        var ref := s.shared[sid];
        s.(cancels := s.cancels + [Taken(ref.h, ref.token, s.handles[ref.h].turns == 0, false)])
    case CancelFlag(c) =>
      var h := s.cancels[c].h;
      s.(handles := s.handles[h := s.handles[h].(flag := true)],
         cancels := s.cancels[c := s.cancels[c].(flagged := true)])
    case CancelFire(c) =>
      var Taken(h, token, early, _) := s.cancels[c];
      var x := s.handles[h];
      s.(handles := s.handles[h := x.(straddled := x.straddled || (early && x.turns > 0))],
         cancelled := s.cancelled + {token},
         cancels := s.cancels[c := Fired(h, early)])
    case Deliver(sid, id, payload) =>
      if sid !in s.shared then s else OnHandle(s, s.shared[sid].h, P.DeliverBegin(id, payload))
    case OnProxy(h, step) => OnHandle(s, h, step)
    case OnEntry(h, work) =>
      s.(handles := s.handles[h := s.handles[h].(entry := T.Apply(s.handles[h].entry, work))])
  }

  function OnHandle(s: System, h: nat, step: P.Action): (t: System)
    requires h < |s.handles| && P.Enabled(s.handles[h].proxy, step, TokenFired(s, h))
  {
    s.(handles := s.handles[h := s.handles[h].(proxy := P.Apply(s.handles[h].proxy, step, TokenFired(s, h)))])
  }

  /** The state a schedule leads to, if each of its steps is possible. */
  function Run(s: System, schedule: seq<Action>): (r: Option<System>)
    decreases |schedule|
  {
    if schedule == [] then Some(s)
    else if Enabled(s, schedule[0]) then Run(Apply(s, schedule[0]), schedule[1..])
    else None
  }

  // ---------------------------------------------------------------- handles

  predicate HandleInv(x: Handle)
  {
    && P.Inv(x.proxy) && T.Inv(x.entry)
    && (!x.proxy.phase.Ready? ==> InTurn(x))
    && x.turns == |x.entry.workers|
  }

  predicate Local(s: System)
  {
    && (forall h :: 0 <= h < |s.handles| ==> HandleInv(s.handles[h]))
  }

  lemma ProxyStepKeepsHandle(x: Handle, step: P.Action, fired: bool)
    requires HandleInv(x) && P.Enabled(x.proxy, step, fired)
    requires P.IsExecutorStep(step) ==> InTurn(x)
    ensures HandleInv(x.(proxy := P.Apply(x.proxy, step, fired)))
  {
    P.StepKeepsInv(x.proxy, step, fired);
    P.OnlyExecutorMovesPhase(x.proxy, step, fired);
  }

  lemma WorkStepKeepsHandle(x: Handle, work: T.Action)
    requires HandleInv(x) && T.Enabled(x.entry, work) && !work.Spawn?
    requires work.EndRun? ==> x.proxy.phase.Ready?
    ensures HandleInv(x.(entry := T.Apply(x.entry, work)))
  {
    T.StepKeepsInv(x.entry, work);
  }

  lemma SpawnKeepsHandle(x: Handle)
    requires HandleInv(x)
    ensures HandleInv(x.(turns := x.turns + 1, entry := T.Apply(x.entry, T.Spawn)))
  {
    T.StepKeepsInv(x.entry, T.Spawn);
  }

  lemma FreshHandle(sid: string, hasSink: bool, seed: nat, token: nat)
    ensures HandleInv(Handle(P.Fresh(sid), T.Fresh(hasSink, seed), false, token, 0, false))
  {
  }

  lemma OnHandleKeepsLocal(s: System, h: nat, step: P.Action)
    requires Local(s) && h < |s.handles| && P.Enabled(s.handles[h].proxy, step, TokenFired(s, h))
    requires P.IsExecutorStep(step) ==> InTurn(s.handles[h])
    ensures Local(OnHandle(s, h, step))
  {
    ProxyStepKeepsHandle(s.handles[h], step, TokenFired(s, h));
  }

  lemma AllocateKeepsLocal(s: System, sid: string, key: string, seed: nat, hasSink: bool)
    requires Local(s)
    ensures Local(Allocate(s, sid, key, seed, hasSink))
  {
    FreshHandle(sid, hasSink, seed, s.nextToken);
  }

  lemma StepKeepsLocal(s: System, a: Action)
    requires Local(s) && Enabled(s, a)
    ensures Local(Apply(s, a))
  {
    match a
    case OnProxy(h, step) => OnHandleKeepsLocal(s, h, step);
    case Deliver(sid, id, payload) =>
      if sid in s.shared { OnHandleKeepsLocal(s, s.shared[sid].h, P.DeliverBegin(id, payload)); }
    case OnEntry(h, work) => WorkStepKeepsHandle(s.handles[h], work);
    case SwapToken => SpawnKeepsHandle(s.handles[s.actor.h]);
    case Create(sid, hasSink) => AllocateKeepsLocal(s, sid, sid, 0, hasSink);
    case ResumeLoad(sid, fileSid, count, hasSink) => AllocateKeepsLocal(s, fileSid, sid, count, hasSink);
    case _ =>
  }

  // ---------------------------------------------------------------- actor maps

  /** Loaded session files carry the id they were requested under. */
  predicate FileMatches(a: Action)
  {
    a.ResumeLoad? ==> a.fileSid == a.sid
  }

  predicate FilesMatch(schedule: seq<Action>)
  {
    forall i :: 0 <= i < |schedule| ==> FileMatches(schedule[i])
  }

  /** How the live map, the shared map and the counter relate at each point of a command. */
  predicate Agree(s: System)
  {
    match s.actor
    case Idle => s.sessions == s.shared && s.activeCount == |s.sessions|
    case Installing(key, ref) => s.shared == s.sessions[key := ref] && s.activeCount == |s.sessions|
    case Counting => s.sessions == s.shared
    case Swapping(sid, h) =>
      s.sessions == s.shared && s.activeCount == |s.sessions| && sid in s.sessions && s.sessions[sid].h == h
    case Unsharing(sid) => s.sessions == s.shared - {sid}
  }

  lemma StepKeepsAgree(s: System, a: Action)
    requires Agree(s) && Enabled(s, a) && FileMatches(a)
    ensures Agree(Apply(s, a))
  {
  }

  /** A file with another id breaks the agreement, and only that does: the three steps of a disk
      resume from an agreeing state leave equal key sets exactly when the ids match. */
  lemma ResumeAgreesIffFileMatches(s: System, sid: string, fileSid: string, count: nat, hasSink: bool)
    requires s.actor.Idle? && Agree(s) && sid !in s.sessions
    ensures
      var schedule := [ResumeLoad(sid, fileSid, count, hasSink), Install, Count];
      && Run(s, schedule).Some?
      && var t := Run(s, schedule).value;
         t.actor.Idle? && (t.sessions.Keys == t.shared.Keys <==> fileSid == sid)
  {
    var load := ResumeLoad(sid, fileSid, count, hasSink);
    RunThree(s, load, Install, Count);
    ResumedKeys(s, load);
  }

  lemma ResumedKeys(s: System, load: Action)
    requires s.actor.Idle? && s.sessions == s.shared && load.ResumeLoad? && load.sid !in s.sessions
    ensures
      var t := Apply(Apply(Apply(s, load), Install), Count);
      t.actor.Idle? && (t.sessions.Keys == t.shared.Keys <==> load.fileSid == load.sid)
  {
    var t := Apply(Apply(Apply(s, load), Install), Count);
    var ref := Ref(|s.handles|, s.nextToken);
    assert t.sessions == s.sessions[load.sid := ref] && t.shared == s.shared[load.fileSid := ref];
    SameKeysIff(s.sessions, load.sid, load.fileSid, ref);
  }

  /** A session just created reports no messages, one just loaded from disk those of its file. */
  lemma NewSessionReports(s: System, a: Action)
    requires Enabled(s, a) && (a.Create? || a.ResumeLoad?)
    ensures
      var t := Run(s, [a, Install, Count]);
      && t.Some? && t.value.actor.Idle? && t.value.activeCount == |t.value.sessions|
      && a.sid in t.value.sessions
      && var h := t.value.sessions[a.sid].h;
         && h == |s.handles| < |t.value.handles|
         && t.value.handles[h].entry.msgCount == (if a.ResumeLoad? then a.count else 0)
  {
    RunThree(s, a, Install, Count);
  }

  /** Removing a session takes it, and nothing else, out of both maps; its handle stays for the
      worker that may still use it, but no delivery or cancel finds it any more. */
  lemma RemoveForgets(s: System, sid: string, id: string, payload: P.Payload)
    requires s.actor.Idle? && Agree(s)
    ensures
      var t := Run(s, [Remove(sid), Unshare, Count]);
      && t.Some? && t.value.actor.Idle? && t.value.handles == s.handles
      && t.value.sessions == s.sessions - {sid} == t.value.shared
      && t.value.activeCount == |t.value.sessions|
      && Enabled(t.value, Deliver(sid, id, payload)) && Apply(t.value, Deliver(sid, id, payload)) == t.value
      && Enabled(t.value, CancelBegin(sid)) && Apply(t.value, CancelBegin(sid)).cancels == s.cancels + [NoSession]
  {
    RunThree(s, Remove(sid), Unshare, Count);
  }

  lemma SameKeysIff(m: map<string, Ref>, k: string, l: string, ref: Ref)
    requires k !in m
    ensures m[k := ref].Keys == m[l := ref].Keys <==> k == l
  {
    assert k in m[k := ref].Keys;
  }

  lemma RunThree(s: System, a: Action, b: Action, c: Action)
    requires Enabled(s, a) && Enabled(Apply(s, a), b) && Enabled(Apply(Apply(s, a), b), c)
    ensures Run(s, [a, b, c]) == Some(Apply(Apply(Apply(s, a), b), c))
  {
    var second, third := Apply(Apply(s, a), b), Apply(Apply(Apply(s, a), b), c);
    assert [a, b, c][1..] == [b, c] && [b, c][1..] == [c] && [c][1..] == [];
    assert Run(third, []) == Some(third);
    assert Run(second, [c]) == Some(third);
  }

  // ---------------------------------------------------------------- tokens

  predicate RefInRange(hs: seq<Handle>, n: nat, sid: string, ref: Ref)
  {
    ref.h < |hs| && ref.token < n && hs[ref.h].proxy.sid == sid
  }

  /** A shared reference to the token some executor waits on belongs to that executor's session,
      and the session has had no turn command. */
  predicate Untouched(hs: seq<Handle>, ref: Ref)
    requires ref.h < |hs|
  {
    forall k :: 0 <= k < |hs| && hs[k].token == ref.token ==> k == ref.h && hs[k].turns == 0
  }

  predicate CancelInRange(hs: seq<Handle>, n: nat, c: Cancel)
  {
    c.Taken? ==>
      && c.h < |hs| && c.token < n
      && forall k :: 0 <= k < |hs| && hs[k].token == c.token ==> k == c.h && c.early
  }

  predicate HandleTokens(hs: seq<Handle>, n: nat)
  {
    && (forall h :: 0 <= h < |hs| ==> hs[h].token < n)
    && (forall h, k :: 0 <= h < k < |hs| ==> hs[h].token != hs[k].token)
  }

  predicate SharedTokens(hs: seq<Handle>, n: nat, shared: map<string, Ref>)
  {
    forall sid :: sid in shared ==> RefInRange(hs, n, sid, shared[sid]) && Untouched(hs, shared[sid])
  }

  predicate CancelTokens(hs: seq<Handle>, n: nat, cancels: seq<Cancel>)
  {
    forall c :: 0 <= c < |cancels| ==> CancelInRange(hs, n, cancels[c])
  }

  predicate TokenRefs(s: System)
  {
    && HandleTokens(s.handles, s.nextToken)
    && (forall t :: t in s.cancelled ==> t < s.nextToken)
    && SharedTokens(s.handles, s.nextToken, s.shared)
    && CancelTokens(s.handles, s.nextToken, s.cancels)
  }

  /** Past its cancel check, a wait can see its token fire only through a straddling cancel. */
  predicate Woken(x: Handle, fired: bool)
  {
    && ((x.proxy.phase.Assigned? || x.proxy.phase.Registered? || x.proxy.phase.Waiting?) && fired ==> x.straddled)
    && (x.proxy.phase.Cleaning? && x.proxy.phase.outcome.Cancelled? ==> x.straddled)
    && (forall i :: 0 <= i < |x.proxy.log| && x.proxy.log[i].Returned? && x.proxy.log[i].outcome.Cancelled? ==>
          x.straddled)
  }

  predicate Wakes(s: System)
  {
    forall h :: 0 <= h < |s.handles| ==> Woken(s.handles[h], s.handles[h].token in s.cancelled)
  }

  /** A step on one handle that keeps its session id, token and turn count keeps the references. */
  lemma HandleStepKeepsRefs(s: System, h: nat, x: Handle)
    requires TokenRefs(s) && h < |s.handles|
    requires x.token == s.handles[h].token && x.turns == s.handles[h].turns && x.proxy.sid == s.handles[h].proxy.sid
    ensures HandleTokens(s.handles[h := x], s.nextToken)
    ensures SharedTokens(s.handles[h := x], s.nextToken, s.shared)
    ensures CancelTokens(s.handles[h := x], s.nextToken, s.cancels)
  {
  }

  lemma AllocateKeepsRefs(s: System, sid: string, seed: nat, hasSink: bool)
    requires TokenRefs(s)
    ensures TokenRefs(Allocate(s, sid, sid, seed, hasSink))
  {
  }

  lemma SwapKeepsRefs(s: System)
    requires Agree(s) && TokenRefs(s) && Enabled(s, SwapToken)
    ensures TokenRefs(Apply(s, SwapToken))
  {
    var t := Apply(s, SwapToken);
    forall sid | sid in t.shared
      ensures RefInRange(t.handles, t.nextToken, sid, t.shared[sid]) && Untouched(t.handles, t.shared[sid])
    {
      assert RefInRange(s.handles, s.nextToken, sid, s.shared[sid]) && Untouched(s.handles, s.shared[sid]);
      assert RefInRange(s.handles, s.nextToken, s.actor.sid, s.shared[s.actor.sid]);
    }
  }

  lemma OnHandleKeepsRefs(s: System, h: nat, step: P.Action)
    requires TokenRefs(s) && h < |s.handles| && P.Enabled(s.handles[h].proxy, step, TokenFired(s, h))
    ensures TokenRefs(OnHandle(s, h, step))
  {
    P.OnlyExecutorMovesPhase(s.handles[h].proxy, step, TokenFired(s, h));
    HandleStepKeepsRefs(s, h, OnHandle(s, h, step).handles[h]);
  }

  lemma CancelKeepsRefs(s: System, a: Action)
    requires TokenRefs(s) && Enabled(s, a) && (a.CancelBegin? || a.CancelFlag? || a.CancelFire?)
    ensures TokenRefs(Apply(s, a))
  {
    if !a.CancelBegin? {
      assert CancelInRange(s.handles, s.nextToken, s.cancels[a.c]);
      var h := s.cancels[a.c].h;
      HandleStepKeepsRefs(s, h, Apply(s, a).handles[h]);
    } else if a.sid in s.shared {
      assert RefInRange(s.handles, s.nextToken, a.sid, s.shared[a.sid]) && Untouched(s.handles, s.shared[a.sid]);
    }
  }

  lemma StepKeepsRefs(s: System, a: Action)
    requires Agree(s) && TokenRefs(s) && Enabled(s, a) && FileMatches(a)
    ensures TokenRefs(Apply(s, a))
  {
    match a
    case OnProxy(h, step) => OnHandleKeepsRefs(s, h, step);
    case Deliver(sid, id, payload) =>
      if sid in s.shared { OnHandleKeepsRefs(s, s.shared[sid].h, P.DeliverBegin(id, payload)); }
    case OnEntry(h, work) => HandleStepKeepsRefs(s, h, Apply(s, a).handles[h]);
    case BeginTurn(sid) =>
      if sid in s.sessions { HandleStepKeepsRefs(s, s.sessions[sid].h, Apply(s, a).handles[s.sessions[sid].h]); }
    case SwapToken => SwapKeepsRefs(s);
    case Create(sid, hasSink) => AllocateKeepsRefs(s, sid, 0, hasSink);
    case ResumeLoad(sid, _, count, hasSink) => AllocateKeepsRefs(s, sid, count, hasSink);
    case CancelBegin(_) => CancelKeepsRefs(s, a);
    case CancelFlag(_) => CancelKeepsRefs(s, a);
    case CancelFire(_) => CancelKeepsRefs(s, a);
    case _ =>
  }

  lemma ProxyStepKeepsWoken(x: Handle, step: P.Action, fired: bool)
    requires Woken(x, fired) && P.Enabled(x.proxy, step, fired)
    ensures Woken(x.(proxy := P.Apply(x.proxy, step, fired)), fired)
  {
  }

  /** Only a session with a turn command has an execute under way. */
  predicate Turned(hs: seq<Handle>)
  {
    forall h :: 0 <= h < |hs| && !hs[h].proxy.phase.Ready? ==> hs[h].turns > 0
  }

  lemma LocalGivesTurned(s: System)
    requires Local(s)
    ensures Turned(s.handles)
  {
    forall h | 0 <= h < |s.handles| && !s.handles[h].proxy.phase.Ready? ensures s.handles[h].turns > 0 {
      assert HandleInv(s.handles[h]);
    }
  }

  lemma CancelKeepsWakes(s: System, c: nat)
    requires Turned(s.handles) && TokenRefs(s) && Wakes(s) && Enabled(s, CancelFire(c))
    ensures Wakes(Apply(s, CancelFire(c)))
  {
    assert CancelInRange(s.handles, s.nextToken, s.cancels[c]);
  }

  lemma OnHandleKeepsWakes(s: System, h: nat, step: P.Action)
    requires Wakes(s) && h < |s.handles| && P.Enabled(s.handles[h].proxy, step, TokenFired(s, h))
    ensures Wakes(OnHandle(s, h, step))
  {
    ProxyStepKeepsWoken(s.handles[h], step, TokenFired(s, h));
  }

  lemma AllocateKeepsWakes(s: System, sid: string, key: string, seed: nat, hasSink: bool)
    requires Wakes(s)
    ensures Wakes(Allocate(s, sid, key, seed, hasSink))
  {
    assert P.Fresh(sid).phase.Ready? && P.Fresh(sid).log == [];
  }

  lemma StepKeepsWakes(s: System, a: Action)
    requires Turned(s.handles) && TokenRefs(s) && Wakes(s) && Enabled(s, a)
    ensures Wakes(Apply(s, a))
  {
    match a
    case OnProxy(h, step) => OnHandleKeepsWakes(s, h, step);
    case Deliver(sid, id, payload) =>
      if sid in s.shared { OnHandleKeepsWakes(s, s.shared[sid].h, P.DeliverBegin(id, payload)); }
    case CancelFire(c) => CancelKeepsWakes(s, c);
    case Create(sid, hasSink) => AllocateKeepsWakes(s, sid, sid, 0, hasSink);
    case ResumeLoad(sid, fileSid, count, hasSink) => AllocateKeepsWakes(s, fileSid, sid, count, hasSink);
    case _ =>
  }

  // ---------------------------------------------------------------- whose token a cancel fires

  /** Until a session's first turn command its shared entry holds the executor's own token. */
  predicate OwnShared(hs: seq<Handle>, shared: map<string, Ref>)
  {
    forall sid :: sid in shared && shared[sid].h < |hs| && hs[shared[sid].h].turns == 0 ==>
      shared[sid].token == hs[shared[sid].h].token
  }

  /** An early cancel holds the executor's own token. */
  predicate OwnTaken(hs: seq<Handle>, cancels: seq<Cancel>)
  {
    forall c :: 0 <= c < |cancels| && cancels[c].Taken? && cancels[c].early ==>
                  cancels[c].h < |hs| && cancels[c].token == hs[cancels[c].h].token
  }

  /** An early cancel of handle `h` has gone all the way. */
  predicate EarlyFired(cancels: seq<Cancel>, h: nat)
  {
    exists c :: 0 <= c < |cancels| && cancels[c] == Fired(h, true)
  }

  /** The executor's own token has fired exactly when an early cancel has. */
  predicate OwnFired(hs: seq<Handle>, cancelled: set<nat>, cancels: seq<Cancel>)
  {
    && (forall h :: 0 <= h < |hs| ==> (hs[h].token in cancelled <==> EarlyFired(cancels, h)))
    && (forall h :: 0 <= h < |hs| && hs[h].straddled ==> hs[h].token in cancelled)
    && (forall c :: 0 <= c < |cancels| && cancels[c].Fired? ==> cancels[c].h < |hs|)
  }

  predicate OwnTokens(s: System)
  {
    OwnShared(s.handles, s.shared) && OwnTaken(s.handles, s.cancels) && OwnFired(s.handles, s.cancelled, s.cancels)
  }

  /** Steps that leave a handle's token, turn count and mark alone keep all three. */
  lemma HandleStepKeepsOwn(s: System, h: nat, x: Handle)
    requires OwnTokens(s) && h < |s.handles|
    requires x.token == s.handles[h].token && x.turns == s.handles[h].turns && x.straddled == s.handles[h].straddled
    ensures OwnShared(s.handles[h := x], s.shared) && OwnTaken(s.handles[h := x], s.cancels)
    ensures OwnFired(s.handles[h := x], s.cancelled, s.cancels)
  {
  }

  lemma AllocateKeepsOwn(s: System, sid: string, seed: nat, hasSink: bool)
    requires TokenRefs(s) && OwnTokens(s)
    ensures OwnTokens(Allocate(s, sid, sid, seed, hasSink))
  {
    var t := Allocate(s, sid, sid, seed, hasSink);
    forall k | k in t.shared && k != sid ensures t.shared[k].h < |s.handles| {
      assert RefInRange(s.handles, s.nextToken, k, s.shared[k]);
    }
  }

  lemma SwapKeepsOwn(s: System)
    requires Agree(s) && TokenRefs(s) && OwnTokens(s) && Enabled(s, SwapToken)
    ensures OwnTokens(Apply(s, SwapToken))
  {
    var t := Apply(s, SwapToken);
    forall k | k in t.shared && k != s.actor.sid ensures t.shared[k].h != s.actor.h {
      assert RefInRange(s.handles, s.nextToken, k, s.shared[k]);
      assert RefInRange(s.handles, s.nextToken, s.actor.sid, s.shared[s.actor.sid]);
    }
  }

  lemma BeginKeepsOwn(s: System, sid: string)
    requires TokenRefs(s) && OwnTokens(s) && Enabled(s, CancelBegin(sid))
    ensures OwnTokens(Apply(s, CancelBegin(sid)))
  {
    var t := Apply(s, CancelBegin(sid));
    forall h ensures EarlyFired(t.cancels, h) <==> EarlyFired(s.cancels, h) {
      EarlyFiredAppend(s.cancels, t.cancels[|s.cancels|], h);
    }
  }

  lemma EarlyFiredAppend(cancels: seq<Cancel>, c: Cancel, h: nat)
    requires !c.Fired?
    ensures EarlyFired(cancels + [c], h) <==> EarlyFired(cancels, h)
  {
    if EarlyFired(cancels, h) {
      var i :| 0 <= i < |cancels| && cancels[i] == Fired(h, true);
      assert (cancels + [c])[i] == Fired(h, true);
    }
  }

  lemma EarlyFiredUpdate(cancels: seq<Cancel>, i: nat, c: Cancel, h: nat)
    requires i < |cancels| && !cancels[i].Fired?
    ensures EarlyFired(cancels[i := c], h) <==> EarlyFired(cancels, h) || c == Fired(h, true)
  {
    var updated := cancels[i := c];
    assert updated[i] == c;
    if EarlyFired(cancels, h) {
      var k :| 0 <= k < |cancels| && cancels[k] == Fired(h, true);
      assert updated[k] == Fired(h, true);
    }
  }

  lemma FlagKeepsOwn(s: System, c: nat)
    requires OwnTokens(s) && Enabled(s, CancelFlag(c))
    ensures OwnTokens(Apply(s, CancelFlag(c)))
  {
    var h := s.cancels[c].h;
    HandleStepKeepsOwn(s, h, s.handles[h].(flag := true));
    forall k ensures EarlyFired(Apply(s, CancelFlag(c)).cancels, k) <==> EarlyFired(s.cancels, k) {
      EarlyFiredUpdate(s.cancels, c, s.cancels[c].(flagged := true), k);
    }
  }

  lemma FireKeepsOwn(s: System, c: nat)
    requires TokenRefs(s) && OwnTokens(s) && Enabled(s, CancelFire(c))
    ensures OwnTokens(Apply(s, CancelFire(c)))
  {
    var t := Apply(s, CancelFire(c));
    assert CancelInRange(s.handles, s.nextToken, s.cancels[c]);
    forall k ensures EarlyFired(t.cancels, k) <==> EarlyFired(s.cancels, k) || t.cancels[c] == Fired(k, true) {
      EarlyFiredUpdate(s.cancels, c, t.cancels[c], k);
    }
  }

  lemma StepKeepsOwn(s: System, a: Action)
    requires Agree(s) && TokenRefs(s) && OwnTokens(s) && Enabled(s, a) && FileMatches(a)
    ensures OwnTokens(Apply(s, a))
  {
    match a
    case OnProxy(h, step) => HandleStepKeepsOwn(s, h, Apply(s, a).handles[h]);
    case Deliver(sid, _, _) =>
      if sid in s.shared { HandleStepKeepsOwn(s, s.shared[sid].h, Apply(s, a).handles[s.shared[sid].h]); }
    case OnEntry(h, _) => HandleStepKeepsOwn(s, h, Apply(s, a).handles[h]);
    case BeginTurn(sid) =>
      if sid in s.sessions { HandleStepKeepsOwn(s, s.sessions[sid].h, Apply(s, a).handles[s.sessions[sid].h]); }
    case SwapToken => SwapKeepsOwn(s);
    case Create(sid, hasSink) => AllocateKeepsOwn(s, sid, 0, hasSink);
    case ResumeLoad(sid, _, count, hasSink) => AllocateKeepsOwn(s, sid, count, hasSink);
    case CancelBegin(sid) => BeginKeepsOwn(s, sid);
    case CancelFlag(c) => FlagKeepsOwn(s, c);
    case CancelFire(c) => FireKeepsOwn(s, c);
    case _ =>
  }

  // ---------------------------------------------------------------- every run

  predicate Safe(s: System)
  {
    Local(s) && Agree(s) && TokenRefs(s) && Wakes(s) && OwnTokens(s)
  }

  lemma {:induction false} RunKeepsLocal(s: System, schedule: seq<Action>)
    requires Local(s) && Run(s, schedule).Some?
    ensures Local(Run(s, schedule).value)
    decreases |schedule|
  {
    if schedule != [] {
      StepKeepsLocal(s, schedule[0]);
      RunKeepsLocal(Apply(s, schedule[0]), schedule[1..]);
    }
  }

  lemma StepKeepsSafe(s: System, a: Action)
    requires Safe(s) && Enabled(s, a) && FileMatches(a)
    ensures Safe(Apply(s, a))
  {
    LocalGivesTurned(s);
    StepKeepsLocal(s, a);
    StepKeepsAgree(s, a);
    StepKeepsRefs(s, a);
    StepKeepsWakes(s, a);
    StepKeepsOwn(s, a);
  }

  lemma {:induction false} RunKeepsSafe(s: System, schedule: seq<Action>)
    requires Safe(s) && FilesMatch(schedule) && Run(s, schedule).Some?
    ensures Safe(Run(s, schedule).value)
    decreases |schedule|
  {
    if schedule != [] {
      var a := schedule[0];
      assert FileMatches(a);
      StepKeepsSafe(s, a);
      RunKeepsSafe(Apply(s, a), schedule[1..]);
    }
  }

  /** Exactly-once delivery and slot ownership, for every session handle in every interleaving. */
  lemma DeliveryIsExactlyOnce(schedule: seq<Action>, h: nat)
    requires Run(INIT, schedule).Some? && h < |Run(INIT, schedule).value.handles|
    ensures
      var p := Run(INIT, schedule).value.handles[h].proxy;
      && P.ExactlyOnce(p.log)
      && (p.phase.Ready? ==> p.pending == map[])
      && (p.phase.Assigned? ==> p.phase.id !in p.pending)
      && (p.phase.InFlight() ==> p.pending.Keys <= {p.phase.id})
      && (p.phase.Waiting? ==> forall fired :: !P.CanResolve(p, P.Disconnected, fired))
      && (forall i :: 0 <= i < |p.log| && p.log[i].Returned? ==> p.log[i].outcome != P.Disconnected)
  {
    RunKeepsLocal(INIT, schedule);
    var x := Run(INIT, schedule).value.handles[h];
    assert HandleInv(x);
    P.InvGivesExactlyOnce(x.proxy);
    P.InvGivesSlotOwnership(x.proxy);
    assert forall i :: 0 <= i < |x.proxy.log| ==> P.Recorded(x.proxy, x.proxy.log[i]);
  }

  /** In every interleaving the newest card of a handle that waits names the instruction it waits on,
      and no id stands on two of its cards. */
  lemma CardsNameTheWait(schedule: seq<Action>, h: nat)
    requires Run(INIT, schedule).Some? && h < |Run(INIT, schedule).value.handles|
    ensures
      var p := Run(INIT, schedule).value.handles[h].proxy;
      && P.CardsAreDistinct(p.log)
      && (p.phase.Waiting? ==> forall id :: P.NewestCard(p.log, id) <==> id == p.phase.id)
  {
    RunKeepsLocal(INIT, schedule);
    assert HandleInv(Run(INIT, schedule).value.handles[h]);
    P.InvGivesCards(Run(INIT, schedule).value.handles[h].proxy);
  }

  /** In every interleaving, an undisturbed answer to the newest card of a waiting handle is accepted and
      can win the race, as long as no other answer to it has come first. */
  lemma AnswerToCardAccepted(schedule: seq<Action>, h: nat, id: string, payload: P.Payload)
    requires Run(INIT, schedule).Some? && h < |Run(INIT, schedule).value.handles|
    requires
      var p := Run(INIT, schedule).value.handles[h].proxy;
      && p.phase.Waiting? && P.NewestCard(p.log, id) && p.phase.ch < |p.channels| && p.channels[p.phase.ch] == P.Open
      && forall d :: 0 <= d < |p.deliveries| ==> !P.Holds(p.deliveries[d], p.phase.ch)
    ensures
      var p := Run(INIT, schedule).value.handles[h].proxy;
      var d := |p.deliveries|;
      var taken := P.Apply(P.Apply(p, P.DeliverBegin(id, payload), false), P.DeliverTake(d), false);
      && P.Enabled(taken, P.DeliverSend(d), false)
      && var q := P.Apply(taken, P.DeliverSend(d), false);
         q.deliveries[d] == P.Answered(true) && q.phase == p.phase && P.CanResolve(q, P.Result(payload), false)
  {
    RunKeepsLocal(INIT, schedule);
    var p := Run(INIT, schedule).value.handles[h].proxy;
    assert HandleInv(Run(INIT, schedule).value.handles[h]);
    P.CardHasItsSlot(p, id);
    P.UndisturbedDeliveryAccepted(p, id, payload);
  }

  /** In every interleaving, whatever an execute returns as operator text was accepted earlier for its
      id: output as output, error as error. */
  lemma RepliesAreDelivered(schedule: seq<Action>, h: nat, i: nat)
    requires Run(INIT, schedule).Some? && h < |Run(INIT, schedule).value.handles|
    requires
      var log := Run(INIT, schedule).value.handles[h].proxy.log;
      i < |log| && log[i].Returned?
    ensures P.ReplyWasAccepted(Run(INIT, schedule).value.handles[h].proxy.log, i)
  {
    DeliveryIsExactlyOnce(schedule, h);
    P.ExactlyOnceGivesReply(Run(INIT, schedule).value.handles[h].proxy.log, i);
  }

  /** Turns of one handle are serial, its checkpoints are 0, 1, 2, ..., its sink belongs to the turn
      that runs, and executes happen only inside that turn. */
  lemma TurnsAreSerial(schedule: seq<Action>, h: nat)
    requires Run(INIT, schedule).Some? && h < |Run(INIT, schedule).value.handles|
    ensures
      var x := Run(INIT, schedule).value.handles[h];
      var e := x.entry;
      && (forall v, w :: 0 <= v < |e.workers| && 0 <= w < |e.workers|
                         && T.HoldsLock(e.workers[v]) && T.HoldsLock(e.workers[w])
                         ==> v == w)
      && (forall i :: 0 <= i < |T.Steps(e.log)| ==> T.Steps(e.log)[i] == i)
      && (e.sink.Some? ==> e.sink.value < |e.workers| && e.workers[e.sink.value].Running?)
      && (e.hasSink ==> forall w :: 0 <= w < |e.workers| && e.workers[w].Running? ==> e.sink == Some(w))
      && (!x.proxy.phase.Ready? ==> InTurn(x))
  {
    RunKeepsLocal(INIT, schedule);
    var x := Run(INIT, schedule).value.handles[h];
    assert HandleInv(x);
    T.InvGivesSerialTurns(x.entry);
  }

  // ---------------------------------------------------------------- what a live resume reports

  /** The work an action does on the entry of handle `h`, apart from queueing a worker. */
  function WorkOn(a: Action, h: nat): (work: Option<T.Action>)
  {
    if a.OnEntry? && a.h == h then Some(a.work) else None
  }

  function CountsWith(counts: seq<nat>, a: Action, h: nat): (more: seq<nat>)
  {
    var work := WorkOn(a, h);
    if work.Some? then counts + T.EndedWith(work.value) else counts
  }

  function UnlocksWith(n: nat, a: Action, h: nat): (m: nat)
  {
    var work := WorkOn(a, h);
    if work.Some? then n + T.UnlockedBy(work.value) else n
  }

  /** The message counts the turns of handle `h` ended with, read off the schedule. */
  function EndCounts(schedule: seq<Action>, h: nat): (counts: seq<nat>)
  {
    if schedule == [] then []
    else CountsWith(EndCounts(schedule[..|schedule| - 1], h), schedule[|schedule| - 1], h)
  }

  /** How many turns of handle `h` have released the lock, read off the schedule. */
  function Unlocks(schedule: seq<Action>, h: nat): (n: nat)
  {
    if schedule == [] then 0
    else UnlocksWith(Unlocks(schedule[..|schedule| - 1], h), schedule[|schedule| - 1], h)
  }

  /** The last step of a run. */
  lemma {:induction false} RunLast(s: System, schedule: seq<Action>)
    requires schedule != [] && Run(s, schedule).Some?
    ensures
      var init, a := schedule[..|schedule| - 1], schedule[|schedule| - 1];
      Run(s, init).Some? && Enabled(Run(s, init).value, a) && Run(s, schedule) == Some(Apply(Run(s, init).value, a))
    decreases |schedule|
  {
    var init := schedule[..|schedule| - 1];
    if |schedule| == 1 {
      assert init == [] && schedule[1..] == [];
    } else {
      RunLast(Apply(s, schedule[0]), schedule[1..]);
      assert schedule[1..][..|schedule| - 2] == init[1..] && init[0] == schedule[0];
    }
  }

  /** What a step does to the entry of a handle: its own work, a queued worker, or nothing. */
  lemma StepOnEntry(s: System, a: Action, h: nat)
    requires Enabled(s, a)
    ensures |s.handles| <= |Apply(s, a).handles|
    ensures
      h < |s.handles| ==>
      var e, f := s.handles[h].entry, Apply(s, a).handles[h].entry;
      var work := WorkOn(a, h);
      if work.Some? then T.Enabled(e, work.value) && f == T.Apply(e, work.value)
      else f == e || f == T.Apply(e, T.Spawn)
    ensures |s.handles| <= h ==> WorkOn(a, h).None?
    ensures |s.handles| <= h < |Apply(s, a).handles| ==>
              exists hasSink, seed :: Apply(s, a).handles[h].entry == T.Fresh(hasSink, seed)
  {
  }

  /** The counts of a handle, or of one not allocated yet. */
  predicate Counted(s: System, h: nat, counts: seq<nat>, unlocks: nat)
  {
    if h < |s.handles| then T.Inv(s.handles[h].entry) && T.Tracks(s.handles[h].entry, counts, unlocks)
    else counts == [] && unlocks == 0
  }

  lemma FreshTracks(hasSink: bool, seed: nat)
    ensures T.Inv(T.Fresh(hasSink, seed)) && T.Tracks(T.Fresh(hasSink, seed), [], 0)
  {
  }

  lemma EntryCounts(e: T.Entry, f: T.Entry, a: Action, h: nat, counts: seq<nat>, unlocks: nat)
    requires T.Inv(e) && T.Tracks(e, counts, unlocks)
    requires
      var work := WorkOn(a, h);
      if work.Some? then T.Enabled(e, work.value) && f == T.Apply(e, work.value) else f == e || f == T.Apply(e, T.Spawn)
    ensures T.Inv(f) && T.Tracks(f, CountsWith(counts, a, h), UnlocksWith(unlocks, a, h))
  {
    var work := WorkOn(a, h);
    if work.Some? {
      T.StepKeepsInv(e, work.value);
      T.StepTracks(e, work.value, counts, unlocks);
    } else if f != e {
      T.StepKeepsInv(e, T.Spawn);
      T.QueueTracks(e, T.Spawn, counts, unlocks);
    }
  }

  lemma StepCounts(s: System, a: Action, h: nat, counts: seq<nat>, unlocks: nat)
    requires Enabled(s, a) && Counted(s, h, counts, unlocks)
    ensures Counted(Apply(s, a), h, CountsWith(counts, a, h), UnlocksWith(unlocks, a, h))
  {
    StepOnEntry(s, a, h);
    var t := Apply(s, a);
    if h < |s.handles| {
      EntryCounts(s.handles[h].entry, t.handles[h].entry, a, h, counts, unlocks);
    } else if h < |t.handles| {
      var hasSink, seed :| t.handles[h].entry == T.Fresh(hasSink, seed);
      FreshTracks(hasSink, seed);
    }
  }

  lemma {:induction false} RunCounts(schedule: seq<Action>, h: nat)
    requires Run(INIT, schedule).Some?
    ensures Counted(Run(INIT, schedule).value, h, EndCounts(schedule, h), Unlocks(schedule, h))
  {
    if schedule == [] {
      assert Run(INIT, schedule).value.handles == [];
    } else {
      RunLast(INIT, schedule);
      RunCounts(schedule[..|schedule| - 1], h);
      CountsFollow(schedule, h, Run(INIT, schedule[..|schedule| - 1]).value);
    }
  }

  /** One more step of the schedule. */
  lemma CountsFollow(schedule: seq<Action>, h: nat, s: System)
    requires schedule != [] && Enabled(s, schedule[|schedule| - 1])
    requires
      var init := schedule[..|schedule| - 1];
      Counted(s, h, EndCounts(init, h), Unlocks(init, h))
    ensures
      var t := Apply(s, schedule[|schedule| - 1]);
      Counted(t, h, EndCounts(schedule, h), Unlocks(schedule, h))
  {
    var init, a := schedule[..|schedule| - 1], schedule[|schedule| - 1];
    StepCounts(s, a, h, EndCounts(init, h), Unlocks(init, h));
  }

  /** The published count of handle `h` is the one its last turn to release the lock ended with, or the
      one it began with. */
  predicate ReportsLast(s: System, schedule: seq<Action>, h: nat)
    requires h < |s.handles|
  {
    var counts, n := EndCounts(schedule, h), Unlocks(schedule, h);
    n <= |counts| && s.handles[h].entry.msgCount == if n == 0 then s.handles[h].entry.seed else counts[n - 1]
  }

  /** In every interleaving, read off the schedule: a handle publishes the message count its last turn to
      release the lock ended with, or the count it began with if none has, and its checkpoint with index
      `k` carries the count its turn number `k` ended with. */
  lemma CountsArePublished(schedule: seq<Action>, h: nat)
    requires Run(INIT, schedule).Some? && h < |Run(INIT, schedule).value.handles|
    ensures
      var e := Run(INIT, schedule).value.handles[h].entry;
      var counts := EndCounts(schedule, h);
      && ReportsLast(Run(INIT, schedule).value, schedule, h)
      && |T.SavedCounts(e.log)| <= |counts| && |T.SavedCounts(e.log)| == |T.Steps(e.log)|
      && forall k :: 0 <= k < |T.SavedCounts(e.log)| ==> T.SavedCounts(e.log)[k] == counts[k]
  {
    RunCounts(schedule, h);
    T.StepsAndCounts(Run(INIT, schedule).value.handles[h].entry.log);
  }

  /** Between commands the live map, the shared map and the counter agree, and a live resume changes
      nothing and reports the message count the session's last finished turn ended with, or the count
      the handle began with. */
  lemma MapsAgree(schedule: seq<Action>)
    requires FilesMatch(schedule) && Run(INIT, schedule).Some? && Run(INIT, schedule).value.actor.Idle?
    ensures
      var s := Run(INIT, schedule).value;
      && s.sessions == s.shared && s.activeCount == |s.sessions|
      && forall sid :: sid in s.sessions ==>
           && s.sessions[sid].h < |s.handles|
           && Enabled(s, ResumeLive(sid)) && Apply(s, ResumeLive(sid)) == s
           && ReportsLast(s, schedule, s.sessions[sid].h)
  {
    RunKeepsSafe(INIT, schedule);
    var s := Run(INIT, schedule).value;
    forall sid | sid in s.sessions
      ensures s.sessions[sid].h < |s.handles| && ReportsLast(s, schedule, s.sessions[sid].h)
    {
      assert RefInRange(s.handles, s.nextToken, sid, s.shared[sid]);
      CountsArePublished(schedule, s.sessions[sid].h);
    }
  }

  /** Once a session has had a turn command, `cancel_turn` fires another token than the one its
      executor waits on.  A wait can be ended by cancel exactly on a handle with a straddling cancel,
      and no other execute ever ended so. */
  lemma CancelWakesIffStraddled(schedule: seq<Action>, h: nat)
    requires FilesMatch(schedule) && Run(INIT, schedule).Some? && h < |Run(INIT, schedule).value.handles|
    ensures
      var s := Run(INIT, schedule).value;
      var x := s.handles[h];
      && (x.turns > 0 ==> forall sid :: sid in s.shared ==> s.shared[sid].token != x.token)
      && (x.proxy.phase.Waiting? ==> (P.CanResolve(x.proxy, P.Cancelled, TokenFired(s, h)) <==> x.straddled))
      && (!x.straddled ==>
            forall i :: 0 <= i < |x.proxy.log| && x.proxy.log[i].Returned? ==> x.proxy.log[i].outcome != P.Cancelled)
  {
    RunKeepsSafe(INIT, schedule);
    var s := Run(INIT, schedule).value;
    assert Woken(s.handles[h], s.handles[h].token in s.cancelled);
    assert HandleInv(s.handles[h]);
    forall sid | sid in s.shared && s.shared[sid].token == s.handles[h].token
      ensures s.handles[h].turns == 0
    {
      assert Untouched(s.handles, s.shared[sid]);
    }
  }

  /** The executor's own token has fired exactly when some cancel that read the shared map before the
      first turn command has fired, before or after that command. */
  lemma TokenFiredIffEarlyCancel(schedule: seq<Action>, h: nat)
    requires FilesMatch(schedule) && Run(INIT, schedule).Some? && h < |Run(INIT, schedule).value.handles|
    ensures
      var s := Run(INIT, schedule).value;
      TokenFired(s, h) <==> EarlyFired(s.cancels, h)
  {
    RunKeepsSafe(INIT, schedule);
  }
}
