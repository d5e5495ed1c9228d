/**
 One proxy executor and the deliveries aimed at its pending map, as a transition system.

 `execute` is cut at its awaits: check and take an id, register a one-shot channel, dispatch the
 card, resolve the race, clean up.  `deliver_proxy_result` is cut into snapshot, take and send.
 Every interleaving of these steps is a run; nothing is assumed about time, so a timeout may
 resolve a wait at any moment.
 */
module ProxySlots {
  import opened Basics

  datatype Payload = Payload(output: string, isError: bool)

  datatype Outcome = Result(payload: Payload) | Cancelled | Disconnected | TimedOut | DispatchFailed

  /** A one-shot channel: empty, holding a value not yet read, or with its receiver dropped. */
  datatype Channel = Open | Full(payload: Payload) | Closed

  datatype Phase =
    | Ready
    | Assigned(id: string)
    | Registered(id: string, ch: nat)
    | Waiting(id: string, ch: nat)
    | Cleaning(id: string, ch: nat, outcome: Outcome)
  {
    /** The instruction of this phase has a registered channel. */
    predicate InFlight() { Registered? || Waiting? || Cleaning? }
    /** The receiving half of the channel has not been dropped yet. */
    predicate Listening() { Registered? || Waiting? || (Cleaning? && outcome == DispatchFailed) }
  }

  datatype Delivery =
    | Snapshot(id: string, payload: Payload)
    | Holding(id: string, ch: nat, payload: Payload)
    | Answered(accepted: bool)

  /** What an observer of the executor and of the delivery calls sees, in order. */
  datatype Event =
    | CheckRefused
    | Dispatched(id: string, ch: nat)
    | Accepted(id: string, ch: nat, payload: Payload)
    | Returned(id: string, ch: nat, outcome: Outcome)

  datatype Proxy = Proxy(
    sid: string,
    nextSeq: nat,
    phase: Phase,
    pending: map<string, nat>,
    channels: seq<Channel>,
    deliveries: seq<Delivery>,
    log: seq<Event>)

  function Fresh(sid: string): (p: Proxy)
  {
    Proxy(sid, 0, Ready, map[], [], [], [])
  }

  function InstructionId(sid: string, n: nat): (id: string)
  {
    "inst-" + sid + "-" + Decimal(n)
  }

  /** What `execute` hands back to the runtime. */
  function Reply(o: Outcome): (r: Basics.Result<string, string>)
  {
    match o
    case Result(p) => if p.isError then Err(p.output) else Ok(p.output)
    case Cancelled => Err("proxy tool cancelled by user")
    case Disconnected => Err("proxy result channel disconnected")
    case TimedOut => Err("proxy tool timed out after 1800 seconds")
    case DispatchFailed => Err("failed to dispatch proxy instruction")
  }

  /** `gate` is the cancel check: the session's flag or the executor's token is set. */
  datatype Action =
    | Check(gate: bool)
    | Register
    | Dispatch(ok: bool)
    | Resolve(outcome: Outcome)
    | Clean
    | DeliverBegin(id: string, payload: Payload)
    | DeliverTake(d: nat)
    | DeliverSend(d: nat)

  /** Steps taken by `execute` itself, as opposed to steps of delivery calls. */
  predicate IsExecutorStep(a: Action)
  {
    a.Check? || a.Register? || a.Dispatch? || a.Resolve? || a.Clean?
  }

  predicate Holds(d: Delivery, ch: nat)
  {
    d.Holding? && d.ch == ch
  }

  /** The sending half of channel `ch` still exists: in the pending map or in a delivery's hand. */
  predicate SenderAlive(p: Proxy, ch: nat)
  {
    ch in p.pending.Values || exists d :: 0 <= d < |p.deliveries| && Holds(p.deliveries[d], ch)
  }

  /** Which arms of the `select!` may win.  The token is read by the caller (`tokenFired`). */
  predicate CanResolve(p: Proxy, o: Outcome, tokenFired: bool)
    requires p.phase.Waiting?
  {
    var ch := p.phase.ch;
    ch < |p.channels| &&
    match o
    case Result(payload) => p.channels[ch] == Full(payload)
    case Cancelled => tokenFired
    case Disconnected => p.channels[ch] == Open && !SenderAlive(p, ch)
    case TimedOut => true
    case DispatchFailed => false
  }

  predicate Enabled(p: Proxy, a: Action, tokenFired: bool)
  {
    match a
    case Check(gate) => p.phase.Ready? && (tokenFired ==> gate)
    case Register => p.phase.Assigned?
    case Dispatch(_) => p.phase.Registered?
    case Resolve(o) => p.phase.Waiting? && CanResolve(p, o, tokenFired)
    case Clean => p.phase.Cleaning? && p.phase.ch < |p.channels|
    case DeliverBegin(_, _) => true
    case DeliverTake(d) => d < |p.deliveries| && p.deliveries[d].Snapshot?
    case DeliverSend(d) => d < |p.deliveries| && p.deliveries[d].Holding? && p.deliveries[d].ch < |p.channels|
  }

  function Apply(p: Proxy, a: Action, tokenFired: bool): (q: Proxy)
    requires Enabled(p, a, tokenFired)
  {
    match a
    case Check(gate) =>
      if gate then p.(log := p.log + [CheckRefused])
      else p.(nextSeq := p.nextSeq + 1, phase := Assigned(InstructionId(p.sid, p.nextSeq + 1)))
    case Register =>
      var ch := |p.channels|;
      p.(pending := p.pending[p.phase.id := ch], channels := p.channels + [Open],
         phase := Registered(p.phase.id, ch))
    case Dispatch(ok) =>
      if ok then p.(phase := Waiting(p.phase.id, p.phase.ch), log := p.log + [Dispatched(p.phase.id, p.phase.ch)])
      else p.(phase := Cleaning(p.phase.id, p.phase.ch, DispatchFailed))
    case Resolve(o) =>
      p.(phase := Cleaning(p.phase.id, p.phase.ch, o), channels := p.channels[p.phase.ch := Closed])
    case Clean =>
      p.(pending := p.pending - {p.phase.id}, channels := p.channels[p.phase.ch := Closed], phase := Ready,
         log := p.log + [Returned(p.phase.id, p.phase.ch, p.phase.outcome)])
    case DeliverBegin(id, payload) => p.(deliveries := p.deliveries + [Snapshot(id, payload)])
    case DeliverTake(d) =>
      var Snapshot(id, payload) := p.deliveries[d];
      if id in p.pending then
        p.(pending := p.pending - {id}, deliveries := p.deliveries[d := Holding(id, p.pending[id], payload)])
      else p.(deliveries := p.deliveries[d := Answered(false)])
    case DeliverSend(d) =>
      var Holding(id, ch, payload) := p.deliveries[d];
      if p.channels[ch] == Open then
        p.(channels := p.channels[ch := Full(payload)], deliveries := p.deliveries[d := Answered(true)],
           log := p.log + [Accepted(id, ch, payload)])
      else p.(deliveries := p.deliveries[d := Answered(false)])
  }

  // ---------------------------------------------------------------- invariants

  /** Channels are numbered as instructions are, and the phase carries the newest one. */
  predicate Numbered(p: Proxy)
  {
    && p.nextSeq == |p.channels| + (if p.phase.Assigned? then 1 else 0)
    && (p.phase.InFlight() ==> p.phase.ch + 1 == p.nextSeq)
  }

  /** The pending map holds at most the in-flight instruction. */
  predicate Owned(p: Proxy)
  {
    forall k :: k in p.pending ==> p.phase.InFlight() && k == p.phase.id && p.pending[k] == p.phase.ch
  }

  /** Only the in-flight channel can still have its receiver. */
  predicate OneReceiver(p: Proxy)
  {
    forall c :: 0 <= c < |p.channels| ==>
                  (p.channels[c] != Closed <==> p.phase.Listening() && p.phase.ch == c)
  }

  predicate HoldsChannel(p: Proxy, d: Delivery)
  {
    d.Holding? ==>
      && d.ch < |p.channels| && !p.channels[d.ch].Full?
      && forall k :: k in p.pending ==> p.pending[k] != d.ch
  }

  /** A channel has at most one sender: its pending entry or one delivery holding it. */
  predicate OneSender(p: Proxy)
  {
    && (forall d :: 0 <= d < |p.deliveries| ==> HoldsChannel(p, p.deliveries[d]))
    && (forall d, e :: 0 <= d < e < |p.deliveries| && p.deliveries[d].Holding? && p.deliveries[e].Holding?
                       ==> p.deliveries[d].ch != p.deliveries[e].ch)
    && (forall k :: k in p.pending ==> p.pending[k] < |p.channels| && !p.channels[p.pending[k]].Full?)
  }

  /** An empty channel whose receiver still listens has a sender somewhere. */
  predicate NeverOrphaned(p: Proxy)
  {
    forall c :: 0 <= c < |p.channels| && p.channels[c] == Open ==> SenderAlive(p, c)
  }

  predicate Slots(p: Proxy)
  {
    Numbered(p) && Owned(p) && OneReceiver(p) && OneSender(p) && NeverOrphaned(p)
  }

  predicate Recorded(p: Proxy, e: Event)
  {
    match e
    case Accepted(_, ch, _) => ch < |p.channels| && p.channels[ch] != Open
    case Returned(_, ch, o) =>
      && ch < |p.channels| && p.channels[ch] == Closed
      && !(p.phase.InFlight() && p.phase.ch == ch) && o != Disconnected
    case _ => true
  }

  /** `payload` was accepted on channel `ch`. */
  predicate WasAccepted(log: seq<Event>, ch: nat, payload: Payload)
  {
    exists i :: 0 <= i < |log| && log[i].Accepted? && log[i].ch == ch && log[i].payload == payload
  }

  /** The log agrees with the channels, and a value read or waiting to be read was accepted. */
  predicate Logged(p: Proxy)
  {
    && (forall i :: 0 <= i < |p.log| ==> Recorded(p, p.log[i]))
    && (forall c :: 0 <= c < |p.channels| && p.channels[c].Full? ==> WasAccepted(p.log, c, p.channels[c].payload))
    && (p.phase.Cleaning? && p.phase.outcome.Result? ==> WasAccepted(p.log, p.phase.ch, p.phase.outcome.payload))
    && (p.phase.Cleaning? ==> p.phase.outcome != Disconnected)
  }

  /** The order facts: one acceptance per channel, none after the outcome, a result only after one. */
  predicate Ordered(log: seq<Event>)
  {
    && (forall i, j :: 0 <= i < j < |log| && log[i].Accepted? && log[j].Accepted? ==> log[i].ch != log[j].ch)
    && (forall i, j :: 0 <= i < j < |log| && log[i].Returned? && log[j].Accepted? ==> log[i].ch != log[j].ch)
    && (forall i, j :: 0 <= i < j < |log| && log[i].Returned? && log[j].Returned? ==> log[i].ch != log[j].ch)
    && (forall i :: 0 <= i < |log| && log[i].Returned? && log[i].outcome.Result?
                    ==> WasAccepted(log[..i], log[i].ch, log[i].outcome.payload))
  }

  /** Ids on the wire are the numbered ids of the channels they travel with. */
  predicate Named(p: Proxy)
  {
    && (p.phase.Assigned? ==> p.phase.id == InstructionId(p.sid, p.nextSeq))
    && (p.phase.InFlight() ==> p.phase.id == InstructionId(p.sid, p.phase.ch + 1))
    && (forall d :: 0 <= d < |p.deliveries| && p.deliveries[d].Holding?
                    ==> p.deliveries[d].id == InstructionId(p.sid, p.deliveries[d].ch + 1))
    && (forall i :: 0 <= i < |p.log| && (p.log[i].Accepted? || p.log[i].Returned?)
                    ==> p.log[i].id == InstructionId(p.sid, p.log[i].ch + 1))
  }

  /** Channel `c` has its outcome in the log. */
  predicate WasReturned(log: seq<Event>, c: nat)
  {
    exists i :: 0 <= i < |log| && log[i].Returned? && log[i].ch == c
  }

  /** Every instruction but the one in flight has its outcome. */
  predicate Settled(p: Proxy)
  {
    forall c :: 0 <= c < |p.channels| && !(p.phase.InFlight() && p.phase.ch == c) ==> WasReturned(p.log, c)
  }

  /** The newest card in the log carries this id. */
  predicate NewestCard(log: seq<Event>, id: string)
  {
    exists i :: 0 <= i < |log| && log[i].Dispatched? && log[i].id == id && NoCardAfter(log, i)
  }

  predicate NoCardAfter(log: seq<Event>, i: nat)
  {
    forall j :: i < j < |log| ==> !log[j].Dispatched?
  }

  /** Cards carry the ids of their channels, in increasing order; none is out yet for an instruction
      that is only registered, and the newest is the one that is waited on. */
  predicate Carded(p: Proxy)
  {
    && (forall i :: 0 <= i < |p.log| && p.log[i].Dispatched? ==>
          && p.log[i].ch < |p.channels| && p.log[i].id == InstructionId(p.sid, p.log[i].ch + 1)
          && (p.phase.Registered? ==> p.log[i].ch < p.phase.ch))
    && (forall i, j :: 0 <= i < j < |p.log| && p.log[i].Dispatched? && p.log[j].Dispatched? ==>
          p.log[i].ch < p.log[j].ch)
    && (p.phase.Waiting? ==> NewestCard(p.log, p.phase.id))
  }

  predicate Inv(p: Proxy)
  {
    Slots(p) && Logged(p) && Ordered(p.log) && Named(p) && Settled(p) && Carded(p)
  }

  lemma SenderSurvives(p: Proxy, q: Proxy)
    requires p.pending == q.pending && p.deliveries <= q.deliveries
    ensures forall c :: SenderAlive(p, c) ==> SenderAlive(q, c)
  {
    forall c | SenderAlive(p, c) ensures SenderAlive(q, c) {
      if e :| 0 <= e < |p.deliveries| && Holds(p.deliveries[e], c) {
        assert Holds(q.deliveries[e], c);
      }
    }
  }

  lemma SlotsKept(p: Proxy, a: Action, tokenFired: bool)
    requires Slots(p) && Enabled(p, a, tokenFired)
    ensures Slots(Apply(p, a, tokenFired))
  {
    var q := Apply(p, a, tokenFired);
    match a
    case Register =>
      forall c | 0 <= c < |q.channels| && q.channels[c] == Open ensures SenderAlive(q, c) {
        assert q.pending[p.phase.id] == c;
      }
    case DeliverTake(d) => TakeKeepsSlots(p, d);
    case DeliverSend(d) => SendKeepsSlots(p, d);
    case Resolve(_) =>
    case Clean =>
    case _ => SenderSurvives(p, q);
  }

  lemma TakeKeepsSlots(p: Proxy, d: nat)
    requires Slots(p) && Enabled(p, DeliverTake(d), false)
    ensures Slots(Apply(p, DeliverTake(d), false))
  {
    var q := Apply(p, DeliverTake(d), false);
    forall c | 0 <= c < |q.channels| && q.channels[c] == Open ensures SenderAlive(q, c) {
      assert SenderAlive(p, c);
      if e :| 0 <= e < |p.deliveries| && Holds(p.deliveries[e], c) {
        assert Holds(q.deliveries[e], c);
      } else {
        var k :| k in p.pending && p.pending[k] == c;
        assert k in q.pending || Holds(q.deliveries[d], c);
      }
    }
  }

  lemma SendKeepsSlots(p: Proxy, d: nat)
    requires Slots(p) && Enabled(p, DeliverSend(d), false)
    ensures Slots(Apply(p, DeliverSend(d), false))
  {
    var q := Apply(p, DeliverSend(d), false);
    assert HoldsChannel(p, p.deliveries[d]);
    forall c | 0 <= c < |q.channels| && q.channels[c] == Open ensures SenderAlive(q, c) {
      assert SenderAlive(p, c);
      if e :| 0 <= e < |p.deliveries| && Holds(p.deliveries[e], c) {
        assert Holds(q.deliveries[e], c);
      }
    }
  }

  lemma AcceptedStays(log: seq<Event>, e: Event)
    ensures forall ch, payload :: WasAccepted(log, ch, payload) ==> WasAccepted(log + [e], ch, payload)
    ensures e.Accepted? ==> WasAccepted(log + [e], e.ch, e.payload)
    ensures forall i :: 0 <= i <= |log| ==> (log + [e])[..i] == log[..i]
  {
    var grown := log + [e];
    assert grown[|log|] == e;
    forall ch, payload | WasAccepted(log, ch, payload) ensures WasAccepted(grown, ch, payload) {
      var i :| 0 <= i < |log| && log[i].Accepted? && log[i].ch == ch && log[i].payload == payload;
      assert grown[i] == log[i];
    }
  }

  lemma LogKept(p: Proxy, a: Action, tokenFired: bool)
    requires Slots(p) && Logged(p) && Enabled(p, a, tokenFired)
    ensures Logged(Apply(p, a, tokenFired))
  {
    var q := Apply(p, a, tokenFired);
    if |q.log| > |p.log| {
      AcceptedStays(p.log, q.log[|p.log|]);
    }
  }

  lemma OrderKept(p: Proxy, a: Action, tokenFired: bool)
    requires Slots(p) && Logged(p) && Ordered(p.log) && Enabled(p, a, tokenFired)
    ensures Ordered(Apply(p, a, tokenFired).log)
  {
    var q := Apply(p, a, tokenFired);
    if |q.log| > |p.log| {
      AcceptedStays(p.log, q.log[|p.log|]);
    }
  }

  lemma NamesKept(p: Proxy, a: Action, tokenFired: bool)
    requires Slots(p) && Named(p) && Enabled(p, a, tokenFired)
    ensures Named(Apply(p, a, tokenFired))
  {
    if IsExecutorStep(a) { ExecutorKeepsNames(p, a, tokenFired); } else { DeliveryKeepsNames(p, a, tokenFired); }
  }

  lemma ExecutorKeepsNames(p: Proxy, a: Action, tokenFired: bool)
    requires Numbered(p) && Named(p) && Enabled(p, a, tokenFired) && IsExecutorStep(a)
    ensures Named(Apply(p, a, tokenFired))
  {
    if a.Clean? { OutcomeKeepsNames(p); } else { ProgressKeepsNames(p, a, tokenFired); }
  }

  lemma OutcomeKeepsNames(p: Proxy)
    requires Named(p) && p.phase.Cleaning? && p.phase.ch < |p.channels|
    ensures Named(Apply(p, Clean, false))
  {
  }

  lemma ProgressKeepsNames(p: Proxy, a: Action, tokenFired: bool)
    requires Numbered(p) && Named(p) && Enabled(p, a, tokenFired) && IsExecutorStep(a) && !a.Clean?
    ensures Named(Apply(p, a, tokenFired))
  {
    var q := Apply(p, a, tokenFired);
    assert q.deliveries == p.deliveries;
    assert forall i :: 0 <= i < |q.log| && (q.log[i].Accepted? || q.log[i].Returned?) ==>
             i < |p.log| && q.log[i] == p.log[i];
  }

  lemma DeliveryKeepsNames(p: Proxy, a: Action, tokenFired: bool)
    requires Owned(p) && Named(p) && Enabled(p, a, tokenFired) && !IsExecutorStep(a)
    ensures Named(Apply(p, a, tokenFired))
  {
  }

  lemma ReturnedStays(log: seq<Event>, e: Event, c: nat)
    ensures WasReturned(log, c) ==> WasReturned(log + [e], c)
    ensures e.Returned? ==> WasReturned(log + [e], e.ch)
  {
    var grown := log + [e];
    assert grown[|log|] == e;
    if WasReturned(log, c) {
      var i :| 0 <= i < |log| && log[i].Returned? && log[i].ch == c;
      assert grown[i] == log[i];
    }
  }

  lemma SettledKept(p: Proxy, a: Action, tokenFired: bool)
    requires Numbered(p) && Settled(p) && Enabled(p, a, tokenFired)
    ensures Settled(Apply(p, a, tokenFired))
  {
    var q := Apply(p, a, tokenFired);
    forall c | 0 <= c < |q.channels| && !(q.phase.InFlight() && q.phase.ch == c) ensures WasReturned(q.log, c) {
      if |q.log| > |p.log| { ReturnedStays(p.log, q.log[|p.log|], c); }
    }
  }

  lemma CardStays(log: seq<Event>, e: Event, id: string)
    requires NewestCard(log, id) && !e.Dispatched?
    ensures NewestCard(log + [e], id)
  {
    var grown := log + [e];
    var i :| 0 <= i < |log| && log[i].Dispatched? && log[i].id == id && NoCardAfter(log, i);
    assert grown[i] == log[i] && NoCardAfter(grown, i);
  }

  /** A step without a new card. */
  lemma NoCardKept(p: Proxy, a: Action, tokenFired: bool)
    requires Numbered(p) && Carded(p) && Enabled(p, a, tokenFired) && !(a.Dispatch? && a.ok)
    ensures Carded(Apply(p, a, tokenFired))
  {
    var q := Apply(p, a, tokenFired);
    if q.phase.Waiting? && |q.log| > |p.log| {
      CardStays(p.log, q.log[|p.log|], q.phase.id);
    }
  }

  lemma CardsKept(p: Proxy, a: Action, tokenFired: bool)
    requires Numbered(p) && Named(p) && Carded(p) && Enabled(p, a, tokenFired)
    ensures Carded(Apply(p, a, tokenFired))
  {
    if a.Dispatch? && a.ok {
      var q := Apply(p, a, tokenFired);
      assert q.log[|p.log|] == Dispatched(q.phase.id, q.phase.ch) && NoCardAfter(q.log, |p.log|);
    } else {
      NoCardKept(p, a, tokenFired);
    }
  }

  /** Every step of the executor and of every delivery call keeps the invariant. */
  lemma StepKeepsInv(p: Proxy, a: Action, tokenFired: bool)
    requires Inv(p) && Enabled(p, a, tokenFired)
    ensures Inv(Apply(p, a, tokenFired))
  {
    SlotsKept(p, a, tokenFired);
    LogKept(p, a, tokenFired);
    OrderKept(p, a, tokenFired);
    NamesKept(p, a, tokenFired);
    SettledKept(p, a, tokenFired);
    CardsKept(p, a, tokenFired);
  }

  lemma OnlyExecutorMovesPhase(p: Proxy, a: Action, tokenFired: bool)
    requires Enabled(p, a, tokenFired)
    ensures !IsExecutorStep(a) ==> Apply(p, a, tokenFired).phase == p.phase
    ensures Apply(p, a, tokenFired).sid == p.sid
  {
  }

  /** An instruction id names its session and its number: ids of different sessions never meet, and
      one executor never repeats one. */
  lemma InstructionIdInjective(sid: string, m: nat, tid: string, n: nat)
    requires InstructionId(sid, m) == InstructionId(tid, n)
    ensures sid == tid && m == n
  {
    var a, b := "inst-" + sid, "inst-" + tid;
    LastDash(a, Decimal(m), b, Decimal(n));
    assert a[5..] == sid && b[5..] == tid;
    DecimalRoundTrip(m);
    DecimalRoundTrip(n);
  }

  // ---------------------------------------------------------------- what the invariant gives

  /** The event accepts `payload` for instruction `id`. */
  predicate AcceptedAs(e: Event, id: string, payload: Payload)
  {
    e.Accepted? && e.id == id && e.payload == payload
  }

  /** A result for an id follows exactly one acceptance for that id, which carried that payload;
      no id is accepted twice; nothing is accepted for an id after its outcome. */
  ghost predicate ExactlyOnce(log: seq<Event>)
  {
    && (forall i :: 0 <= i < |log| && log[i].Returned? && log[i].outcome.Result? ==>
          exists j :: 0 <= j < i && AcceptedAs(log[j], log[i].id, log[i].outcome.payload))
    && (forall i, j :: 0 <= i < j < |log| && log[i].Accepted? && log[j].Accepted? ==> log[i].id != log[j].id)
    && (forall i, j :: 0 <= i < j < |log| && log[i].Returned? && log[j].Accepted? ==> log[i].id != log[j].id)
    && (forall i, j :: 0 <= i < j < |log| && log[i].Returned? && log[j].Returned? ==> log[i].id != log[j].id)
  }

  lemma InvGivesExactlyOnce(p: Proxy)
    requires Inv(p)
    ensures ExactlyOnce(p.log)
  {
    OrderGivesExactlyOnce(p);
  }

  lemma OrderGivesExactlyOnce(p: Proxy)
    requires Ordered(p.log) && Named(p)
    ensures ExactlyOnce(p.log)
  {
    var log := p.log;
    forall i, j | 0 <= i < j < |log| && (log[i].Accepted? || log[i].Returned?) && (log[j].Accepted? || log[j].Returned?)
      ensures log[i].id == log[j].id ==> log[i].ch == log[j].ch
    {
      if log[i].id == log[j].id { InstructionIdInjective(p.sid, log[i].ch + 1, p.sid, log[j].ch + 1); }
    }
    forall i | 0 <= i < |log| && log[i].Returned? && log[i].outcome.Result?
      ensures exists j :: 0 <= j < i && AcceptedAs(log[j], log[i].id, log[i].outcome.payload)
    {
      var before := log[..i];
      assert WasAccepted(before, log[i].ch, log[i].outcome.payload);
      var j :| && 0 <= j < |before| && before[j].Accepted? && before[j].ch == log[i].ch
               && before[j].payload == log[i].outcome.payload;
      assert log[j] == before[j];
    }
  }

  /** What an execute returned to the runtime is the operator's own words, or the execute ended
      without a result: an `Ok` text was accepted for its id as output, and an operator error as error. */
  ghost predicate ReplyWasAccepted(log: seq<Event>, i: nat)
    requires i < |log| && log[i].Returned?
  {
    match Reply(log[i].outcome)
    case Ok(text) => exists j :: 0 <= j < i && AcceptedAs(log[j], log[i].id, Payload(text, false))
    case Err(text) =>
      log[i].outcome.Result? ==>
      exists j :: 0 <= j < i && AcceptedAs(log[j], log[i].id, Payload(text, true))
  }

  lemma ExactlyOnceGivesReply(log: seq<Event>, i: nat)
    requires ExactlyOnce(log) && i < |log| && log[i].Returned?
    ensures ReplyWasAccepted(log, i)
  {
    if log[i].outcome.Result? {
      var j :| 0 <= j < i && AcceptedAs(log[j], log[i].id, log[i].outcome.payload);
      var p := log[j].payload;
      assert p == Payload(p.output, p.isError);
    }
  }

  /** The pending map is empty outside an execute, holds at most the in-flight id during one,
      registering never overwrites an entry, and the race never ends in `Disconnected`. */
  lemma InvGivesSlotOwnership(p: Proxy)
    requires Inv(p)
    ensures p.phase.Ready? ==> p.pending == map[]
    ensures p.phase.Assigned? ==> p.phase.id !in p.pending
    ensures p.phase.InFlight() ==> p.pending.Keys <= {p.phase.id}
    ensures p.phase.Waiting? ==> forall fired :: !CanResolve(p, Disconnected, fired)
  {
  }

  /** Once an id has its outcome, a delivery for it is refused, whichever step it has reached. */
  lemma LateDeliveryRefused(p: Proxy, i: nat, d: nat)
    requires Inv(p) && i < |p.log| && p.log[i].Returned?
    requires d < |p.deliveries| && !p.deliveries[d].Answered? && p.deliveries[d].id == p.log[i].id
    ensures p.deliveries[d].Snapshot? ==> Apply(p, DeliverTake(d), false).deliveries[d] == Answered(false)
    ensures p.deliveries[d].Holding? ==> Enabled(p, DeliverSend(d), false)
                                         && Apply(p, DeliverSend(d), false).deliveries[d] == Answered(false)
  {
    assert Recorded(p, p.log[i]);
    if p.deliveries[d].Holding? {
      assert HoldsChannel(p, p.deliveries[d]);
      InstructionIdInjective(p.sid, p.log[i].ch + 1, p.sid, p.deliveries[d].ch + 1);
    } else if p.phase.InFlight() && p.phase.id == p.log[i].id {
      InstructionIdInjective(p.sid, p.log[i].ch + 1, p.sid, p.phase.ch + 1);
    }
  }

  /** Instructions are closed in order: when one has been answered or closed, every earlier one has
      its outcome. */
  lemma EarlierIsReturned(p: Proxy, i: nat, c: nat) returns (j: nat)
    requires Inv(p) && i < |p.log| && (p.log[i].Accepted? || p.log[i].Returned?) && c < p.log[i].ch
    ensures j < |p.log| && p.log[j].Returned? && p.log[j].ch == c && p.log[j].id == InstructionId(p.sid, c + 1)
  {
    assert Recorded(p, p.log[i]);
    assert WasReturned(p.log, c);
    j :| 0 <= j < |p.log| && p.log[j].Returned? && p.log[j].ch == c;
  }

  /** A delivery aimed at an instruction of another session is refused. */
  lemma StrayDeliveryRefused(p: Proxy, d: nat, sid: string, n: nat)
    requires Inv(p) && sid != p.sid
    requires d < |p.deliveries| && !p.deliveries[d].Answered? && p.deliveries[d].id == InstructionId(sid, n)
    ensures p.deliveries[d].Snapshot? && Apply(p, DeliverTake(d), false).deliveries[d] == Answered(false)
  {
    if p.deliveries[d].Holding? {
      InstructionIdInjective(sid, n, p.sid, p.deliveries[d].ch + 1);
    } else if p.phase.InFlight() && p.phase.id == InstructionId(sid, n) {
      InstructionIdInjective(sid, n, p.sid, p.phase.ch + 1);
    }
  }

  /** No instruction id stands on two cards. */
  ghost predicate CardsAreDistinct(log: seq<Event>)
  {
    forall i, j :: 0 <= i < j < |log| && log[i].Dispatched? && log[j].Dispatched? ==> log[i].id != log[j].id
  }

  lemma InvGivesCards(p: Proxy)
    requires Inv(p)
    ensures CardsAreDistinct(p.log)
    ensures p.phase.Waiting? ==> forall id :: NewestCard(p.log, id) <==> id == p.phase.id
  {
    forall i, j | 0 <= i < j < |p.log| && p.log[i].Dispatched? && p.log[j].Dispatched?
      ensures p.log[i].id != p.log[j].id
    {
      if p.log[i].id == p.log[j].id { InstructionIdInjective(p.sid, p.log[i].ch + 1, p.sid, p.log[j].ch + 1); }
    }
    forall id | p.phase.Waiting? && NewestCard(p.log, id) ensures id == p.phase.id {
      var i :| 0 <= i < |p.log| && p.log[i].Dispatched? && p.log[i].id == id && NoCardAfter(p.log, i);
      var j :| 0 <= j < |p.log| && p.log[j].Dispatched? && p.log[j].id == p.phase.id && NoCardAfter(p.log, j);
      assert i == j;
    }
  }

  /** A delivery that answers the newest card while it is waited on, undisturbed, is accepted, and its
      payload is then what the wait may return. */
  lemma UndisturbedDeliveryAccepted(p: Proxy, id: string, payload: Payload)
    requires Inv(p) && p.phase.Waiting? && NewestCard(p.log, id) && id in p.pending
    ensures
      var d := |p.deliveries|;
      var taken := Apply(Apply(p, DeliverBegin(id, payload), false), DeliverTake(d), false);
      && Enabled(taken, DeliverSend(d), false)
      && var q := Apply(taken, DeliverSend(d), false);
         q.deliveries[d] == Answered(true) && q.phase == p.phase && CanResolve(q, Result(payload), false)
  {
    assert p.pending[p.phase.id] == p.phase.ch;
  }

  /** The slot of the newest card is there until a delivery takes it or the wait ends. */
  lemma CardHasItsSlot(p: Proxy, id: string)
    requires Inv(p) && p.phase.Waiting? && NewestCard(p.log, id) && p.channels[p.phase.ch] == Open
    requires forall d :: 0 <= d < |p.deliveries| ==> !Holds(p.deliveries[d], p.phase.ch)
    ensures id in p.pending && p.pending[id] == p.phase.ch
  {
    InvGivesCards(p);
    assert SenderAlive(p, p.phase.ch);
    var k :| k in p.pending && p.pending[k] == p.phase.ch;
  }
}
