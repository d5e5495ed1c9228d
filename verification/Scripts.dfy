/** Building blocks for concrete runs of the kernel: what a few commands in a row lead to. */
module Scripts {
  import opened Basics
  import opened SessionSystem
  import P = ProxySlots
  import T = TurnLock

  /** One more step at the end of a schedule. */
  lemma {:induction false} RunStep(s: System, schedule: seq<Action>, a: Action)
    requires Run(s, schedule).Some? && Enabled(Run(s, schedule).value, a)
    ensures Run(s, schedule + [a]) == Some(Apply(Run(s, schedule).value, a))
    decreases |schedule|
  {
    if schedule == [] {
      assert (schedule + [a])[1..] == [];
    } else {
      assert (schedule + [a])[1..] == schedule[1..] + [a];
      RunStep(Apply(s, schedule[0]), schedule[1..], a);
    }
  }

  lemma Then(schedule: seq<Action>, s: System, a: Action) returns (longer: seq<Action>, t: System)
    requires Run(INIT, schedule) == Some(s) && Enabled(s, a)
    ensures Run(INIT, longer) == Some(t) && t == Apply(s, a) && longer == schedule + [a]
    ensures FilesMatch(schedule) && FileMatches(a) ==> FilesMatch(longer)
  {
    RunStep(INIT, schedule, a);
    longer, t := schedule + [a], Apply(s, a);
  }

  /** A handle as it is allocated. */
  function NewHandle(sid: string, seed: nat, token: nat): (x: Handle)
  {
    Handle(P.Fresh(sid), T.Fresh(false, seed), false, token, 0, false)
  }

  /** A new session: created, or loaded under `key` from a file that carries `sid`. */
  lemma Allocated(schedule: seq<Action>, s: System, a: Action) returns (longer: seq<Action>, t: System)
    requires Run(INIT, schedule) == Some(s) && Enabled(s, a)
    requires (a.Create? || a.ResumeLoad?) && !a.hasSink
    ensures Run(INIT, longer) == Some(t) && (FilesMatch(schedule) && FileMatches(a) ==> FilesMatch(longer))
    ensures
      var sid, seed := if a.Create? then a.sid else a.fileSid, if a.Create? then 0 else a.count;
      var ref := Ref(|s.handles|, s.nextToken);
      t == s.(handles := s.handles + [NewHandle(sid, seed, s.nextToken)], nextToken := s.nextToken + 1,
              shared := s.shared[sid := ref], sessions := s.sessions[a.sid := ref],
              activeCount := |s.sessions[a.sid := ref]|, actor := Idle)
  {
    longer, t := Then(schedule, s, a);
    longer, t := Then(longer, t, Install);
    longer, t := Then(longer, t, Count);
  }

  /** The entry of a session whose first worker has taken the lock. */
  function Running(seed: nat): (e: T.Entry)
  {
    T.Fresh(false, seed).(lock := Some(0), workers := [T.Running(0)])
  }

  lemma RunningIsLocked(seed: nat)
    ensures
      var e := T.Fresh(false, seed);
      && T.Enabled(T.Apply(e, T.Spawn), T.Lock(0))
      && T.Apply(T.Apply(e, T.Spawn), T.Lock(0)) == Running(seed)
  {
    var queued := T.Apply(T.Fresh(false, seed), T.Spawn);
    assert queued.workers == [T.Queued];
    assert queued.workers[0 := T.Running(0)] == [T.Running(0)];
  }

  /** A first turn: the command, and its worker inside the turn. */
  lemma TurnStarted(schedule: seq<Action>, s: System, sid: string, x: Handle, seed: nat)
    returns (longer: seq<Action>, t: System)
    requires Run(INIT, schedule) == Some(s) && s.actor.Idle?
    requires sid in s.sessions && s.sessions[sid].h < |s.handles| && s.handles[s.sessions[sid].h] == x
    requires x.entry == T.Fresh(false, seed)
    ensures Run(INIT, longer) == Some(t) && (FilesMatch(schedule) ==> FilesMatch(longer))
    ensures
      var h := s.sessions[sid].h;
      && t.handles == s.handles[h := x.(flag := false, turns := x.turns + 1, entry := Running(seed))]
      && InTurn(t.handles[h])
      && t.sessions == s.sessions[sid := Ref(h, s.nextToken)]
      && t.shared == if sid in s.shared then s.shared[sid := s.shared[sid].(token := s.nextToken)] else s.shared
    ensures t.nextToken == s.nextToken + 1 && t.cancelled == s.cancelled && t.cancels == s.cancels && t.actor == Idle
    ensures t.activeCount == s.activeCount
  {
    var h := s.sessions[sid].h;
    RunningIsLocked(seed);
    longer, t := Then(schedule, s, BeginTurn(sid));
    longer, t := Then(longer, t, SwapToken);
    assert t.handles[h] == x.(flag := false, turns := x.turns + 1, entry := T.Apply(x.entry, T.Spawn));
    longer, t := Then(longer, t, OnEntry(h, T.Lock(0)));
    assert t.handles[h] == x.(flag := false, turns := x.turns + 1, entry := Running(seed));
  }

  /** An executor waiting on its first card. */
  function Card(sid: string): (p: P.Proxy)
  {
    var id := P.InstructionId(sid, 1);
    P.Proxy(sid, 1, P.Waiting(id, 0), map[id := 0], [P.Open], [], [P.Dispatched(id, 0)])
  }

  lemma CardIsShown(sid: string)
    ensures
      var p := P.Fresh(sid);
      P.Apply(P.Apply(P.Apply(p, P.Check(false), false), P.Register, false), P.Dispatch(true), false) == Card(sid)
  {
  }

  lemma CardShown(schedule: seq<Action>, s: System, h: nat, x: Handle) returns (longer: seq<Action>, t: System)
    requires Run(INIT, schedule) == Some(s) && h < |s.handles| && s.handles[h] == x
    requires InTurn(x) && x.proxy == P.Fresh(x.proxy.sid) && !x.flag && !TokenFired(s, h)
    ensures Run(INIT, longer) == Some(t) && (FilesMatch(schedule) ==> FilesMatch(longer))
    ensures t == s.(handles := s.handles[h := x.(proxy := Card(x.proxy.sid))])
  {
    CardIsShown(x.proxy.sid);
    var checked := P.Apply(x.proxy, P.Check(false), false);
    longer, t := Then(schedule, s, OnProxy(h, P.Check(false)));
    assert t.handles[h] == x.(proxy := checked) && InTurn(t.handles[h]);
    var registered := P.Apply(checked, P.Register, false);
    longer, t := Then(longer, t, OnProxy(h, P.Register));
    assert t.handles[h] == x.(proxy := registered) && InTurn(t.handles[h]);
    longer, t := Then(longer, t, OnProxy(h, P.Dispatch(true)));
    assert t.handles == s.handles[h := x.(proxy := Card(x.proxy.sid))];
  }

  /** That executor after the operator's answer was accepted and before it has read it. */
  function AnsweredCard(sid: string, payload: P.Payload): (p: P.Proxy)
  {
    var id := P.InstructionId(sid, 1);
    P.Proxy(sid, 1, P.Waiting(id, 0), map[], [P.Full(payload)], [P.Answered(true)],
            [P.Dispatched(id, 0), P.Accepted(id, 0, payload)])
  }

  lemma CardIsAnswered(sid: string, payload: P.Payload)
    ensures
      var id := P.InstructionId(sid, 1);
      var begun := P.Apply(Card(sid), P.DeliverBegin(id, payload), false);
      && P.Enabled(begun, P.DeliverTake(0), false)
      && P.Enabled(P.Apply(begun, P.DeliverTake(0), false), P.DeliverSend(0), false)
      && P.Apply(P.Apply(begun, P.DeliverTake(0), false), P.DeliverSend(0), false) == AnsweredCard(sid, payload)
  {
    var id := P.InstructionId(sid, 1);
    assert map[id := 0] - {id} == map[];
  }

  lemma CardAnswered(schedule: seq<Action>, s: System, sid: string, h: nat, x: Handle, payload: P.Payload)
    returns (longer: seq<Action>, t: System)
    requires Run(INIT, schedule) == Some(s) && h < |s.handles| && s.handles[h] == x
    requires sid in s.shared && s.shared[sid].h == h && x.proxy == Card(sid) && !TokenFired(s, h)
    ensures Run(INIT, longer) == Some(t) && (FilesMatch(schedule) ==> FilesMatch(longer))
    ensures t == s.(handles := s.handles[h := x.(proxy := AnsweredCard(sid, payload))])
  {
    CardIsAnswered(sid, payload);
    var id := P.InstructionId(sid, 1);
    var begun := P.Apply(x.proxy, P.DeliverBegin(id, payload), false);
    longer, t := Then(schedule, s, Deliver(sid, id, payload));
    assert t.handles[h] == x.(proxy := begun);
    var taken := P.Apply(begun, P.DeliverTake(0), false);
    longer, t := Then(longer, t, OnProxy(h, P.DeliverTake(0)));
    assert t.handles[h] == x.(proxy := taken);
    longer, t := Then(longer, t, OnProxy(h, P.DeliverSend(0)));
    assert t.handles == s.handles[h := x.(proxy := AnsweredCard(sid, payload))];
  }

  /** Removing a session. */
  lemma Removed(schedule: seq<Action>, s: System, sid: string) returns (longer: seq<Action>, t: System)
    requires Run(INIT, schedule) == Some(s) && s.actor.Idle?
    ensures Run(INIT, longer) == Some(t) && (FilesMatch(schedule) ==> FilesMatch(longer))
    ensures t == s.(sessions := s.sessions - {sid}, shared := s.shared - {sid}, activeCount := |s.sessions - {sid}|)
  {
    longer, t := Then(schedule, s, Remove(sid));
    longer, t := Then(longer, t, Unshare);
    longer, t := Then(longer, t, Count);
  }

  /** A whole `cancel_turn` of a session that is there. */
  lemma CancelledTurn(schedule: seq<Action>, s: System, sid: string) returns (longer: seq<Action>, t: System)
    requires Run(INIT, schedule) == Some(s) && sid in s.shared && s.shared[sid].h < |s.handles|
    ensures Run(INIT, longer) == Some(t) && (FilesMatch(schedule) ==> FilesMatch(longer))
    ensures
      var ref := s.shared[sid];
      var x := s.handles[ref.h];
      t == s.(handles := s.handles[ref.h := x.(flag := true)], cancelled := s.cancelled + {ref.token},
              cancels := s.cancels + [Fired(ref.h, x.turns == 0)])
  {
    var ref, c := s.shared[sid], |s.cancels|;
    var x := s.handles[ref.h];
    longer, t := Then(schedule, s, CancelBegin(sid));
    assert t.cancels[c] == Taken(ref.h, ref.token, x.turns == 0, false);
    longer, t := Then(longer, t, CancelFlag(c));
    assert t.cancels[c] == Taken(ref.h, ref.token, x.turns == 0, true) && t.handles[ref.h] == x.(flag := true);
    longer, t := Then(longer, t, CancelFire(c));
    assert t.handles[ref.h] == x.(flag := true);
    assert t.handles == s.handles[ref.h := x.(flag := true)];
    assert t.cancels == s.cancels + [Fired(ref.h, x.turns == 0)];
  }
}
