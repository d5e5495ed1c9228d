/**
 Sessions as the operator sees them: all handles that ever carried one session id.

 The laws of one handle become laws of the session as long as the session id is allocated once.
 `Remove` leaves a running turn its handle, and a later resume starts a second handle under the
 same id with its counters at zero: then the session can have two turns, two executes waiting under
 one instruction id, and two answers accepted for it.
 */
module SessionLives {
  import opened Basics
  import opened SessionSystem
  import opened Scripts
  import P = ProxySlots
  import T = TurnLock

  // ---------------------------------------------------------------- handles are allocations

  function SidOf(a: Action): (sids: seq<string>)
  {
    match a
    case Create(sid, _) => [sid]
    case ResumeLoad(_, fileSid, _, _) => [fileSid]
    case _ => []
  }

  predicate Allocates(a: Action, sid: string)
  {
    SidOf(a) == [sid]
  }

  /** The session ids a schedule allocates, in order. */
  function SidsOf(schedule: seq<Action>): (sids: seq<string>)
  {
    if schedule == [] then [] else SidOf(schedule[0]) + SidsOf(schedule[1..])
  }

  /** The handles of `s` carry exactly these session ids. */
  predicate Carries(s: System, sids: seq<string>)
  {
    |s.handles| == |sids| && forall h :: 0 <= h < |sids| ==> s.handles[h].proxy.sid == sids[h]
  }

  lemma StepAllocates(s: System, a: Action, sids: seq<string>)
    requires Enabled(s, a) && Carries(s, sids)
    ensures Carries(Apply(s, a), sids + SidOf(a))
  {
    match a
    case OnProxy(h, step) => P.OnlyExecutorMovesPhase(s.handles[h].proxy, step, TokenFired(s, h));
    case Deliver(sid, id, payload) =>
      if sid in s.shared {
        var h := s.shared[sid].h;
        P.OnlyExecutorMovesPhase(s.handles[h].proxy, P.DeliverBegin(id, payload), TokenFired(s, h));
      }
    case _ =>
  }

  /** Handles and allocations are the same list. */
  lemma {:induction false} RunAllocates(s: System, schedule: seq<Action>, sids: seq<string>)
    requires Run(s, schedule).Some? && Carries(s, sids)
    ensures Carries(Run(s, schedule).value, sids + SidsOf(schedule))
    decreases |schedule|
  {
    if schedule == [] {
      assert sids + [] == sids;
    } else {
      StepAllocates(s, schedule[0], sids);
      RunAllocates(Apply(s, schedule[0]), schedule[1..], sids + SidOf(schedule[0]));
      ConcatAssociative(sids, SidOf(schedule[0]), SidsOf(schedule[1..]));
    }
  }

  /** The session id is allocated at two places of the schedule. */
  predicate Reborn(schedule: seq<Action>, sid: string)
  {
    exists i, j :: 0 <= i < j < |schedule| && Allocates(schedule[i], sid) && Allocates(schedule[j], sid)
  }

  lemma {:induction false} AllocatedSomewhere(schedule: seq<Action>, k: nat) returns (j: nat)
    requires k < |SidsOf(schedule)|
    ensures j < |schedule| && Allocates(schedule[j], SidsOf(schedule)[k])
  {
    var first := SidOf(schedule[0]);
    if k < |first| {
      j := 0;
      assert first == [first[0]];
    } else {
      j := AllocatedSomewhere(schedule[1..], k - |first|);
      j := j + 1;
    }
  }

  lemma {:induction false} AllocatedTwice(schedule: seq<Action>, h: nat, k: nat)
    requires h < k < |SidsOf(schedule)| && SidsOf(schedule)[h] == SidsOf(schedule)[k]
    ensures Reborn(schedule, SidsOf(schedule)[h])
  {
    var first, sid := SidOf(schedule[0]), SidsOf(schedule)[h];
    if h < |first| {
      var j := AllocatedSomewhere(schedule[1..], k - |first|);
      assert first == [sid];
      assert Allocates(schedule[0], sid) && Allocates(schedule[j + 1], sid);
    } else {
      AllocatedTwice(schedule[1..], h - |first|, k - |first|);
      var i, j :| 0 <= i < j < |schedule[1..]| && Allocates(schedule[1..][i], sid) && Allocates(schedule[1..][j], sid);
      assert Allocates(schedule[i + 1], sid) && Allocates(schedule[j + 1], sid);
    }
  }

  lemma {:induction false} AllocationCounts(schedule: seq<Action>, j: nat, sid: string) returns (k: nat)
    requires j < |schedule| && Allocates(schedule[j], sid)
    ensures k < |SidsOf(schedule)| && SidsOf(schedule)[k] == sid
  {
    var first := SidOf(schedule[0]);
    if j == 0 {
      k := 0;
    } else {
      k := AllocationCounts(schedule[1..], j - 1, sid);
      k := k + |first|;
    }
  }

  lemma {:induction false} RebornTwice(schedule: seq<Action>, i: nat, j: nat, sid: string) returns (h: nat, k: nat)
    requires i < j < |schedule| && Allocates(schedule[i], sid) && Allocates(schedule[j], sid)
    ensures h < k < |SidsOf(schedule)| && SidsOf(schedule)[h] == sid == SidsOf(schedule)[k]
  {
    var first := SidOf(schedule[0]);
    if i == 0 {
      h := 0;
      k := AllocationCounts(schedule[1..], j - 1, sid);
    } else {
      h, k := RebornTwice(schedule[1..], i - 1, j - 1, sid);
      h := h + |first|;
    }
    k := k + |first|;
  }

  /** The session id stands twice in the list. */
  predicate Twice(sids: seq<string>, sid: string)
  {
    exists h, k :: 0 <= h < k < |sids| && sids[h] == sid == sids[k]
  }

  lemma TwiceIffReborn(schedule: seq<Action>, sid: string)
    ensures Twice(SidsOf(schedule), sid) <==> Reborn(schedule, sid)
  {
    var sids := SidsOf(schedule);
    if h, k :| 0 <= h < k < |sids| && sids[h] == sid == sids[k] {
      AllocatedTwice(schedule, h, k);
    }
    if i, j :| 0 <= i < j < |schedule| && Allocates(schedule[i], sid) && Allocates(schedule[j], sid) {
      var h, k := RebornTwice(schedule, i, j, sid);
    }
  }

  predicate TwoHandles(s: System, sid: string)
  {
    exists h, k :: 0 <= h < k < |s.handles| && s.handles[h].proxy.sid == sid == s.handles[k].proxy.sid
  }

  lemma TwoHandlesIffTwice(s: System, sids: seq<string>, sid: string)
    requires Carries(s, sids)
    ensures TwoHandles(s, sid) <==> Twice(sids, sid)
  {
    if h, k :| 0 <= h < k < |sids| && sids[h] == sid == sids[k] {
      assert s.handles[h].proxy.sid == sid == s.handles[k].proxy.sid;
    }
  }

  /** Two handles carry one session id exactly when the schedule allocates it twice. */
  lemma TwoHandlesIffReborn(schedule: seq<Action>, sid: string)
    requires Run(INIT, schedule).Some?
    ensures TwoHandles(Run(INIT, schedule).value, sid) <==> Reborn(schedule, sid)
  {
    RunAllocates(INIT, schedule, []);
    assert [] + SidsOf(schedule) == SidsOf(schedule);
    TwoHandlesIffTwice(Run(INIT, schedule).value, SidsOf(schedule), sid);
    TwiceIffReborn(schedule, sid);
  }

  // ---------------------------------------------------------------- how a session id is allocated twice

  /** The actor has the session, or is about to. */
  predicate Known(s: System, sid: string)
  {
    sid in s.sessions || (s.actor.Installing? && s.actor.key == sid)
  }

  lemma StepKeepsKnown(s: System, a: Action, sid: string)
    requires Enabled(s, a) && a != Remove(sid) && (Known(s, sid) || (Allocates(a, sid) && FileMatches(a)))
    ensures Known(Apply(s, a), sid)
  {
  }

  lemma {:induction false} RunKeepsKnown(s: System, schedule: seq<Action>, sid: string)
    requires Known(s, sid) && Run(s, schedule).Some? && forall i :: 0 <= i < |schedule| ==> schedule[i] != Remove(sid)
    ensures Known(Run(s, schedule).value, sid)
    decreases |schedule|
  {
    if schedule != [] {
      StepKeepsKnown(s, schedule[0], sid);
      RunKeepsKnown(Apply(s, schedule[0]), schedule[1..], sid);
    }
  }

  /** A run is the run of its first `i` steps, then the rest. */
  lemma {:induction false} RunSplits(s: System, schedule: seq<Action>, i: nat)
    requires Run(s, schedule).Some? && i <= |schedule|
    ensures Run(s, schedule[..i]).Some? && Run(Run(s, schedule[..i]).value, schedule[i..]) == Run(s, schedule)
    decreases |schedule|
  {
    if i == 0 {
      assert schedule[..0] == [] && schedule[0..] == schedule;
    } else {
      RunSplits(Apply(s, schedule[0]), schedule[1..], i - 1);
      assert schedule[..i][1..] == schedule[1..][..i - 1] && schedule[i..] == schedule[1..][i - 1..];
    }
  }

  lemma KnownUntilRemoved(s: System, schedule: seq<Action>, sid: string)
    requires schedule != [] && Run(s, schedule).Some? && Allocates(schedule[0], sid) && FileMatches(schedule[0])
    requires forall m :: 0 < m < |schedule| ==> schedule[m] != Remove(sid)
    ensures Known(Run(s, schedule).value, sid)
  {
    StepKeepsKnown(s, schedule[0], sid);
    RunKeepsKnown(Apply(s, schedule[0]), schedule[1..], sid);
  }

  lemma AllocatesUnknown(s: System, a: Action, sid: string)
    requires Known(s, sid) && Enabled(s, a) && Allocates(a, sid) && FileMatches(a)
    ensures a.Create?
  {
  }

  /** Between two allocations of one session id lies its removal, or the second one is a second
      create under an id already used, which freshly drawn ids exclude. */
  lemma RebornNeedsRemove(schedule: seq<Action>, i: nat, j: nat, sid: string)
    requires FilesMatch(schedule) && Run(INIT, schedule).Some?
    requires i < j < |schedule| && Allocates(schedule[i], sid) && Allocates(schedule[j], sid)
    ensures schedule[j].Create? || exists m :: i < m < j && schedule[m] == Remove(sid)
  {
    if forall m :: i < m < j ==> schedule[m] != Remove(sid) {
      assert FileMatches(schedule[i]) && FileMatches(schedule[j]);
      var upTo := schedule[..j];
      RunSplits(INIT, schedule, j);
      RunSplits(INIT, upTo, i);
      var middle := upTo[i..];
      assert forall m :: 0 <= m < |middle| ==> middle[m] == schedule[i + m];
      KnownUntilRemoved(Run(INIT, upTo[..i]).value, middle, sid);
      AllocatesUnknown(Run(INIT, upTo).value, schedule[j..][0], sid);
    }
  }

  // ---------------------------------------------------------------- session-wide laws

  predicate Of(s: System, h: int, sid: string)
  {
    0 <= h < |s.handles| && s.handles[h].proxy.sid == sid
  }

  /** An event that answers or closes instruction `id` in the log of handle `h`. */
  predicate Closes(s: System, h: int, i: int, id: string)
  {
    && 0 <= h < |s.handles| && 0 <= i < |s.handles[h].proxy.log|
    && (s.handles[h].proxy.log[i].Accepted? || s.handles[h].proxy.log[i].Returned?)
    && s.handles[h].proxy.log[i].id == id
  }

  /** The next step of this delivery answers false. */
  predicate Refused(p: P.Proxy, d: nat)
    requires d < |p.deliveries|
  {
    var step := if p.deliveries[d].Snapshot? then P.DeliverTake(d) else P.DeliverSend(d);
    P.Enabled(p, step, false) && P.Apply(p, step, false).deliveries[d] == P.Answered(false)
  }

  lemma OneHandle(schedule: seq<Action>, sid: string, h: nat, k: nat)
    requires Run(INIT, schedule).Some? && !Reborn(schedule, sid)
    requires Of(Run(INIT, schedule).value, h, sid) && Of(Run(INIT, schedule).value, k, sid)
    ensures h == k
  {
    TwoHandlesIffReborn(schedule, sid);
  }

  /** Whoever answers or closes an instruction of the session is the session's one handle. */
  lemma IdsStayHome(schedule: seq<Action>, sid: string, h: nat, i: nat, k: nat, j: nat, id: string)
    requires Run(INIT, schedule).Some? && !Reborn(schedule, sid)
    requires Of(Run(INIT, schedule).value, h, sid)
    requires Closes(Run(INIT, schedule).value, h, i, id) && Closes(Run(INIT, schedule).value, k, j, id)
    ensures h == k
  {
    RunKeepsLocal(INIT, schedule);
    SameIdSameSession(Run(INIT, schedule).value, h, i, k, j, id);
    OneHandle(schedule, sid, h, k);
  }

  lemma SameIdSameSession(s: System, h: nat, i: nat, k: nat, j: nat, id: string)
    requires Local(s) && Closes(s, h, i, id) && Closes(s, k, j, id)
    ensures s.handles[h].proxy.sid == s.handles[k].proxy.sid
  {
    var p, q := s.handles[h].proxy, s.handles[k].proxy;
    assert HandleInv(s.handles[h]) && HandleInv(s.handles[k]);
    P.InstructionIdInjective(p.sid, p.log[i].ch + 1, q.sid, q.log[j].ch + 1);
  }

  /** Exactly-once delivery across the whole kernel, for a session id allocated once: over all
      handles, each of its instructions has at most one acceptance and at most one outcome, and no
      acceptance comes after the outcome or outside the log the outcome is in. */
  lemma SessionIsExactlyOnce(schedule: seq<Action>, sid: string, h: nat, i: nat, k: nat, j: nat, id: string)
    requires Run(INIT, schedule).Some? && !Reborn(schedule, sid)
    requires Of(Run(INIT, schedule).value, h, sid)
    requires Closes(Run(INIT, schedule).value, h, i, id) && Closes(Run(INIT, schedule).value, k, j, id)
    ensures
      var hs := Run(INIT, schedule).value.handles;
      var e, f := hs[h].proxy.log[i], hs[k].proxy.log[j];
      && h == k
      && (e.Accepted? == f.Accepted? ==> i == j)
      && (e.Accepted? && f.Returned? ==> i < j)
  {
    IdsStayHome(schedule, sid, h, i, k, j, id);
    DeliveryIsExactlyOnce(schedule, h);
  }

  /** And every delivery for an instruction that has its outcome is refused, whichever handle it was
      aimed at and whichever step it has reached. */
  lemma SessionRefusesLateDelivery(schedule: seq<Action>, sid: string, h: nat, i: nat, k: nat, d: nat)
    requires Run(INIT, schedule).Some? && !Reborn(schedule, sid)
    requires
      var s := Run(INIT, schedule).value;
      && Of(s, h, sid) && i < |s.handles[h].proxy.log| && s.handles[h].proxy.log[i].Returned?
      && k < |s.handles| && d < |s.handles[k].proxy.deliveries| && !s.handles[k].proxy.deliveries[d].Answered?
      && s.handles[k].proxy.deliveries[d].id == s.handles[h].proxy.log[i].id
    ensures Refused(Run(INIT, schedule).value.handles[k].proxy, d)
  {
    RunKeepsLocal(INIT, schedule);
    var hs := Run(INIT, schedule).value.handles;
    assert HandleInv(hs[h]) && HandleInv(hs[k]);
    if h == k {
      P.LateDeliveryRefused(hs[h].proxy, i, d);
    } else {
      if hs[k].proxy.sid == sid { OneHandle(schedule, sid, h, k); }
      P.StrayDeliveryRefused(hs[k].proxy, d, sid, hs[h].proxy.log[i].ch + 1);
    }
  }

  /** Turns of a session id allocated once are serial over all handles, and its checkpoints carry
      0, 1, 2, ... each once. */
  lemma SessionTurnsAreSerial(schedule: seq<Action>, sid: string)
    requires Run(INIT, schedule).Some? && !Reborn(schedule, sid)
    ensures
      var s := Run(INIT, schedule).value;
      && (forall h, v, k, w :: Of(s, h, sid) && Of(s, k, sid)
            && 0 <= v < |s.handles[h].entry.workers| && T.HoldsLock(s.handles[h].entry.workers[v])
            && 0 <= w < |s.handles[k].entry.workers| && T.HoldsLock(s.handles[k].entry.workers[w])
            ==> h == k && v == w)
      && (forall h, i, k, j :: Of(s, h, sid) && Of(s, k, sid)
            && 0 <= i < |T.Steps(s.handles[h].entry.log)| && 0 <= j < |T.Steps(s.handles[k].entry.log)|
            ==> h == k && T.Steps(s.handles[h].entry.log)[i] == i && T.Steps(s.handles[k].entry.log)[j] == j)
  {
    var s := Run(INIT, schedule).value;
    forall h, k | Of(s, h, sid) && Of(s, k, sid) ensures h == k { OneHandle(schedule, sid, h, k); }
    forall h | Of(s, h, sid)
      ensures forall v, w :: 0 <= v < |s.handles[h].entry.workers| && 0 <= w < |s.handles[h].entry.workers|
                && T.HoldsLock(s.handles[h].entry.workers[v]) && T.HoldsLock(s.handles[h].entry.workers[w])
                ==> v == w
      ensures forall i :: 0 <= i < |T.Steps(s.handles[h].entry.log)| ==> T.Steps(s.handles[h].entry.log)[i] == i
    {
      TurnsAreSerial(schedule, h);
    }
  }

  // ---------------------------------------------------------------- a session id used again

  /** No turn of this handle is queued or under way. */
  predicate Quiet(x: Handle)
  {
    forall w :: 0 <= w < |x.entry.workers| ==> x.entry.workers[w].Done?
  }

  /** A turn of this handle is under way. */
  predicate Busy(x: Handle)
  {
    exists w :: 0 <= w < |x.entry.workers| && T.HoldsLock(x.entry.workers[w])
  }

  /** No turn is left, and no instruction id was ever handed out. */
  predicate Unasked(x: Handle)
  {
    Quiet(x) && x.proxy.nextSeq == 0
  }

  /** No turn is left, and none ever ended. */
  predicate Unsaved(x: Handle)
  {
    Quiet(x) && x.entry.stepIndex == 0
  }

  /** Whenever the schedule allocates the session id, its earlier handles satisfy `idle`. */
  ghost predicate ReusedAfter(idle: Handle -> bool, s: System, schedule: seq<Action>, sid: string)
    decreases |schedule|
  {
    schedule != [] && Enabled(s, schedule[0]) ==>
      && (Allocates(schedule[0], sid) ==> forall h :: Of(s, h, sid) ==> idle(s.handles[h]))
      && ReusedAfter(idle, Apply(s, schedule[0]), schedule[1..], sid)
  }

  /** The older handles of a session satisfy `idle`. */
  ghost predicate OldOnes(idle: Handle -> bool, s: System, sid: string)
  {
    forall h, k :: Of(s, h, sid) && Of(s, k, sid) && h < k ==> idle(s.handles[h])
  }

  /** A condition on turns and ids that a handle keeps as long as it gets no new turn. */
  ghost predicate Lasting(idle: Handle -> bool)
  {
    && (forall x :: idle(x) ==> Quiet(x))
    && (forall x: Handle, y: Handle :: idle(x) && y.entry == x.entry && y.proxy.nextSeq == x.proxy.nextSeq ==> idle(y))
  }

  lemma AllAreLasting()
    ensures Lasting(Quiet) && Lasting(Unasked) && Lasting(Unsaved)
  {
  }

  /** Handle `h` is the last one of its session id. */
  ghost predicate Newest(s: System, h: nat, sid: string)
  {
    Of(s, h, sid) && forall k :: Of(s, k, sid) ==> k <= h
  }

  /** The actor knows a session only by its newest handle. */
  ghost predicate KnownByNewest(s: System, sid: string)
  {
    if s.actor.Installing? && s.actor.key == sid then Newest(s, s.actor.ref.h, sid)
    else sid in s.sessions ==> Newest(s, s.sessions[sid].h, sid)
  }

  /** Steps keep the session ids of the handles there are. */
  lemma StepKeepsSids(s: System, a: Action)
    requires Enabled(s, a)
    ensures |Apply(s, a).handles| == |s.handles| + |SidOf(a)|
    ensures forall h :: 0 <= h < |s.handles| ==> Apply(s, a).handles[h].proxy.sid == s.handles[h].proxy.sid
    ensures SidOf(a) != [] ==> Apply(s, a).handles[|s.handles|].proxy.sid == SidOf(a)[0]
  {
    var sids := seq(|s.handles|, h requires 0 <= h < |s.handles| => s.handles[h].proxy.sid);
    StepAllocates(s, a, sids);
    var t := Apply(s, a);
    assert forall h :: 0 <= h < |s.handles| ==> t.handles[h].proxy.sid == (sids + SidOf(a))[h];
  }

  lemma NewestStays(s: System, a: Action, sid: string)
    requires Enabled(s, a) && !Allocates(a, sid)
    ensures forall h :: Of(Apply(s, a), h, sid) <==> Of(s, h, sid)
    ensures forall h: nat :: Newest(Apply(s, a), h, sid) <==> Newest(s, h, sid)
  {
    StepKeepsSids(s, a);
    var t := Apply(s, a);
    assert SidOf(a) == [] || SidOf(a) == [SidOf(a)[0]];
    assert forall h :: Of(t, h, sid) <==> Of(s, h, sid);
  }

  lemma StepKeepsNewest(s: System, a: Action, sid: string)
    requires Enabled(s, a) && Agree(s) && FileMatches(a) && KnownByNewest(s, sid)
    ensures KnownByNewest(Apply(s, a), sid)
  {
    if Allocates(a, sid) {
      StepKeepsSids(s, a);
      assert Newest(Apply(s, a), |s.handles|, sid);
    } else {
      NewestStays(s, a, sid);
    }
  }

  /** What a step does to a handle without a turn: nothing that hands out an id or ends a turn, and a
      new turn only through the actor. */
  lemma StepSparesQuiet(s: System, a: Action, h: nat)
    requires Enabled(s, a) && h < |s.handles| && Quiet(s.handles[h])
    requires a.SwapToken? ==> s.actor.h != h
    ensures h < |Apply(s, a).handles|
    ensures
      var x, y := s.handles[h], Apply(s, a).handles[h];
      y.entry == x.entry && y.proxy.nextSeq == x.proxy.nextSeq
  {
  }

  /** Older handles stay as idle as they are. */
  lemma StepKeepsOldOnes(idle: Handle -> bool, s: System, a: Action, sid: string)
    requires Lasting(idle) && OldOnes(idle, s, sid) && KnownByNewest(s, sid) && Agree(s) && Enabled(s, a)
    requires Allocates(a, sid) ==> forall h :: Of(s, h, sid) ==> idle(s.handles[h])
    requires a.SwapToken? ==> Of(s, s.actor.h, s.actor.sid)
    ensures OldOnes(idle, Apply(s, a), sid)
  {
    var t := Apply(s, a);
    StepKeepsSids(s, a);
    if !Allocates(a, sid) { NewestStays(s, a, sid); }
    forall h, k | Of(t, h, sid) && Of(t, k, sid) && h < k ensures idle(t.handles[h]) {
      assert Of(s, h, sid);
      assert k < |s.handles| ==> Of(s, k, sid);
      assert idle(s.handles[h]) && Quiet(s.handles[h]);
      StepSparesQuiet(s, a, h);
    }
  }

  lemma {:induction false} RunKeepsOldOnes(idle: Handle -> bool, s: System, schedule: seq<Action>, sid: string)
    requires Lasting(idle) && Safe(s) && OldOnes(idle, s, sid) && KnownByNewest(s, sid)
    requires FilesMatch(schedule) && Run(s, schedule).Some? && ReusedAfter(idle, s, schedule, sid)
    ensures OldOnes(idle, Run(s, schedule).value, sid)
    decreases |schedule|
  {
    if schedule != [] {
      var a := schedule[0];
      assert FileMatches(a);
      if a.SwapToken? { assert RefInRange(s.handles, s.nextToken, s.actor.sid, s.shared[s.actor.sid]); }
      StepKeepsOldOnes(idle, s, a, sid);
      StepKeepsNewest(s, a, sid);
      StepKeepsSafe(s, a);
      RunKeepsOldOnes(idle, Apply(s, a), schedule[1..], sid);
    }
  }

  /** A session id may be allocated again and again and its turns stay serial over all its handles, as
      long as no earlier handle has a turn queued or under way at that moment. */
  lemma DrainedTurnsAreSerial(schedule: seq<Action>, sid: string, h: nat, v: nat, k: nat, w: nat)
    requires FilesMatch(schedule) && Run(INIT, schedule).Some? && ReusedAfter(Quiet, INIT, schedule, sid)
    requires
      var s := Run(INIT, schedule).value;
      && Of(s, h, sid) && v < |s.handles[h].entry.workers| && T.HoldsLock(s.handles[h].entry.workers[v])
      && Of(s, k, sid) && w < |s.handles[k].entry.workers| && T.HoldsLock(s.handles[k].entry.workers[w])
    ensures h == k && v == w
  {
    AllAreLasting();
    RunKeepsOldOnes(Quiet, INIT, schedule, sid);
    TurnsAreSerial(schedule, h);
  }

  // ---------------------------------------------------------------- when ids and checkpoints repeat

  /** Some instruction of this handle has been answered or closed. */
  predicate HasClosed(x: Handle)
  {
    exists i :: 0 <= i < |x.proxy.log| && (x.proxy.log[i].Accepted? || x.proxy.log[i].Returned?)
  }

  /** Instruction `id` has been answered or closed in two handles. */
  ghost predicate ClosedTwice(s: System, id: string)
  {
    exists h, k, i, j :: h < k && Closes(s, h, i, id) && Closes(s, k, j, id)
  }

  lemma FirstIsClosed(s: System, h: nat)
    requires h < |s.handles| && HandleInv(s.handles[h]) && HasClosed(s.handles[h])
    ensures exists i :: Closes(s, h, i, P.InstructionId(s.handles[h].proxy.sid, 1))
  {
    var p := s.handles[h].proxy;
    var i :| 0 <= i < |p.log| && (p.log[i].Accepted? || p.log[i].Returned?);
    assert P.Recorded(p, p.log[i]);
    if p.log[i].ch == 0 {
      assert Closes(s, h, i, P.InstructionId(p.sid, 1));
    } else {
      var j := P.EarlierIsReturned(p, i, 0);
      assert Closes(s, h, j, P.InstructionId(p.sid, 1));
    }
  }

  /** Instructions of one handle are closed in the order of their numbers, so two handles of a session
      repeat an instruction id exactly when both have had one answered or closed. */
  lemma IdsRepeatIff(schedule: seq<Action>, sid: string)
    requires Run(INIT, schedule).Some?
    ensures
      var s := Run(INIT, schedule).value;
      (exists n: nat :: ClosedTwice(s, P.InstructionId(sid, n))) <==>
      (exists h, k :: h < k && Of(s, h, sid) && Of(s, k, sid) && HasClosed(s.handles[h]) && HasClosed(s.handles[k]))
  {
    RunKeepsLocal(INIT, schedule);
    var s := Run(INIT, schedule).value;
    if n: nat :| ClosedTwice(s, P.InstructionId(sid, n)) {
      var id := P.InstructionId(sid, n);
      var h, k, i, j :| h < k && Closes(s, h, i, id) && Closes(s, k, j, id);
      CloserIsOfSession(s, h, i, sid, n);
      CloserIsOfSession(s, k, j, sid, n);
    }
    if h, k :| h < k && Of(s, h, sid) && Of(s, k, sid) && HasClosed(s.handles[h]) && HasClosed(s.handles[k]) {
      FirstIsClosed(s, h);
      FirstIsClosed(s, k);
      assert ClosedTwice(s, P.InstructionId(sid, 1));
    }
  }

  lemma CloserIsOfSession(s: System, h: nat, i: nat, sid: string, n: nat)
    requires Local(s) && Closes(s, h, i, P.InstructionId(sid, n))
    ensures Of(s, h, sid) && HasClosed(s.handles[h])
  {
    var p := s.handles[h].proxy;
    assert HandleInv(s.handles[h]);
    P.InstructionIdInjective(sid, n, p.sid, p.log[i].ch + 1);
  }

  /** A handle that never handed out an id has nothing answered, closed, pending or held. */
  lemma UnaskedHasNothing(x: Handle)
    requires HandleInv(x) && Unasked(x)
    ensures !HasClosed(x) && x.proxy.phase.Ready? && x.proxy.pending == map[]
    ensures forall d :: 0 <= d < |x.proxy.deliveries| ==> !x.proxy.deliveries[d].Holding?
  {
    var p := x.proxy;
    assert forall i :: 0 <= i < |p.log| ==> P.Recorded(p, p.log[i]);
    assert forall d :: 0 <= d < |p.deliveries| ==> P.HoldsChannel(p, p.deliveries[d]);
  }

  /** So it refuses whatever is delivered to it. */
  lemma UnaskedRefuses(x: Handle, d: nat)
    requires HandleInv(x) && Unasked(x) && d < |x.proxy.deliveries| && !x.proxy.deliveries[d].Answered?
    ensures x.proxy.deliveries[d].Snapshot?
    ensures P.Apply(x.proxy, P.DeliverTake(d), false).deliveries[d] == P.Answered(false)
  {
    UnaskedHasNothing(x);
  }

  /** The session's handles before the one that has closed an instruction are unasked. */
  lemma OlderAreUnasked(schedule: seq<Action>, sid: string, h: nat, k: nat)
    requires FilesMatch(schedule) && Run(INIT, schedule).Some? && ReusedAfter(Unasked, INIT, schedule, sid)
    requires Of(Run(INIT, schedule).value, h, sid) && Of(Run(INIT, schedule).value, k, sid) && h != k
    requires HasClosed(Run(INIT, schedule).value.handles[h])
    ensures k < h && HandleInv(Run(INIT, schedule).value.handles[k]) && Unasked(Run(INIT, schedule).value.handles[k])
  {
    var hs := Run(INIT, schedule).value.handles;
    RunKeepsLocal(INIT, schedule);
    AllAreLasting();
    RunKeepsOldOnes(Unasked, INIT, schedule, sid);
    assert HandleInv(hs[h]) && HandleInv(hs[k]);
    if h < k { UnaskedHasNothing(hs[h]); }
  }

  /** As long as each new handle of a session starts when none before it ever handed out an id and
      none has a turn left, exactly-once delivery holds across all handles: an instruction id is
      answered and closed in one handle only, at most once each, and the answer comes first. */
  lemma UnaskedIsExactlyOnce(schedule: seq<Action>, sid: string, h: nat, i: nat, k: nat, j: nat, n: nat)
    requires FilesMatch(schedule) && Run(INIT, schedule).Some? && ReusedAfter(Unasked, INIT, schedule, sid)
    requires Closes(Run(INIT, schedule).value, h, i, P.InstructionId(sid, n))
    requires Closes(Run(INIT, schedule).value, k, j, P.InstructionId(sid, n))
    ensures
      var hs := Run(INIT, schedule).value.handles;
      var e, f := hs[h].proxy.log[i], hs[k].proxy.log[j];
      && h == k
      && (e.Accepted? == f.Accepted? ==> i == j)
      && (e.Accepted? && f.Returned? ==> i < j)
  {
    var s := Run(INIT, schedule).value;
    RunKeepsLocal(INIT, schedule);
    CloserIsOfSession(s, h, i, sid, n);
    CloserIsOfSession(s, k, j, sid, n);
    if h != k {
      OlderAreUnasked(schedule, sid, h, k);
      OlderAreUnasked(schedule, sid, k, h);
    }
    DeliveryIsExactlyOnce(schedule, h);
  }

  /** Under the same condition a delivery for an instruction that has its outcome is refused, whichever
      handle it was aimed at and whichever step it has reached. */
  lemma UnaskedRefusesLateDelivery(schedule: seq<Action>, sid: string, h: nat, i: nat, k: nat, d: nat)
    requires FilesMatch(schedule) && Run(INIT, schedule).Some? && ReusedAfter(Unasked, INIT, schedule, sid)
    requires
      var s := Run(INIT, schedule).value;
      && Of(s, h, sid) && i < |s.handles[h].proxy.log| && s.handles[h].proxy.log[i].Returned?
      && k < |s.handles| && d < |s.handles[k].proxy.deliveries| && !s.handles[k].proxy.deliveries[d].Answered?
      && s.handles[k].proxy.deliveries[d].id == s.handles[h].proxy.log[i].id
    ensures Refused(Run(INIT, schedule).value.handles[k].proxy, d)
  {
    var hs := Run(INIT, schedule).value.handles;
    RunKeepsLocal(INIT, schedule);
    assert HandleInv(hs[h]) && HandleInv(hs[k]);
    if h == k {
      P.LateDeliveryRefused(hs[h].proxy, i, d);
    } else if hs[k].proxy.sid != sid {
      P.StrayDeliveryRefused(hs[k].proxy, d, sid, hs[h].proxy.log[i].ch + 1);
    } else {
      OlderAreUnasked(schedule, sid, h, k);
      UnaskedRefuses(hs[k], d);
    }
  }

  /** Some checkpoint index of the session is saved in two handles. */
  ghost predicate SavedTwice(s: System, sid: string)
  {
    exists h, k :: h < k && Of(s, h, sid) && Of(s, k, sid) && SharesStep(s.handles[h].entry, s.handles[k].entry)
  }

  predicate SharesStep(e: T.Entry, f: T.Entry)
  {
    exists i, j :: 0 <= i < |T.Steps(e.log)| && 0 <= j < |T.Steps(f.log)| && T.Steps(e.log)[i] == T.Steps(f.log)[j]
  }

  lemma BothSavedZero(e: T.Entry, f: T.Entry)
    requires T.Inv(e) && T.Inv(f) && T.Steps(e.log) != [] && T.Steps(f.log) != []
    ensures SharesStep(e, f)
  {
    assert T.Steps(e.log)[0] == 0 == T.Steps(f.log)[0];
  }

  /** Checkpoints of each handle count from 0, so two handles of a session repeat an index exactly when
      both have saved one. */
  lemma CheckpointsRepeatIff(schedule: seq<Action>, sid: string)
    requires Run(INIT, schedule).Some?
    ensures
      var s := Run(INIT, schedule).value;
      SavedTwice(s, sid) <==>
      exists h, k :: h < k && Of(s, h, sid) && Of(s, k, sid)
                  && T.Steps(s.handles[h].entry.log) != [] && T.Steps(s.handles[k].entry.log) != []
  {
    var s := Run(INIT, schedule).value;
    RunKeepsLocal(INIT, schedule);
    if h, k :| h < k && Of(s, h, sid) && Of(s, k, sid)
               && T.Steps(s.handles[h].entry.log) != [] && T.Steps(s.handles[k].entry.log) != [] {
      assert HandleInv(s.handles[h]) && HandleInv(s.handles[k]);
      BothSavedZero(s.handles[h].entry, s.handles[k].entry);
    }
  }

  /** As long as each new handle of a session starts when none before it ever ended a turn and none has
      one left, no checkpoint index of the session is saved twice. */
  lemma UnsavedNeverRepeats(schedule: seq<Action>, sid: string)
    requires FilesMatch(schedule) && Run(INIT, schedule).Some? && ReusedAfter(Unsaved, INIT, schedule, sid)
    ensures !SavedTwice(Run(INIT, schedule).value, sid)
  {
    var s := Run(INIT, schedule).value;
    RunKeepsLocal(INIT, schedule);
    AllAreLasting();
    RunKeepsOldOnes(Unsaved, INIT, schedule, sid);
    forall h, k | h < k && Of(s, h, sid) && Of(s, k, sid) ensures T.Steps(s.handles[h].entry.log) == [] {
      assert HandleInv(s.handles[h]) && Unsaved(s.handles[h]);
    }
  }

  // ---------------------------------------------------------------- what closing a session waits for

  predicate HasWorker(s: System, h: nat, w: nat)
  {
    h < |s.handles| && w < |s.handles[h].entry.workers|
  }

  /** The turn has taken the lock, and may have finished. */
  predicate Begun(s: System, h: nat, w: nat)
    requires HasWorker(s, h, w)
  {
    T.HoldsLock(s.handles[h].entry.workers[w]) || s.handles[h].entry.workers[w].Done?
  }

  lemma StepKeepsBegun(s: System, a: Action, h: nat, w: nat)
    requires Enabled(s, a) && HasWorker(s, h, w) && Begun(s, h, w)
    ensures HasWorker(Apply(s, a), h, w) && Begun(Apply(s, a), h, w)
  {
  }

  lemma {:induction false} RunKeepsBegun(s: System, schedule: seq<Action>, h: nat, w: nat)
    requires Run(s, schedule).Some? && HasWorker(s, h, w) && Begun(s, h, w)
    ensures HasWorker(Run(s, schedule).value, h, w) && Begun(Run(s, schedule).value, h, w)
    decreases |schedule|
  {
    if schedule != [] {
      StepKeepsBegun(s, schedule[0], h, w);
      RunKeepsBegun(Apply(s, schedule[0]), schedule[1..], h, w);
    }
  }

  /** Closing a session reads its usage under the entry lock before it removes it.  A turn under way
      when the usage is asked for has finished, checkpoint and all, by the time it is read. */
  lemma UsageWaitsForTheTurn(schedule: seq<Action>, rest: seq<Action>, h: nat, w: nat)
    requires Run(INIT, schedule).Some? && Run(Run(INIT, schedule).value, rest).Some?
    requires
      var s, t := Run(INIT, schedule).value, Run(Run(INIT, schedule).value, rest).value;
      && HasWorker(s, h, w) && T.HoldsLock(s.handles[h].entry.workers[w])
      && h < |t.handles| && t.handles[h].entry.lock.None?
    ensures
      var t := Run(Run(INIT, schedule).value, rest).value;
      HasWorker(t, h, w) && t.handles[h].entry.workers[w].Done? && t.handles[h].proxy.phase.Ready?
  {
    var s := Run(INIT, schedule).value;
    RunKeepsLocal(INIT, schedule);
    RunKeepsLocal(s, rest);
    RunKeepsBegun(s, rest, h, w);
    assert HandleInv(Run(s, rest).value.handles[h]);
  }

  // ---------------------------------------------------------------- a session with two lives

  /** The condition is needed, and not only in one run: wherever a session still has a turn queued or
      running, removing it, resuming it and sending the next message can give it two turns at once. */
  lemma RemovalDuringTurnForks(schedule: seq<Action>, sid: string, count: nat)
    requires FilesMatch(schedule) && Run(INIT, schedule).Some?
    requires
      var s := Run(INIT, schedule).value;
      s.actor.Idle? && sid in s.sessions && s.sessions[sid].h < |s.handles| && !Quiet(s.handles[s.sessions[sid].h])
    ensures
      var h, k := Run(INIT, schedule).value.sessions[sid].h, |Run(INIT, schedule).value.handles|;
      exists longer :: FilesMatch(longer) && Run(INIT, longer).Some? &&
        var t := Run(INIT, longer).value;
        h != k && Of(t, h, sid) && Of(t, k, sid) && Busy(t.handles[h]) && Busy(t.handles[k])
  {
    var s := Run(INIT, schedule).value;
    var h, k := s.sessions[sid].h, |s.handles|;
    RunKeepsSafe(INIT, schedule);
    assert RefInRange(s.handles, s.nextToken, sid, s.shared[sid]);
    assert HandleInv(s.handles[h]);
    var longer, t := MadeBusy(schedule, s, h);
    longer, t := Forked(longer, t, sid, count);
    assert Of(t, h, sid) && Of(t, k, sid);
  }

  /** A handle with an unfinished turn has one under way, or can have the next moment. */
  lemma MadeBusy(schedule: seq<Action>, s: System, h: nat) returns (longer: seq<Action>, t: System)
    requires FilesMatch(schedule) && Run(INIT, schedule) == Some(s)
    requires h < |s.handles| && T.Inv(s.handles[h].entry) && !Quiet(s.handles[h])
    ensures FilesMatch(longer) && Run(INIT, longer) == Some(t) && |t.handles| == |s.handles|
    ensures Busy(t.handles[h]) && t.handles[h].proxy == s.handles[h].proxy
    ensures t.actor == s.actor && t.sessions == s.sessions
  {
    var e := s.handles[h].entry;
    longer, t := schedule, s;
    if e.lock.Some? {
      assert T.HoldsLock(e.workers[e.lock.value]);
    } else {
      var w :| 0 <= w < |e.workers| && !e.workers[w].Done?;
      longer, t := Then(schedule, s, OnEntry(h, T.Lock(w)));
      assert T.HoldsLock(t.handles[h].entry.workers[w]);
    }
  }

  /** Remove, resume, next message: a second handle in its turn, the others as they were. */
  lemma Forked(schedule: seq<Action>, s: System, sid: string, count: nat) returns (longer: seq<Action>, t: System)
    requires FilesMatch(schedule) && Run(INIT, schedule) == Some(s) && s.actor.Idle?
    ensures FilesMatch(longer) && Run(INIT, longer) == Some(t) && |t.handles| == |s.handles| + 1
    ensures forall h :: 0 <= h < |s.handles| ==> t.handles[h] == s.handles[h]
    ensures Of(t, |s.handles|, sid) && Busy(t.handles[|s.handles|])
  {
    var k := |s.handles|;
    longer, t := Removed(schedule, s, sid);
    longer, t := Allocated(longer, t, ResumeLoad(sid, sid, count, false));
    assert t.handles[k] == NewHandle(sid, count, s.nextToken);
    longer, t := TurnStarted(longer, t, sid, t.handles[k], count);
    assert T.HoldsLock(t.handles[k].entry.workers[0]);
  }

  /** One more handle of the session, the others as they were. */
  predicate OneMore(s: System, t: System, sid: string)
  {
    && |t.handles| == |s.handles| + 1 && Of(t, |s.handles|, sid)
    && forall g :: 0 <= g < |s.handles| ==> t.handles[g] == s.handles[g]
  }

  lemma LiveHandle(schedule: seq<Action>, sid: string)
    requires FilesMatch(schedule) && Run(INIT, schedule).Some?
    requires Run(INIT, schedule).value.actor.Idle? && sid in Run(INIT, schedule).value.sessions
    ensures
      var s := Run(INIT, schedule).value;
      && TokenRefs(s) && Of(s, s.sessions[sid].h, sid)
      && HandleInv(s.handles[s.sessions[sid].h])
  {
    RunKeepsSafe(INIT, schedule);
    var s := Run(INIT, schedule).value;
    assert RefInRange(s.handles, s.nextToken, sid, s.shared[sid]);
  }

  /** Those conditions are needed, turns left or not: from every reachable state a live session can be
      removed, resumed and asked again, and the answer to a card numbered 1 is accepted by the new
      handle while all others stay as they were.  If the old one had its first card answered or closed,
      the id has been answered twice, and a late answer to the old card is taken for the new one. */
  lemma ResumedRepeatsIds(schedule: seq<Action>, sid: string, count: nat, payload: P.Payload)
    returns (longer: seq<Action>)
    requires FilesMatch(schedule) && Run(INIT, schedule).Some?
    requires Run(INIT, schedule).value.actor.Idle? && sid in Run(INIT, schedule).value.sessions
    ensures FilesMatch(longer) && Run(INIT, longer).Some?
    ensures
      var s, t := Run(INIT, schedule).value, Run(INIT, longer).value;
      var h, k := s.sessions[sid].h, |s.handles|;
      && OneMore(s, t, sid) && Of(t, h, sid) && h < k && t.handles[k].proxy == AnsweredCard(sid, payload)
      && (HasClosed(s.handles[h]) ==> ClosedTwice(t, P.InstructionId(sid, 1)))
  {
    var s := Run(INIT, schedule).value;
    var h, k := s.sessions[sid].h, |s.handles|;
    LiveHandle(schedule, sid);
    ghost var t;
    longer, t := AskedAgain(schedule, s, sid, count, payload);
    assert t.handles[h] == s.handles[h];
    if HasClosed(s.handles[h]) {
      FirstIsClosed(t, h);
      assert Closes(t, k, 1, P.InstructionId(sid, 1));
    }
  }

  lemma AskedAgain(schedule: seq<Action>, s: System, sid: string, count: nat, payload: P.Payload)
    returns (longer: seq<Action>, t: System)
    requires FilesMatch(schedule) && Run(INIT, schedule) == Some(s) && s.actor.Idle? && TokenRefs(s)
    ensures FilesMatch(longer) && Run(INIT, longer) == Some(t)
    ensures OneMore(s, t, sid) && t.handles[|s.handles|].proxy == AnsweredCard(sid, payload)
  {
    var k := |s.handles|;
    longer, t := ResumedInTurn(schedule, s, sid, count);
    longer, t := CardShown(longer, t, k, t.handles[k]);
    longer, t := CardAnswered(longer, t, sid, k, t.handles[k], payload);
  }

  /** Likewise for checkpoints: the new handle saves index 0 again. */
  lemma ResumedRepeatsCheckpoints(schedule: seq<Action>, sid: string, count: nat) returns (longer: seq<Action>)
    requires FilesMatch(schedule) && Run(INIT, schedule).Some?
    requires Run(INIT, schedule).value.actor.Idle? && sid in Run(INIT, schedule).value.sessions
    ensures FilesMatch(longer) && Run(INIT, longer).Some?
    ensures
      var s, t := Run(INIT, schedule).value, Run(INIT, longer).value;
      var h, k := s.sessions[sid].h, |s.handles|;
      && OneMore(s, t, sid) && Of(t, h, sid) && h < k && T.Steps(t.handles[k].entry.log) == [0]
      && (T.Steps(s.handles[h].entry.log) != [] ==> SavedTwice(t, sid))
  {
    var s := Run(INIT, schedule).value;
    var h, k := s.sessions[sid].h, |s.handles|;
    LiveHandle(schedule, sid);
    ghost var t;
    longer, t := SavedAgain(schedule, s, sid, count);
    assert t.handles[h] == s.handles[h];
    CheckpointsRepeatIff(longer, sid);
  }

  lemma SavedAgain(schedule: seq<Action>, s: System, sid: string, count: nat)
    returns (longer: seq<Action>, t: System)
    requires FilesMatch(schedule) && Run(INIT, schedule) == Some(s) && s.actor.Idle? && TokenRefs(s)
    ensures FilesMatch(longer) && Run(INIT, longer) == Some(t)
    ensures OneMore(s, t, sid) && T.Steps(t.handles[|s.handles|].entry.log) == [0]
  {
    var k := |s.handles|;
    longer, t := ResumedInTurn(schedule, s, sid, count);
    longer, t := TurnSaved(longer, t, k, t.handles[k], count);
  }

  /** The resumed session in its first turn. */
  lemma ResumedInTurn(schedule: seq<Action>, s: System, sid: string, count: nat)
    returns (longer: seq<Action>, t: System)
    requires FilesMatch(schedule) && Run(INIT, schedule) == Some(s) && s.actor.Idle? && TokenRefs(s)
    ensures FilesMatch(longer) && Run(INIT, longer) == Some(t) && t.cancelled == s.cancelled
    ensures
      var k := |s.handles|;
      && t.handles == s.handles + [NewHandle(sid, count, s.nextToken).(turns := 1, entry := Running(count))]
      && InTurn(t.handles[k]) && !TokenFired(t, k) && sid in t.shared && t.shared[sid].h == k
  {
    var k := |s.handles|;
    longer, t := Removed(schedule, s, sid);
    longer, t := Allocated(longer, t, ResumeLoad(sid, sid, count, false));
    assert t.handles[k] == NewHandle(sid, count, s.nextToken);
    longer, t := TurnStarted(longer, t, sid, t.handles[k], count);
    assert t.handles == s.handles + [NewHandle(sid, count, s.nextToken).(turns := 1, entry := Running(count))];
  }

  /** That turn ended and its checkpoint saved. */
  lemma TurnSaved(schedule: seq<Action>, s: System, h: nat, x: Handle, count: nat)
    returns (longer: seq<Action>, t: System)
    requires FilesMatch(schedule) && Run(INIT, schedule) == Some(s) && h < |s.handles| && s.handles[h] == x
    requires x.entry == Running(count) && x.proxy.phase.Ready?
    ensures FilesMatch(longer) && Run(INIT, longer) == Some(t) && |t.handles| == |s.handles|
    ensures forall g :: 0 <= g < |s.handles| && g != h ==> t.handles[g] == s.handles[g]
    ensures t.handles[h].proxy == x.proxy && T.Steps(t.handles[h].entry.log) == [0]
  {
    longer, t := Then(schedule, s, OnEntry(h, T.EndRun(0, count)));
    assert t.handles[h].entry.workers == [T.Ended(0)] && t.handles[h].entry.log == [];
    longer, t := Then(longer, t, OnEntry(h, T.Save(0)));
    assert t.handles[h].entry.log == [T.Checkpoint(0, count)];
    assert [T.Checkpoint(0, count)][..0] == [];
  }

  /** Such a fork also repeats instruction ids and answers.  In this run two turns go on at once under
      one session id, both wait under one instruction id, and an answer was accepted for it twice. */
  lemma RemovedAndResumedForks(p: P.Payload, q: P.Payload)
    ensures exists schedule :: FilesMatch(schedule) && Run(INIT, schedule).Some? &&
              var s := Run(INIT, schedule).value;
              && Of(s, 0, "s") && Of(s, 1, "s")
              && InTurn(s.handles[0]) && InTurn(s.handles[1])
              && s.handles[0].proxy == AnsweredCard("s", p) && s.handles[1].proxy == AnsweredCard("s", q)
              && s.handles[0].proxy.phase == s.handles[1].proxy.phase
              && Closes(s, 0, 1, P.InstructionId("s", 1)) && Closes(s, 1, 1, P.InstructionId("s", 1))
  {
    var schedule, s := FirstLife(p);
    var first := s.handles[0];
    schedule, s := Removed(schedule, s, "s");
    schedule, s := Allocated(schedule, s, ResumeLoad("s", "s", 0, false));
    assert s.handles == [first, NewHandle("s", 0, 2)];
    schedule, s := SecondLife(schedule, s, first, q);
  }

  /** A session in its first turn, its card answered. */
  lemma FirstLife(p: P.Payload) returns (schedule: seq<Action>, s: System)
    ensures FilesMatch(schedule) && Run(INIT, schedule) == Some(s) && |s.handles| == 1 && s.actor.Idle?
    ensures s.handles[0].proxy == AnsweredCard("s", p) && InTurn(s.handles[0])
    ensures s.nextToken == 2 && s.cancelled == {} && s.sessions == s.shared
  {
    schedule, s := Allocated([], INIT, Create("s", false));
    assert s.handles == [NewHandle("s", 0, 0)];
    schedule, s := TurnStarted(schedule, s, "s", s.handles[0], 0);
    schedule, s := CardShown(schedule, s, 0, s.handles[0]);
    schedule, s := CardAnswered(schedule, s, "s", 0, s.handles[0], p);
  }

  /** Its second handle takes the same course, whatever the first is doing. */
  lemma SecondLife(schedule: seq<Action>, s: System, first: Handle, q: P.Payload)
    returns (longer: seq<Action>, t: System)
    requires FilesMatch(schedule) && Run(INIT, schedule) == Some(s) && s.actor.Idle? && s.cancelled == {}
    requires s.handles == [first, NewHandle("s", 0, 2)]
    requires "s" in s.sessions && s.sessions["s"].h == 1 && "s" in s.shared && s.shared["s"].h == 1
    ensures FilesMatch(longer) && Run(INIT, longer) == Some(t) && |t.handles| == 2 && t.handles[0] == first
    ensures t.handles[1].proxy == AnsweredCard("s", q) && InTurn(t.handles[1])
  {
    longer, t := TurnStarted(schedule, s, "s", s.handles[1], 0);
    longer, t := CardShown(longer, t, 1, t.handles[1]);
    longer, t := CardAnswered(longer, t, "s", 1, t.handles[1], q);
  }
}
