/**
 What `cancel_turn` does and does not do: it closes the gate in front of new executes until the
 next turn command, and it does not wake an execute that already waits.
 */
module CancelSemantics {
  import opened Basics
  import opened SessionSystem
  import opened Scripts
  import P = ProxySlots
  import T = TurnLock

  /** A turn command that reaches handle `h`. */
  predicate Reopens(s: System, a: Action, h: nat)
  {
    a.BeginTurn? && a.sid in s.sessions && s.sessions[a.sid].h == h
  }

  /** The schedule runs from `s` without a turn command for handle `h`. */
  predicate NoTurnFor(s: System, schedule: seq<Action>, h: nat)
    decreases |schedule|
  {
    schedule == []
    || (Enabled(s, schedule[0]) && !Reopens(s, schedule[0], h) && NoTurnFor(Apply(s, schedule[0]), schedule[1..], h))
  }

  /** An execute of handle `h` whose cancel check came now would be turned away. */
  predicate GateClosed(s: System, h: nat)
  {
    h < |s.handles| && (s.handles[h].flag || TokenFired(s, h))
  }

  /** Nothing was handed out or dispatched between two states of an executor between executes. */
  predicate Unmoved(p: P.Proxy, q: P.Proxy)
  {
    && q.nextSeq == p.nextSeq
    && (p.phase.Ready? ==>
          && q.phase.Ready? && q.channels == p.channels && q.pending == p.pending
          && |p.log| <= |q.log| && q.log[..|p.log|] == p.log
          && forall i :: |p.log| <= i < |q.log| ==> q.log[i] == P.CheckRefused)
  }

  lemma ProxyStepIsShut(p: P.Proxy, a: P.Action, fired: bool)
    requires P.Inv(p) && P.Enabled(p, a, fired) && (a.Check? ==> a.gate)
    ensures Unmoved(p, P.Apply(p, a, fired))
  {
    if a.DeliverSend? {
      assert P.HoldsChannel(p, p.deliveries[a.d]);
    }
  }

  lemma StepIsShut(s: System, a: Action, h: nat)
    requires Local(s) && GateClosed(s, h) && Enabled(s, a) && (TokenFired(s, h) || !Reopens(s, a, h))
    ensures GateClosed(Apply(s, a), h) && (TokenFired(s, h) ==> TokenFired(Apply(s, a), h))
    ensures Unmoved(s.handles[h].proxy, Apply(s, a).handles[h].proxy)
  {
    match a
    case OnProxy(k, step) => HandleStepIsShut(s, k, step, h);
    case Deliver(sid, id, payload) =>
      if sid in s.shared { HandleStepIsShut(s, s.shared[sid].h, P.DeliverBegin(id, payload), h); }
    case _ => OtherStepIsShut(s, a, h);
  }

  lemma HandleStepIsShut(s: System, k: nat, step: P.Action, h: nat)
    requires Local(s) && GateClosed(s, h) && k < |s.handles| && P.Enabled(s.handles[k].proxy, step, TokenFired(s, k))
    requires k == h && step.Check? ==> step.gate
    ensures GateClosed(OnHandle(s, k, step), h) && (TokenFired(s, h) ==> TokenFired(OnHandle(s, k, step), h))
    ensures Unmoved(s.handles[h].proxy, OnHandle(s, k, step).handles[h].proxy)
  {
    if k == h {
      assert HandleInv(s.handles[h]);
      ProxyStepIsShut(s.handles[h].proxy, step, TokenFired(s, h));
    } else {
      UnmovedReflexive(s.handles[h].proxy);
    }
  }

  lemma OtherStepIsShut(s: System, a: Action, h: nat)
    requires GateClosed(s, h) && Enabled(s, a) && !a.OnProxy? && !a.Deliver? && (TokenFired(s, h) || !Reopens(s, a, h))
    ensures GateClosed(Apply(s, a), h) && (TokenFired(s, h) ==> TokenFired(Apply(s, a), h))
    ensures Unmoved(s.handles[h].proxy, Apply(s, a).handles[h].proxy)
  {
    UnmovedReflexive(s.handles[h].proxy);
  }

  lemma UnmovedReflexive(p: P.Proxy)
    ensures Unmoved(p, p)
  {
  }

  lemma UnmovedTransitive(p: P.Proxy, q: P.Proxy, r: P.Proxy)
    requires Unmoved(p, q) && Unmoved(q, r)
    ensures Unmoved(p, r)
  {
    if p.phase.Ready? {
      assert r.log[..|p.log|] == q.log[..|p.log|];
      forall i | |p.log| <= i < |r.log| ensures r.log[i] == P.CheckRefused {
        if i < |q.log| { assert r.log[..|q.log|][i] == q.log[i]; }
      }
    }
  }

  /** The cancel gate: while the flag stands and no turn command reaches the handle, every check
      is refused; no id is handed out, and an idle executor's map, channels and cards stay as they
      were.  With the executor's own token fired this lasts for ever, turn commands or not. */
  lemma {:induction false} CancelGate(s: System, schedule: seq<Action>, h: nat)
    requires Local(s) && GateClosed(s, h)
    requires (TokenFired(s, h) && Run(s, schedule).Some?) || NoTurnFor(s, schedule, h)
    ensures Run(s, schedule).Some? && GateClosed(Run(s, schedule).value, h)
    ensures Unmoved(s.handles[h].proxy, Run(s, schedule).value.handles[h].proxy)
    decreases |schedule|
  {
    if schedule != [] {
      var t := Apply(s, schedule[0]);
      StepIsShut(s, schedule[0], h);
      StepKeepsLocal(s, schedule[0]);
      CancelGate(t, schedule[1..], h);
      UnmovedTransitive(s.handles[h].proxy, t.handles[h].proxy, Run(s, schedule).value.handles[h].proxy);
    }
  }

  /** The next turn command lifts the gate exactly when no early cancel has fired: the token such a
      cancel fires is the executor's own, and it is never replaced. */
  lemma TurnCommandReopensIff(schedule: seq<Action>, sid: string)
    requires FilesMatch(schedule) && Run(INIT, schedule).Some?
    requires
      var s := Run(INIT, schedule).value;
      Enabled(s, BeginTurn(sid)) && sid in s.sessions
    ensures
      var s := Run(INIT, schedule).value;
      var h := s.sessions[sid].h;
      GateClosed(Apply(s, BeginTurn(sid)), h) <==> EarlyFired(s.cancels, h)
  {
    TokenFiredIffEarlyCancel(schedule, Run(INIT, schedule).value.sessions[sid].h);
  }

  /** Every `cancel_turn` that finds its session raises the flag and fires the token right after its
      snapshot; one that finds none is over at once. */
  predicate Atomic(s: System, schedule: seq<Action>)
    decreases |schedule|
  {
    schedule == [] || !Enabled(s, schedule[0]) ||
    var t := Apply(s, schedule[0]);
    if schedule[0].CancelBegin? && schedule[0].sid in s.shared then
      var c := |s.cancels|;
      && |schedule| >= 3 && schedule[1] == CancelFlag(c) && schedule[2] == CancelFire(c)
      && Enabled(t, CancelFlag(c)) && Enabled(Apply(t, CancelFlag(c)), CancelFire(c))
      && Atomic(Apply(Apply(t, CancelFlag(c)), CancelFire(c)), schedule[3..])
    else Atomic(t, schedule[1..])
  }

  predicate NoneTaken(s: System)
  {
    forall c :: 0 <= c < |s.cancels| ==> !s.cancels[c].Taken?
  }

  predicate NoneStraddled(s: System)
  {
    forall h :: 0 <= h < |s.handles| ==> !s.handles[h].straddled
  }

  /** One whole `cancel_turn`: it leaves no snapshot behind and straddles nothing. */
  lemma WholeCancel(s: System, sid: string)
    requires NoneTaken(s) && NoneStraddled(s) && Enabled(s, CancelBegin(sid)) && sid in s.shared
    requires Enabled(Apply(s, CancelBegin(sid)), CancelFlag(|s.cancels|))
    requires Enabled(Apply(Apply(s, CancelBegin(sid)), CancelFlag(|s.cancels|)), CancelFire(|s.cancels|))
    ensures
      var u := Apply(Apply(Apply(s, CancelBegin(sid)), CancelFlag(|s.cancels|)), CancelFire(|s.cancels|));
      NoneTaken(u) && NoneStraddled(u)
  {
    var h, c := s.shared[sid].h, |s.cancels|;
    var t := Apply(s, CancelBegin(sid));
    var u := Apply(t, CancelFlag(c));
    assert t.handles == s.handles && t.cancels[..c] == s.cancels;
    assert u.handles[h].turns == s.handles[h].turns && u.cancels[c].early == (s.handles[h].turns == 0);
    assert forall i :: 0 <= i < c ==> u.cancels[i] == s.cancels[i];
  }

  lemma OtherStepTakesNone(s: System, a: Action)
    requires NoneTaken(s) && NoneStraddled(s) && Enabled(s, a) && !(a.CancelBegin? && a.sid in s.shared)
    ensures NoneTaken(Apply(s, a)) && NoneStraddled(Apply(s, a))
  {
  }

  lemma RunTail(s: System, schedule: seq<Action>)
    requires schedule != [] && Run(s, schedule).Some?
    ensures Enabled(s, schedule[0]) && Run(Apply(s, schedule[0]), schedule[1..]) == Run(s, schedule)
  {
  }

  lemma {:induction false} AtomicNeverStraddles(s: System, schedule: seq<Action>)
    requires NoneTaken(s) && NoneStraddled(s) && Atomic(s, schedule) && Run(s, schedule).Some?
    ensures NoneStraddled(Run(s, schedule).value)
    decreases |schedule|
  {
    if schedule != [] {
      var t := Apply(s, schedule[0]);
      if schedule[0].CancelBegin? && schedule[0].sid in s.shared {
        var c := |s.cancels|;
        WholeCancel(s, schedule[0].sid);
        var u := Apply(t, CancelFlag(c));
        RunTail(s, schedule);
        RunTail(t, schedule[1..]);
        RunTail(u, schedule[1..][1..]);
        assert schedule[1..][1..][1..] == schedule[3..];
        AtomicNeverStraddles(Apply(u, CancelFire(c)), schedule[3..]);
      } else {
        OtherStepTakesNone(s, schedule[0]);
        AtomicNeverStraddles(t, schedule[1..]);
      }
    }
  }

  /** With atomic cancels no wait is ever woken by a cancel and no execute ends `Cancelled`,
      although the race has an arm for it. */
  lemma AtomicCancelNeverWakes(schedule: seq<Action>, h: nat)
    requires FilesMatch(schedule) && Atomic(INIT, schedule)
    requires Run(INIT, schedule).Some? && h < |Run(INIT, schedule).value.handles|
    ensures
      var s := Run(INIT, schedule).value;
      var p := s.handles[h].proxy;
      && (p.phase.Waiting? ==> !P.CanResolve(p, P.Cancelled, TokenFired(s, h)))
      && (forall i :: 0 <= i < |p.log| && p.log[i].Returned? ==> p.log[i].outcome != P.Cancelled)
  {
    AtomicNeverStraddles(INIT, schedule);
    CancelWakesIffStraddled(schedule, h);
  }

  // ---------------------------------------------------------------- runs that show it

  lemma Created() returns (schedule: seq<Action>, s: System)
    ensures FilesMatch(schedule) && Run(INIT, schedule) == Some(s)
    ensures s.handles == [NewHandle("s", 0, 0)] && s.nextToken == 1 && s.actor.Idle?
    ensures s.sessions == s.shared == map["s" := Ref(0, 0)] && s.cancelled == {} && s.cancels == []
  {
    schedule, s := Allocated([], INIT, Create("s", false));
  }

  /** The condition is sharp: a cancel that looks before the first turn command and fires during the
      wait does wake it. */
  lemma StraddlingCancelWakes()
    ensures exists schedule :: FilesMatch(schedule) && Run(INIT, schedule).Some? &&
              var s := Run(INIT, schedule).value;
              |s.handles| == 1 && s.handles[0].proxy.phase.Waiting? &&
              P.CanResolve(s.handles[0].proxy, P.Cancelled, TokenFired(s, 0))
  {
    var schedule, s := Created();
    schedule, s := Then(schedule, s, CancelBegin("s"));
    assert s.cancels == [Taken(0, 0, true, false)];
    schedule, s := TurnStarted(schedule, s, "s", s.handles[0], 0);
    schedule, s := CardShown(schedule, s, 0, s.handles[0]);
    schedule, s := Then(schedule, s, CancelFlag(0));
    schedule, s := Then(schedule, s, CancelFire(0));
  }

  /** Without one, the same wait goes on after a `cancel_turn`: the flag is up, the token is not. */
  lemma PlainCancelLeavesTheWait()
    ensures exists schedule :: FilesMatch(schedule) && Run(INIT, schedule).Some? &&
              var s := Run(INIT, schedule).value;
              |s.handles| == 1 && s.handles[0].proxy.phase.Waiting? && s.handles[0].flag && !TokenFired(s, 0)
  {
    var schedule, s := Created();
    schedule, s := TurnStarted(schedule, s, "s", s.handles[0], 0);
    schedule, s := CardShown(schedule, s, 0, s.handles[0]);
    schedule, s := CancelledTurn(schedule, s, "s");
  }

  /** A cancel that is over before the first turn command shuts the session for good: its turn runs,
      the flag is down again, and every execute is still refused, now and for ever. */
  lemma EarlyCancelShutsForGood()
    ensures exists schedule :: FilesMatch(schedule) && Run(INIT, schedule).Some? &&
              var s := Run(INIT, schedule).value;
              && |s.handles| == 1 && InTurn(s.handles[0]) && !s.handles[0].flag && !s.handles[0].straddled
              && TokenFired(s, 0) && GateClosed(s, 0)
              && forall rest :: Run(s, rest).Some? ==> GateClosed(Run(s, rest).value, 0)
  {
    var schedule, s := Created();
    schedule, s := CancelledTurn(schedule, s, "s");
    schedule, s := TurnStarted(schedule, s, "s", s.handles[0], 0);
    RunKeepsLocal(INIT, schedule);
    forall rest | Run(s, rest).Some? ensures GateClosed(Run(s, rest).value, 0) {
      CancelGate(s, rest, 0);
    }
  }

  /** A session file with another id undoes all this: the turn command finds no shared entry to
      swap the token in, and a whole `cancel_turn` of the file's id ends the wait. */
  lemma MismatchedFileCancelWakes()
    ensures exists schedule :: !FilesMatch(schedule) && Run(INIT, schedule).Some? &&
              var s := Run(INIT, schedule).value;
              && |s.handles| == 1 && s.handles[0].turns > 0 && !s.handles[0].straddled
              && s.handles[0].proxy.phase.Waiting?
              && P.CanResolve(s.handles[0].proxy, P.Cancelled, TokenFired(s, 0))
  {
    var load := ResumeLoad("asked", "file", 0, false);
    assert "asked"[0] != "file"[0];
    var schedule, s := Allocated([], INIT, load);
    schedule, s := TurnStarted(schedule, s, "asked", s.handles[0], 0);
    schedule, s := CardShown(schedule, s, 0, s.handles[0]);
    schedule, s := CancelledTurn(schedule, s, "file");
    MismatchStays(schedule, s);
  }

  /** With matching files the first turn command swaps the token, so such a run has a mismatch. */
  lemma MismatchStays(schedule: seq<Action>, s: System)
    requires Run(INIT, schedule) == Some(s) && |s.handles| == 1 && !s.handles[0].straddled
    requires s.handles[0].proxy.phase.Waiting? && TokenFired(s, 0)
    requires s.handles[0].proxy.phase.ch < |s.handles[0].proxy.channels|
    ensures !FilesMatch(schedule)
  {
    if FilesMatch(schedule) { CancelWakesIffStraddled(schedule, 0); }
  }
}
