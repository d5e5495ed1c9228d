/**
 The turns of one session handle: workers spawned by turn commands queue on the entry lock.

 Each worker locks the entry, installs its event sender, runs the turn, counts the step, clears
 the sink, saves a checkpoint, publishes the message count and unlocks.  The lock gives no order
 among queued workers.
 */
module TurnLock {
  import opened Basics

  datatype Worker =
    | Queued
    | Running(step: nat)
    | Ended(step: nat)
    | Saved(count: nat)
    | Done

  datatype Event = Checkpoint(step: nat, count: nat) | Published(count: nat)

  datatype Entry = Entry(
    hasSink: bool,
    seed: nat,
    workers: seq<Worker>,
    lock: Option<nat>,
    stepIndex: nat,
    sink: Option<nat>,
    messages: nat,
    msgCount: nat,
    log: seq<Event>)

  /** A handle whose session starts with `seed` messages (0 when created, the file's when loaded). */
  function Fresh(hasSink: bool, seed: nat): (e: Entry)
  {
    Entry(hasSink, seed, [], None, 0, None, seed, seed, [])
  }

  datatype Action =
    | Spawn
    | Lock(w: nat)
    | EndRun(w: nat, count: nat)
    | Save(w: nat)
    | Unlock(w: nat)

  predicate Enabled(e: Entry, a: Action)
  {
    match a
    case Spawn => true
    case Lock(w) => w < |e.workers| && e.workers[w].Queued? && e.lock.None?
    case EndRun(w, _) => w < |e.workers| && e.workers[w].Running?
    case Save(w) => w < |e.workers| && e.workers[w].Ended?
    case Unlock(w) => w < |e.workers| && e.workers[w].Saved?
  }

  function Apply(e: Entry, a: Action): (f: Entry)
    requires Enabled(e, a)
  {
    match a
    case Spawn => e.(workers := e.workers + [Queued])
    case Lock(w) =>
      e.(lock := Some(w), sink := if e.hasSink then Some(w) else e.sink,
         workers := e.workers[w := Running(e.stepIndex)])
    case EndRun(w, count) =>
      e.(stepIndex := e.stepIndex + 1, sink := if e.hasSink then None else e.sink, messages := count,
         workers := e.workers[w := Ended(e.workers[w].step)])
    case Save(w) =>
      e.(log := e.log + [Checkpoint(e.workers[w].step, e.messages)], workers := e.workers[w := Saved(e.messages)])
    case Unlock(w) =>
      e.(msgCount := e.workers[w].count, lock := None, log := e.log + [Published(e.workers[w].count)],
         workers := e.workers[w := Done])
  }

  predicate HoldsLock(w: Worker)
  {
    w.Running? || w.Ended? || w.Saved?
  }

  /** The indices of the saved checkpoints, in order. */
  function Steps(log: seq<Event>): (steps: seq<nat>)
  {
    if log == [] then []
    else
      var e := log[|log| - 1];
      Steps(log[..|log| - 1]) + (if e.Checkpoint? then [e.step] else [])
  }

  /** The message count of the last finished turn, or `seed` if none has finished. */
  function LastPublished(log: seq<Event>, seed: nat): (count: nat)
  {
    if log == [] then seed
    else if log[|log| - 1].Published? then log[|log| - 1].count
    else LastPublished(log[..|log| - 1], seed)
  }

  predicate Inv(e: Entry)
  {
    && (e.lock.Some? ==> e.lock.value < |e.workers| && HoldsLock(e.workers[e.lock.value]))
    && (forall w :: 0 <= w < |e.workers| && HoldsLock(e.workers[w]) ==> e.lock == Some(w))
    && (e.sink == if e.lock.Some? && e.workers[e.lock.value].Running? && e.hasSink then e.lock else None)
    && (e.lock.Some? && e.workers[e.lock.value].Running? ==> e.workers[e.lock.value].step == e.stepIndex)
    && (e.lock.Some? && e.workers[e.lock.value].Ended? ==> e.workers[e.lock.value].step + 1 == e.stepIndex)
    && |Steps(e.log)| + (if e.lock.Some? && e.workers[e.lock.value].Ended? then 1 else 0) == e.stepIndex
    && (forall i :: 0 <= i < |Steps(e.log)| ==> Steps(e.log)[i] == i)
    && e.msgCount == LastPublished(e.log, e.seed)
  }

  /** Every step of every worker keeps the invariant. */
  lemma StepKeepsInv(e: Entry, a: Action)
    requires Inv(e) && Enabled(e, a)
    ensures Inv(Apply(e, a))
  {
    var f := Apply(e, a);
    if a.Save? || a.Unlock? {
      assert f.log[..|f.log| - 1] == e.log;
    }
  }

  /** At most one turn runs, checkpoints are 0, 1, 2, ..., the sink is the running turn's sender. */
  lemma InvGivesSerialTurns(e: Entry)
    requires Inv(e)
    ensures forall v, w :: 0 <= v < |e.workers| && 0 <= w < |e.workers|
                           && HoldsLock(e.workers[v]) && HoldsLock(e.workers[w])
                           ==> v == w
    ensures forall i :: 0 <= i < |Steps(e.log)| ==> Steps(e.log)[i] == i
    ensures e.sink.Some? ==> e.sink.value < |e.workers| && e.workers[e.sink.value].Running?
    ensures e.hasSink ==> forall w :: 0 <= w < |e.workers| && e.workers[w].Running? ==> e.sink == Some(w)
    ensures e.msgCount == LastPublished(e.log, e.seed)
  {
  }

  // ---------------------------------------------------------------- what is published

  /** The message counts of the saved checkpoints, in order. */
  function SavedCounts(log: seq<Event>): (counts: seq<nat>)
  {
    if log == [] then []
    else
      var e := log[|log| - 1];
      SavedCounts(log[..|log| - 1]) + (if e.Checkpoint? then [e.count] else [])
  }

  /** The entry against the work done on it: `counts` are the message counts its turns ended with, in
      order, and `unlocks` is how many turns have released the lock.  Each checkpoint carries the count
      its turn ended with, and the published count is that of the last turn that released the lock. */
  predicate Tracks(e: Entry, counts: seq<nat>, unlocks: nat)
    requires e.lock.Some? ==> e.lock.value < |e.workers|
  {
    && |counts| == e.stepIndex && unlocks <= |counts| <= unlocks + 1
    && e.messages == (if counts == [] then e.seed else counts[|counts| - 1])
    && e.msgCount == (if unlocks == 0 then e.seed else counts[unlocks - 1])
    && SavedCounts(e.log) == (if e.lock.Some? && e.workers[e.lock.value].Ended? then counts[..unlocks] else counts)
    && (unlocks < |counts| <==> e.lock.Some? && (e.workers[e.lock.value].Ended? || e.workers[e.lock.value].Saved?))
    && (e.lock.Some? && e.workers[e.lock.value].Saved? ==> e.workers[e.lock.value].count == e.messages)
  }

  function EndedWith(a: Action): (counts: seq<nat>)
  {
    if a.EndRun? then [a.count] else []
  }

  function UnlockedBy(a: Action): (n: nat)
  {
    if a.Unlock? then 1 else 0
  }

  lemma SavedAfter(log: seq<Event>, e: Event)
    ensures SavedCounts(log + [e]) == SavedCounts(log) + (if e.Checkpoint? then [e.count] else [])
  {
    assert (log + [e])[..|log|] == log;
  }

  lemma {:induction false} StepsAndCounts(log: seq<Event>)
    ensures |SavedCounts(log)| == |Steps(log)|
  {
    if log != [] { StepsAndCounts(log[..|log| - 1]); }
  }

  lemma EndTracks(e: Entry, a: Action, counts: seq<nat>, unlocks: nat)
    requires Inv(e) && Tracks(e, counts, unlocks) && Enabled(e, a) && a.EndRun?
    ensures Tracks(Apply(e, a), counts + [a.count], unlocks)
  {
    assert e.lock == Some(a.w);
    assert (counts + [a.count])[..unlocks] == counts;
  }

  lemma SaveTracks(e: Entry, a: Action, counts: seq<nat>, unlocks: nat)
    requires Inv(e) && Tracks(e, counts, unlocks) && Enabled(e, a) && a.Save?
    ensures Tracks(Apply(e, a), counts, unlocks)
  {
    assert e.lock == Some(a.w);
    SavedAfter(e.log, Checkpoint(e.workers[a.w].step, e.messages));
    assert counts[..unlocks] + [counts[unlocks]] == counts;
  }

  lemma UnlockTracks(e: Entry, a: Action, counts: seq<nat>, unlocks: nat)
    requires Inv(e) && Tracks(e, counts, unlocks) && Enabled(e, a) && a.Unlock?
    ensures Tracks(Apply(e, a), counts, unlocks + 1)
  {
    assert e.lock == Some(a.w);
    SavedAfter(e.log, Published(e.workers[a.w].count));
    assert SavedCounts(e.log) + [] == SavedCounts(e.log);
  }

  lemma QueueTracks(e: Entry, a: Action, counts: seq<nat>, unlocks: nat)
    requires Inv(e) && Tracks(e, counts, unlocks) && Enabled(e, a) && (a.Spawn? || a.Lock?)
    ensures Apply(e, a).lock.Some? ==> Apply(e, a).lock.value < |Apply(e, a).workers|
    ensures Tracks(Apply(e, a), counts, unlocks)
  {
  }

  lemma StepTracks(e: Entry, a: Action, counts: seq<nat>, unlocks: nat)
    requires Inv(e) && Tracks(e, counts, unlocks) && Enabled(e, a)
    ensures Apply(e, a).lock.Some? ==> Apply(e, a).lock.value < |Apply(e, a).workers|
    ensures Tracks(Apply(e, a), counts + EndedWith(a), unlocks + UnlockedBy(a))
  {
    assert counts + [] == counts;
    match a
    case EndRun(_, _) => EndTracks(e, a, counts, unlocks);
    case Save(_) => SaveTracks(e, a, counts, unlocks);
    case Unlock(_) => UnlockTracks(e, a, counts, unlocks);
    case _ => QueueTracks(e, a, counts, unlocks);
  }
}
