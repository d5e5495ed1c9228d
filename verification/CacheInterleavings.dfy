/** Exactly when a cache with many callers at once agrees with the log of writes. */
module CacheInterleavings {
  import opened Basics
  import opened PromptCache
  import opened CacheRuns

  predicate Stores(a: Action, key: string)
  {
    a.Write? && a.response.Some? && RequestKey(a.r) == key
  }

  /** The newest response stored for `key`, read off the schedule alone. */
  function Latest(entries: map<string, Entry>, schedule: seq<Action>, key: string): (e: Option<Entry>)
  {
    if schedule == [] then (if key in entries then Some(entries[key]) else None)
    else
      var a := schedule[|schedule| - 1];
      if Stores(a, key) then Some(Entry(a.cachedAt, REQUEST_FINGERPRINT_VERSION, a.response.value))
      else Latest(entries, schedule[..|schedule| - 1], key)
  }

  /** Taken in state `s`, this step ends a lookup for `key` that had read an entry which is no longer usable. */
  predicate Drops(s: Shared, a: Action, key: string)
  {
    && a.Finish? && a.k < |s.readers| && s.readers[a.k].Reading?
    && RequestKey(s.readers[a.k].r) == key
    && s.readers[a.k].read.Some? && !Usable(s.readers[a.k].read.value, a.now, s.cache.config.completionTtlSecs)
  }

  /** After the newest store for `key`, some lookup ended on an unusable entry it had read, from
      whichever store that entry came. */
  ghost predicate Dropped(s: Shared, schedule: seq<Action>, key: string)
  {
    exists i :: DroppedAt(s, schedule, key, i)
  }

  predicate DroppedAt(s: Shared, schedule: seq<Action>, key: string, i: int)
  {
    && 0 <= i < |schedule|
    && Run(s, schedule[..i]).Some? && Drops(Run(s, schedule[..i]).value, schedule[i], key)
    && forall l :: i < l < |schedule| ==> !Stores(schedule[l], key)
  }

  /** The last step of a run. */
  lemma {:induction false} RunLast(s: Shared, schedule: seq<Action>)
    requires schedule != [] && Run(s, schedule).Some?
    ensures
      var init, a := schedule[..|schedule| - 1], schedule[|schedule| - 1];
      Run(s, init).Some? && Enabled(Run(s, init).value, a) && Run(s, schedule) == Some(Apply(Run(s, init).value, a))
    decreases |schedule|
  {
    var init := schedule[..|schedule| - 1];
    if |schedule| == 1 {
      assert init == [] && schedule[1..] == [];
    } else {
      RunLast(Apply(s, schedule[0]), schedule[1..]);
      assert schedule[1..][..|schedule| - 2] == init[1..] && init[0] == schedule[0];
    }
  }

  /** What one step does to the entry under `key`. */
  lemma StepEntry(s: Shared, a: Action, key: string)
    requires Enabled(s, a)
    ensures Apply(s, a).cache.config == s.cache.config
    ensures ReadEntry(Apply(s, a).cache, key) ==
            if Stores(a, key) then Some(Entry(a.cachedAt, REQUEST_FINGERPRINT_VERSION, a.response.value))
            else if Drops(s, a, key) then None
            else ReadEntry(s.cache, key)
  {
  }

  lemma DroppedEarlier(s: Shared, schedule: seq<Action>, key: string, i: int)
    requires 0 <= i < |schedule| - 1
    ensures
      var init, a := schedule[..|schedule| - 1], schedule[|schedule| - 1];
      DroppedAt(s, schedule, key, i) <==> DroppedAt(s, init, key, i) && !Stores(a, key)
  {
    var init := schedule[..|schedule| - 1];
    assert init[..i] == schedule[..i] && init[i] == schedule[i];
    assert forall l :: i < l < |init| ==> init[l] == schedule[l];
  }

  lemma DroppedAfter(s: Shared, schedule: seq<Action>, key: string)
    requires schedule != [] && Run(s, schedule[..|schedule| - 1]).Some?
    ensures
      var init, a := schedule[..|schedule| - 1], schedule[|schedule| - 1];
      Dropped(s, schedule, key) <==> (Dropped(s, init, key) && !Stores(a, key)) || Drops(Run(s, init).value, a, key)
  {
    var n := |schedule| - 1;
    assert DroppedAt(s, schedule, key, n) <==> Drops(Run(s, schedule[..n]).value, schedule[n], key);
    forall i | 0 <= i < n
      ensures DroppedAt(s, schedule, key, i) <==> DroppedAt(s, schedule[..n], key, i) && !Stores(schedule[n], key)
    {
      DroppedEarlier(s, schedule, key, i);
    }
    DroppedByIndex(s, schedule, key, n);
  }

  /** `Dropped` follows its instances. */
  lemma DroppedByIndex(s: Shared, schedule: seq<Action>, key: string, n: nat)
    requires n + 1 == |schedule|
    requires forall i :: 0 <= i < n ==>
               (DroppedAt(s, schedule, key, i) <==> DroppedAt(s, schedule[..n], key, i) && !Stores(schedule[n], key))
    ensures Dropped(s, schedule, key) <==>
            (Dropped(s, schedule[..n], key) && !Stores(schedule[n], key)) || DroppedAt(s, schedule, key, n)
  {
    if Dropped(s, schedule, key) {
      var i :| DroppedAt(s, schedule, key, i);
      assert i < n ==> DroppedAt(s, schedule[..n], key, i);
    }
    if Dropped(s, schedule[..n], key) && !Stores(schedule[n], key) {
      var i :| DroppedAt(s, schedule[..n], key, i);
      assert 0 <= i < n;
      assert DroppedAt(s, schedule, key, i);
    }
  }

  /** In every interleaving the entry under a key is the newest one stored, unless a lookup has
      dropped it since. */
  lemma {:induction false} SharedEntriesExactly(c: Cache, schedule: seq<Action>, key: string)
    requires Run(Shared(c, [], []), schedule).Some?
    ensures
      var s0 := Shared(c, [], []);
      && Run(s0, schedule).value.cache.config == c.config
      && ReadEntry(Run(s0, schedule).value.cache, key)
         == if Dropped(s0, schedule, key) then None else Latest(c.entries, schedule, key)
  {
    var s0 := Shared(c, [], []);
    if schedule == [] {
      assert !Dropped(s0, schedule, key);
    } else {
      var init, a := schedule[..|schedule| - 1], schedule[|schedule| - 1];
      RunLast(s0, schedule);
      SharedEntriesExactly(c, init, key);
      StepEntry(Run(s0, init).value, a, key);
      DroppedAfter(s0, schedule, key);
    }
  }

  /** Step `i` is the one at which reader `k` began. */
  predicate BeganAt(s: Shared, schedule: seq<Action>, k: nat, i: nat)
  {
    && i < |schedule| && schedule[i].Begin?
    && Run(s, schedule[..i]).Some? && |Run(s, schedule[..i]).value.readers| == k
    && forall l :: i < l < |schedule| ==> !schedule[l].Reboot?
  }

  /** A lookup under way began at a step of the run, and holds what the directory held then. */
  lemma {:induction false} ReaderBegan(c: Cache, schedule: seq<Action>, k: nat) returns (i: nat)
    requires Run(Shared(c, [], []), schedule).Some?
    requires
      var s := Run(Shared(c, [], []), schedule).value;
      k < |s.readers| && s.readers[k].Reading?
    ensures
      var s0 := Shared(c, [], []);
      var reader := Run(s0, schedule).value.readers[k];
      && BeganAt(s0, schedule, k, i) && schedule[i] == Begin(reader.r)
      && reader.read == ReadEntry(Run(s0, schedule[..i]).value.cache, RequestKey(reader.r))
  {
    var s0 := Shared(c, [], []);
    var init, a := schedule[..|schedule| - 1], schedule[|schedule| - 1];
    RunLast(s0, schedule);
    var before := Run(s0, init).value;
    StepReader(before, a, k);
    if k < |before.readers| {
      i := ReaderBegan(c, init, k);
      assert init[..i] == schedule[..i];
      BeganStays(s0, schedule, k, i);
    } else {
      i := |init|;
    }
  }

  /** A lookup under way after a step was so before it, or began with it. */
  lemma StepReader(s: Shared, a: Action, k: nat)
    requires Enabled(s, a) && k < |Apply(s, a).readers| && Apply(s, a).readers[k].Reading?
    ensures
      if k < |s.readers| then s.readers[k] == Apply(s, a).readers[k] && !a.Reboot?
      else a.Begin? && k == |s.readers|
           && Apply(s, a).readers[k] == Reading(a.r, ReadEntry(s.cache, RequestKey(a.r)))
  {
  }

  lemma BeganStays(s: Shared, schedule: seq<Action>, k: nat, i: nat)
    requires schedule != [] && !schedule[|schedule| - 1].Reboot?
    requires BeganAt(s, schedule[..|schedule| - 1], k, i)
    ensures BeganAt(s, schedule, k, i)
  {
    var init := schedule[..|schedule| - 1];
    assert init[..i] == schedule[..i];
    assert forall l :: i <= l < |init| ==> schedule[l] == init[l];
  }

  /** In every interleaving a lookup answers as the log of writes stood when it read its entry (step
      `i`), exactly when it is not the case that the newest store of then is usable now although a
      lookup had dropped it. */
  lemma SharedAgreesWithLogIff(c: Cache, schedule: seq<Action>, k: nat, now: nat, observedAt: nat) returns (i: nat)
    requires Run(Shared(c, [], []), schedule).Some?
    requires
      var s := Run(Shared(c, [], []), schedule).value;
      k < |s.readers| && s.readers[k].Reading?
    ensures
      var s0 := Shared(c, [], []);
      var s := Run(s0, schedule).value;
      var r := s.readers[k].r;
      && BeganAt(s0, schedule, k, i) && schedule[i] == Begin(r)
      && Enabled(s, Finish(k, now, observedAt))
      && var t := Apply(s, Finish(k, now, observedAt));
         && |t.log| == |s.log| + 1 && t.log[|s.log|].Answered? && t.log[|s.log|].key == RequestKey(r)
         && var w, ttl := Latest(c.entries, schedule[..i], RequestKey(r)), c.config.completionTtlSecs;
            var logAnswer := if w.Some? && Usable(w.value, now, ttl) then Some(w.value.response) else None;
            t.log[|s.log|].response == logAnswer
            <==> !(w.Some? && Usable(w.value, now, ttl) && Dropped(s0, schedule[..i], RequestKey(r)))
  {
    i := ReaderBegan(c, schedule, k);
    var r := Run(Shared(c, [], []), schedule).value.readers[k].r;
    SharedEntriesExactly(c, schedule, RequestKey(r));
    SharedEntriesExactly(c, schedule[..i], RequestKey(r));
  }
}
