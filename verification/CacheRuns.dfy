/** Whole runs of the prompt cache: one caller at a time, and many at once. */
module CacheRuns {
  import opened Basics
  import opened PromptCache
  import F = Fnv
  import S = Stream

  // ---------------------------------------------------------------- one caller at a time

  datatype Op =
    | Look(r: Request, now: nat, observedAt: nat)
    | Note(r: Request, usage: S.Usage, response: Option<Response>, observedAt: nat, cachedAt: nat)
    | Restart

  function Lookup(c: Cache, r: Request, now: nat, observedAt: nat): (q: (Option<Response>, Cache))
  {
    FinishLookup(c, r, ReadEntry(c, RequestKey(r)), now, observedAt)
  }

  function Serve(c: Cache, op: Op): (d: Cache)
  {
    match op
    case Look(r, now, observedAt) => Lookup(c, r, now, observedAt).1
    case Note(r, usage, response, observedAt, cachedAt) => Record(c, r, usage, response, observedAt, cachedAt).1
    case Restart => Reopen(c)
  }

  function After(c: Cache, ops: seq<Op>): (d: Cache)
  {
    if ops == [] then c else Serve(After(c, ops[..|ops| - 1]), ops[|ops| - 1])
  }

  /** The answers of the lookups in a run, in order. */
  function Answers(c: Cache, ops: seq<Op>): (rs: seq<Option<Response>>)
  {
    if ops == [] then []
    else
      var init, op := ops[..|ops| - 1], ops[|ops| - 1];
      Answers(c, init) + if op.Look? then [Lookup(After(c, init), op.r, op.now, op.observedAt).0] else []
  }

  /** The newest response written for `key`: what a plain log of writes holds. */
  function LatestWrite(entries: map<string, Entry>, ops: seq<Op>, key: string): (e: Option<Entry>)
  {
    if ops == [] then (if key in entries then Some(entries[key]) else None)
    else
      var op := ops[|ops| - 1];
      if op.Note? && op.response.Some? && RequestKey(op.r) == key then
        Some(Entry(op.cachedAt, REQUEST_FINGERPRINT_VERSION, op.response.value))
      else LatestWrite(entries, ops[..|ops| - 1], key)
  }

  /** The clock reading of `op` is no later than `now`. */
  predicate NoLaterThan(op: Op, now: nat)
  {
    (op.Look? ==> op.now <= now) && (op.Note? ==> op.cachedAt <= now)
  }

  /** The clock never goes back during the run, and `now` is not before its end. */
  predicate ClockRuns(ops: seq<Op>, now: nat)
  {
    ops == [] ||
    var init, op := ops[..|ops| - 1], ops[|ops| - 1];
    NoLaterThan(op, now) && ClockRuns(init, if op.Look? then op.now else if op.Note? then op.cachedAt else now)
  }

  lemma ServeKeepsConfig(c: Cache, op: Op)
    ensures Serve(c, op).config == c.config
  {
  }

  lemma {:induction false} AfterKeepsConfig(c: Cache, ops: seq<Op>)
    ensures After(c, ops).config == c.config
  {
    if ops != [] {
      AfterKeepsConfig(c, ops[..|ops| - 1]);
      ServeKeepsConfig(After(c, ops[..|ops| - 1]), ops[|ops| - 1]);
    }
  }

  /** What one operation does to the entry under `key`. */
  lemma ServeEntry(c: Cache, op: Op, key: string)
    ensures
      var e := ReadEntry(Serve(c, op), key);
      match op
      case Restart => e == ReadEntry(c, key)
      case Note(r, _, response, _, cachedAt) =>
        if response.Some? && RequestKey(r) == key then
          e == Some(Entry(cachedAt, REQUEST_FINGERPRINT_VERSION, response.value))
        else e == ReadEntry(c, key)
      case Look(r, now, _) =>
        var was := ReadEntry(c, key);
        e ==
        if RequestKey(r) == key && was.Some? && !Usable(was.value, now, c.config.completionTtlSecs) then None else was
  {
  }

  /** The entries follow the log, except that entries no lookup can use any more may be gone. */
  lemma {:induction false} EntriesFollowLog(c: Cache, ops: seq<Op>, key: string, now: nat)
    requires ClockRuns(ops, now)
    ensures
      var e, w := ReadEntry(After(c, ops), key), LatestWrite(c.entries, ops, key);
      e == w || (e.None? && w.Some? && !Usable(w.value, now, c.config.completionTtlSecs))
  {
    if ops != [] {
      var init, op := ops[..|ops| - 1], ops[|ops| - 1];
      var earlier := if op.Look? then op.now else if op.Note? then op.cachedAt else now;
      EntriesFollowLog(c, init, key, earlier);
      AfterKeepsConfig(c, init);
      ServeEntry(After(c, init), op, key);
    }
  }

  /** Written under fingerprint version 1, and less than the time to live ago. */
  predicate Young(e: Entry, now: nat, ttl: nat)
  {
    e.version == 1 && ttl > 0 && now - e.cachedAt < ttl
  }

  lemma UsableIsYoung(e: Entry, now: nat, ttl: nat)
    ensures Usable(e, now, ttl) <==> Young(e, now, ttl)
  {
  }

  /** A lookup hits exactly when the newest write for its key carries the current fingerprint
      version and is younger than the time to live, and then returns that write: eager deletion of
      expired entries cannot be seen. */
  lemma LookupAgreesWithLog(c: Cache, ops: seq<Op>, r: Request, now: nat, observedAt: nat)
    requires ClockRuns(ops, now)
    ensures
      var w := LatestWrite(c.entries, ops, RequestKey(r));
      Lookup(After(c, ops), r, now, observedAt).0 ==
      if w.Some? && Young(w.value, now, c.config.completionTtlSecs) then Some(w.value.response) else None
  {
    EntriesFollowLog(c, ops, RequestKey(r), now);
    AfterKeepsConfig(c, ops);
  }

  predicate WritesKey(op: Op, key: string)
  {
    op.Note? && op.response.Some? && RequestKey(op.r) == key
  }

  /** Since the newest write for `key`, some lookup read the clock at a time when that write `w` was
      no longer usable. */
  predicate SeenExpired(ops: seq<Op>, key: string, w: Entry, ttl: nat)
  {
    exists k :: 0 <= k < |ops| && ops[k].Look? && RequestKey(ops[k].r) == key && !Usable(w, ops[k].now, ttl)
             && forall l :: k < l < |ops| ==> !WritesKey(ops[l], key)
  }

  lemma SeenExpiredAfter(ops: seq<Op>, key: string, w: Entry, ttl: nat)
    requires ops != []
    ensures
      var init, op := ops[..|ops| - 1], ops[|ops| - 1];
      SeenExpired(ops, key, w, ttl) <==>
      (SeenExpired(init, key, w, ttl) && !WritesKey(op, key))
      || (op.Look? && RequestKey(op.r) == key && !Usable(w, op.now, ttl))
  {
    var init := ops[..|ops| - 1];
    assert forall k :: 0 <= k < |init| ==> init[k] == ops[k];
  }

  /** Under any clock: the entry is the newest write, unless a lookup since then saw it expired. */
  lemma {:induction false} EntriesExactly(c: Cache, ops: seq<Op>, key: string)
    ensures
      var w, ttl := LatestWrite(c.entries, ops, key), c.config.completionTtlSecs;
      ReadEntry(After(c, ops), key) == if w.Some? && SeenExpired(ops, key, w.value, ttl) then None else w
  {
    if ops != [] {
      var init, op := ops[..|ops| - 1], ops[|ops| - 1];
      EntriesExactly(c, init, key);
      AfterKeepsConfig(c, init);
      ServeEntry(After(c, init), op, key);
      var w := LatestWrite(c.entries, ops, key);
      if w.Some? { SeenExpiredAfter(ops, key, w.value, c.config.completionTtlSecs); }
    }
  }

  /** Without any assumption on the clock: a lookup answers as the log of writes does exactly when it
      is not the case that the newest write is usable now although a lookup since has seen it expired. */
  lemma AgreesWithLogIff(c: Cache, ops: seq<Op>, r: Request, now: nat, observedAt: nat)
    ensures
      var w, ttl := LatestWrite(c.entries, ops, RequestKey(r)), c.config.completionTtlSecs;
      var logAnswer := if w.Some? && Young(w.value, now, ttl) then Some(w.value.response) else None;
      Lookup(After(c, ops), r, now, observedAt).0 == logAnswer <==>
      !(w.Some? && Young(w.value, now, ttl) && SeenExpired(ops, RequestKey(r), w.value, ttl))
  {
    EntriesExactly(c, ops, RequestKey(r));
    AfterKeepsConfig(c, ops);
  }

  lemma AfterOne(c: Cache, ops: seq<Op>, op: Op)
    ensures After(c, ops + [op]) == Serve(After(c, ops), op)
  {
    assert (ops + [op])[..|ops|] == ops;
  }

  /** An operation treats equal entries alike. */
  lemma SameEntryServed(c: Cache, d: Cache, op: Op, key: string)
    requires ReadEntry(c, key) == ReadEntry(d, key) && c.config == d.config
    ensures ReadEntry(Serve(c, op), key) == ReadEntry(Serve(d, op), key)
  {
    ServeEntry(c, op, key);
    ServeEntry(d, op, key);
  }

  /** Recording something else between two operations, anywhere in a run, does not touch an entry. */
  lemma {:induction false} EntryIgnoresOthers(c: Cache, before: seq<Op>, note: Op, after: seq<Op>, key: string)
    requires note.Note? && RequestKey(note.r) != key
    ensures ReadEntry(After(c, before + [note] + after), key) == ReadEntry(After(c, before + after), key)
    decreases |after|
  {
    if after == [] {
      assert before + [note] + after == before + [note] && before + after == before;
      AfterOne(c, before, note);
      ServeEntry(After(c, before), note, key);
    } else {
      var init, op := after[..|after| - 1], after[|after| - 1];
      var long, short := before + [note] + init, before + init;
      EntryIgnoresOthers(c, before, note, init, key);
      assert before + [note] + after == long + [op] && before + after == short + [op];
      AfterOne(c, long, op);
      AfterOne(c, short, op);
      AfterKeepsConfig(c, long);
      AfterKeepsConfig(c, short);
      SameEntryServed(After(c, long), After(c, short), op, key);
    }
  }

  /** Requests have their own entries: recording one, anywhere in a run, never changes the answer to
      another that is one byte away, and requests with the same bytes always get the same answer. */
  lemma RequestsAreSeparate(c: Cache, before: seq<Op>, note: Op, after: seq<Op>, r: Request, now: nat, observedAt: nat)
    ensures
      note.Note? && F.OneByteEdit(r.json, note.r.json) ==>
      Lookup(After(c, before + [note] + after), r, now, observedAt).0
      == Lookup(After(c, before + after), r, now, observedAt).0
    ensures forall s: Request :: s.json == r.json ==>
              Lookup(After(c, before), s, now, observedAt).0 == Lookup(After(c, before), r, now, observedAt).0
  {
    forall s: Request | s.json == r.json
      ensures Lookup(After(c, before), s, now, observedAt).0 == Lookup(After(c, before), r, now, observedAt).0
    {
      KeysEqualIff(s, r);
    }
    if note.Note? && F.OneByteEdit(r.json, note.r.json) {
      OneByteAwayOtherKey(r, note.r);
      EntryIgnoresOthers(c, before, note, after, RequestKey(r));
      AfterKeepsConfig(c, before + [note] + after);
      AfterKeepsConfig(c, before + after);
    }
  }

  /** What the last operation leaves in the reported figures: the tokens and the source of the newest
      usage, the request it belongs to, the key last looked up, and the reason of the newest break. */
  lemma LastFiguresTell(c: Cache, op: Op)
    ensures
      var s, t := c.stats, Serve(c, op).stats;
      match op
      case Note(r, usage, response, observedAt, cachedAt) =>
        var cut := Record(c, r, usage, response, observedAt, cachedAt).0;
        && t.lastReadTokens == Some(usage.cacheReadInputTokens)
        && t.lastCreationTokens == Some(usage.cacheCreationInputTokens)
        && t.lastRequestHash == Some(RequestKey(r)) && t.lastSource == Some("api-response")
        && t.lastCompletionKey == s.lastCompletionKey
        && t.lastBreakReason == if cut.Some? then Some(cut.value.reason) else s.lastBreakReason
      case Look(r, now, observedAt) =>
        var answer := Lookup(c, r, now, observedAt).0;
        && t.lastCompletionKey == Some(RequestKey(r)) && t.lastBreakReason == s.lastBreakReason
        && if answer.Some? then
             && t.lastReadTokens == Some(answer.value.usage.cacheReadInputTokens)
             && t.lastCreationTokens == Some(answer.value.usage.cacheCreationInputTokens)
             && t.lastRequestHash == Some(RequestKey(r)) && t.lastSource == Some("completion-cache")
           else
             && t.lastReadTokens == s.lastReadTokens && t.lastCreationTokens == s.lastCreationTokens
             && t.lastRequestHash == s.lastRequestHash && t.lastSource == s.lastSource
      case Restart => Synced(c) ==> t == s
  {
  }

  /** The clock condition matters: once a lookup has dropped an entry as expired, a clock set back
      finds nothing although the log would still answer. */
  lemma ClockSetBackMisses(c: Cache, r: Request, usage: S.Usage, response: Response, t: nat)
    requires c.config.completionTtlSecs > 0
    ensures
      var ops := [Note(r, usage, Some(response), t, t), Look(r, t + c.config.completionTtlSecs, t)];
      && LatestWrite(c.entries, ops, RequestKey(r)) == Some(Entry(t, REQUEST_FINGERPRINT_VERSION, response))
      && Usable(Entry(t, REQUEST_FINGERPRINT_VERSION, response), t, c.config.completionTtlSecs)
      && Lookup(After(c, ops), r, t, t).0 == None
  {
    var note, look := Note(r, usage, Some(response), t, t), Look(r, t + c.config.completionTtlSecs, t);
    var ops := [note, look];
    assert ops[..1] == [note] && [note][..0] == [];
    assert After(c, []) == c;
    assert After(c, [note]) == Serve(c, note);
    assert After(c, ops) == Serve(Serve(c, note), look);
    ServeKeepsConfig(c, note);
    ServeEntry(c, note, RequestKey(r));
    ServeEntry(Serve(c, note), look, RequestKey(r));
    assert LatestWrite(c.entries, [note], RequestKey(r)) == Some(Entry(t, REQUEST_FINGERPRINT_VERSION, response));
  }

  // ---------------------------------------------------------------- restarts

  /** The files hold what a new process would need. */
  predicate Synced(c: Cache)
  {
    c.stats == (if c.statsFile.Some? then c.statsFile.value else NO_STATS) && c.previous == c.previousFile
  }

  /** The cache as `Open` leaves it, whatever its directory holds. */
  predicate JustOpened(c: Cache)
  {
    c == Open(c.config, c.entries, c.statsFile, c.previousFile)
  }

  lemma OpenIsSynced(c: Cache)
    requires JustOpened(c)
    ensures Synced(c)
  {
  }

  lemma ServeKeepsSynced(c: Cache, op: Op)
    requires Synced(c)
    ensures Synced(Serve(c, op)) && (op.Restart? ==> Serve(c, op) == c)
  {
  }

  function WithoutRestarts(ops: seq<Op>): (r: seq<Op>)
  {
    if ops == [] then []
    else WithoutRestarts(ops[..|ops| - 1]) + if ops[|ops| - 1].Restart? then [] else [ops[|ops| - 1]]
  }

  lemma {:induction false} RestartsChangeNothing(c: Cache, ops: seq<Op>)
    requires Synced(c)
    ensures Synced(After(c, ops))
    ensures After(c, ops) == After(c, WithoutRestarts(ops)) && Answers(c, ops) == Answers(c, WithoutRestarts(ops))
  {
    if ops != [] {
      var init, op := ops[..|ops| - 1], ops[|ops| - 1];
      RestartsChangeNothing(c, init);
      ServeKeepsSynced(After(c, init), op);
      var kept := WithoutRestarts(init);
      if op.Restart? {
        assert kept + [] == kept;
        assert Answers(c, init) + [] == Answers(c, init);
      } else {
        assert (kept + [op])[..|kept + [op]| - 1] == kept;
      }
    }
  }

  /** Re-opening the cache between any operations changes neither its state nor any answer. */
  lemma RestartsAreInvisible(c: Cache, ops: seq<Op>)
    requires JustOpened(c)
    ensures After(c, ops) == After(c, WithoutRestarts(ops)) && Answers(c, ops) == Answers(c, WithoutRestarts(ops))
  {
    OpenIsSynced(c);
    RestartsChangeNothing(c, ops);
  }

  /** The prompt a run's operations leave as the newest one: that of the last record or hit. */
  function NewestPrompt(c: Cache, ops: seq<Op>): (p: Option<Tracked>)
  {
    if ops == [] then c.previous
    else
      var init, op := ops[..|ops| - 1], ops[|ops| - 1];
      match op
      case Note(r, usage, _, observedAt, _) => Some(TrackedFrom(r, usage, observedAt))
      case Look(r, now, observedAt) =>
        var answer := Lookup(After(c, init), r, now, observedAt).0;
        if answer.Some? then Some(TrackedFrom(r, answer.value.usage, observedAt)) else NewestPrompt(c, init)
      case Restart => NewestPrompt(c, init)
  }

  lemma ServePrevious(c: Cache, op: Op)
    requires Synced(c)
    ensures
      var p := Serve(c, op).previous;
      match op
      case Note(r, usage, _, observedAt, _) => p == Some(TrackedFrom(r, usage, observedAt))
      case Look(r, now, observedAt) =>
        var answer := Lookup(c, r, now, observedAt).0;
        p == if answer.Some? then Some(TrackedFrom(r, answer.value.usage, observedAt)) else c.previous
      case Restart => p == c.previous
  {
  }

  lemma {:induction false} PreviousIsNewest(c: Cache, ops: seq<Op>)
    requires Synced(c)
    ensures After(c, ops).previous == NewestPrompt(c, ops)
  {
    if ops != [] {
      var init, op := ops[..|ops| - 1], ops[|ops| - 1];
      PreviousIsNewest(c, init);
      RestartsChangeNothing(c, init);
      ServePrevious(After(c, init), op);
    }
  }

  /** After any run, restarts included, a record is compared with the newest prompt that was recorded
      or answered from the cache, and with nothing else. */
  lemma BreaksCompareWithNewest(c: Cache, ops: seq<Op>, note: Op)
    requires JustOpened(c) && note.Note?
    ensures Record(After(c, ops), note.r, note.usage, note.response, note.observedAt, note.cachedAt).0
            == DetectBreak(c.config, NewestPrompt(c, ops), TrackedFrom(note.r, note.usage, note.observedAt))
  {
    OpenIsSynced(c);
    PreviousIsNewest(c, ops);
    AfterKeepsConfig(c, ops);
  }

  /** A prompt recorded again after any run in which it was the newest: a break is reported exactly
      when enough cached tokens went missing since, and it is blamed on the provider exactly when the
      prompt's time to live had not run out. */
  lemma RepeatedPromptBreaks(c: Cache, ops: seq<Op>, note: Op, usage: S.Usage, t: nat)
    requires JustOpened(c) && note.Note? && NewestPrompt(c, ops) == Some(TrackedFrom(note.r, usage, t))
    ensures
      var b := Record(After(c, ops), note.r, note.usage, note.response, note.observedAt, note.cachedAt).0;
      var drop := usage.cacheReadInputTokens - note.usage.cacheReadInputTokens;
      && (b.Some? <==> c.config.breakMinDrop == 0 || drop >= c.config.breakMinDrop)
      && (b.Some? ==> (b.value.unexpected <==> note.observedAt - t <= c.config.promptTtlSecs))
  {
    BreaksCompareWithNewest(c, ops, note);
    StablePromptBreaks(c.config, note.r, usage, note.usage, t, note.observedAt);
  }

  /** A prompt that differs from the newest one by one byte of its model, system, tools or messages:
      after any run, whatever break its record reports is an expected one. */
  lemma EditedPromptBreaks(c: Cache, ops: seq<Op>, note: Op, r: Request, usage: S.Usage, t: nat)
    requires JustOpened(c) && note.Note? && NewestPrompt(c, ops) == Some(TrackedFrom(r, usage, t))
    requires || F.OneByteEdit(r.model, note.r.model) || F.OneByteEdit(r.system, note.r.system)
             || F.OneByteEdit(r.tools, note.r.tools) || F.OneByteEdit(r.messages, note.r.messages)
    ensures
      var b := Record(After(c, ops), note.r, note.usage, note.response, note.observedAt, note.cachedAt).0;
      b.Some? ==> !b.value.unexpected
  {
    BreaksCompareWithNewest(c, ops, note);
    OneByteEditIsExplained(c.config, r, note.r, usage, note.usage, t, note.observedAt);
  }

  // ---------------------------------------------------------------- many callers at once

  /** A lookup between reading the entry file and taking the lock again. */
  datatype Reader = Reading(r: Request, read: Option<Entry>) | Finished

  datatype Event =
    | Answered(key: string, response: Option<Response>)
    | Recorded(key: string, usage: S.Usage, response: Option<Response>, cut: Option<Break>)

  datatype Shared = Shared(cache: Cache, readers: seq<Reader>, log: seq<Event>)

  datatype Action =
    | Begin(r: Request)
    | Finish(k: nat, now: nat, observedAt: nat)
    | Write(r: Request, usage: S.Usage, response: Option<Response>, observedAt: nat, cachedAt: nat)
    | Reboot

  predicate Enabled(s: Shared, a: Action)
  {
    a.Finish? ==> a.k < |s.readers| && s.readers[a.k].Reading?
  }

  function Apply(s: Shared, a: Action): (t: Shared)
    requires Enabled(s, a)
  {
    match a
    case Begin(r) => s.(readers := s.readers + [Reading(r, ReadEntry(s.cache, RequestKey(r)))])
    case Finish(k, now, observedAt) =>
      var Reading(r, read) := s.readers[k];
      var (response, cache) := FinishLookup(s.cache, r, read, now, observedAt);
      Shared(cache, s.readers[k := Finished], s.log + [Answered(RequestKey(r), response)])
    case Write(r, usage, response, observedAt, cachedAt) =>
      var (cut, cache) := Record(s.cache, r, usage, response, observedAt, cachedAt);
      s.(cache := cache, log := s.log + [Recorded(RequestKey(r), usage, response, cut)])
    case Reboot => s.(cache := Reopen(s.cache), readers := [])
  }

  function Run(s: Shared, schedule: seq<Action>): (r: Option<Shared>)
    decreases |schedule|
  {
    if schedule == [] then Some(s)
    else if Enabled(s, schedule[0]) then Run(Apply(s, schedule[0]), schedule[1..])
    else None
  }

  /** `e` came from the directory as it was opened, or from a write in the log. */
  ghost predicate Written(start: map<string, Entry>, log: seq<Event>, key: string, e: Entry)
  {
    (key in start && start[key] == e)
    || exists i :: 0 <= i < |log| && log[i].Recorded? && log[i].key == key && log[i].response == Some(e.response)
  }

  /** The response was in the directory at the start or was recorded for `key` before position `n`. */
  ghost predicate RecordedBefore(start: map<string, Entry>, log: seq<Event>, n: int, key: string, response: Response)
    requires n <= |log|
  {
    (key in start && start[key].response == response)
    || exists i :: 0 <= i < n && log[i].Recorded? && log[i].key == key && log[i].response == Some(response)
  }

  ghost predicate Honest(start: map<string, Entry>, s: Shared)
  {
    && (forall key :: key in s.cache.entries ==> Written(start, s.log, key, s.cache.entries[key]))
    && (forall k :: 0 <= k < |s.readers| && s.readers[k].Reading? && s.readers[k].read.Some?
                    ==> Written(start, s.log, RequestKey(s.readers[k].r), s.readers[k].read.value))
    && (forall n :: 0 <= n < |s.log| && s.log[n].Answered? && s.log[n].response.Some?
                    ==> RecordedBefore(start, s.log, n, s.log[n].key, s.log[n].response.value))
  }

  lemma WrittenStays(start: map<string, Entry>, log: seq<Event>, x: Event)
    ensures forall key, e :: Written(start, log, key, e) ==> Written(start, log + [x], key, e)
    ensures forall n, key, response :: 0 <= n <= |log| && RecordedBefore(start, log, n, key, response)
                                       ==> RecordedBefore(start, log + [x], n, key, response)
  {
    var grown := log + [x];
    assert forall i :: 0 <= i < |log| ==> grown[i] == log[i];
    forall key, e | Written(start, log, key, e) ensures Written(start, grown, key, e) {
      if !(key in start && start[key] == e) {
        var i :| 0 <= i < |log| && log[i].Recorded? && log[i].key == key && log[i].response == Some(e.response);
        assert grown[i].Recorded?;
      }
    }
    forall n, key, response | 0 <= n <= |log| && RecordedBefore(start, log, n, key, response)
      ensures RecordedBefore(start, grown, n, key, response)
    {
      if !(key in start && start[key].response == response) {
        var i :| 0 <= i < n && log[i].Recorded? && log[i].key == key && log[i].response == Some(response);
        assert grown[i].Recorded?;
      }
    }
  }

  lemma FinishKeepsHonest(start: map<string, Entry>, s: Shared, k: nat, now: nat, observedAt: nat)
    requires Honest(start, s) && Enabled(s, Finish(k, now, observedAt))
    ensures Honest(start, Apply(s, Finish(k, now, observedAt)))
  {
    var t := Apply(s, Finish(k, now, observedAt));
    var x := t.log[|s.log|];
    WrittenStays(start, s.log, x);
    assert forall key :: key in t.cache.entries ==>
             key in s.cache.entries && t.cache.entries[key] == s.cache.entries[key];
    if x.response.Some? {
      assert Written(start, s.log, x.key, s.readers[k].read.value);
      assert RecordedBefore(start, s.log, |s.log|, x.key, x.response.value);
    }
  }

  lemma WriteKeepsHonest(start: map<string, Entry>, s: Shared, a: Action)
    requires Honest(start, s) && a.Write?
    ensures Honest(start, Apply(s, a))
  {
    var t := Apply(s, a);
    var x := t.log[|s.log|];
    WrittenStays(start, s.log, x);
    assert x.Recorded? && x.key == RequestKey(a.r) && x.response == a.response;
    forall key | key in t.cache.entries ensures Written(start, t.log, key, t.cache.entries[key]) {
      if key in s.cache.entries && t.cache.entries[key] == s.cache.entries[key] {
        assert Written(start, s.log, key, s.cache.entries[key]);
      } else {
        assert t.log[|s.log|] == x;
      }
    }
  }

  lemma {:induction false} RunKeepsHonest(start: map<string, Entry>, s: Shared, schedule: seq<Action>)
    requires Honest(start, s) && Run(s, schedule).Some?
    ensures Honest(start, Run(s, schedule).value)
    decreases |schedule|
  {
    if schedule != [] {
      match schedule[0] {
        case Finish(k, now, observedAt) => FinishKeepsHonest(start, s, k, now, observedAt);
        case Write(_, _, _, _, _) => WriteKeepsHonest(start, s, schedule[0]);
        case _ =>
      }
      RunKeepsHonest(start, Apply(s, schedule[0]), schedule[1..]);
    }
  }

  /** In every interleaving a hit returns only a response recorded earlier for the same key, or one
      the directory already held. */
  lemma HitsWereRecorded(c: Cache, schedule: seq<Action>, n: nat)
    requires Run(Shared(c, [], []), schedule).Some?
    ensures
      var log := Run(Shared(c, [], []), schedule).value.log;
      n < |log| && log[n].Answered? && log[n].response.Some?
      ==> RecordedBefore(c.entries, log, n, log[n].key, log[n].response.value)
  {
    assert Honest(c.entries, Shared(c, [], []));
    RunKeepsHonest(c.entries, Shared(c, [], []), schedule);
  }

  /** But agreement with the log needs atomic lookups: a lookup that read an expired entry deletes
      the fresh one written before it finished, and the next lookup misses. */
  lemma StaleLookupDropsFreshWrite(c: Cache, r: Request, usage: S.Usage, response: Response, now: nat)
    requires RequestKey(r) in c.entries && Expired(c.entries[RequestKey(r)], now, c.config.completionTtlSecs)
    requires c.config.completionTtlSecs > 0
    ensures
      var begun := Apply(Shared(c, [], []), Begin(r));
      var written := Apply(begun, Write(r, usage, Some(response), now, now));
      && Usable(written.cache.entries[RequestKey(r)], now, c.config.completionTtlSecs)
      && Enabled(written, Finish(0, now, now))
      && var done := Apply(written, Finish(0, now, now));
         RequestKey(r) !in done.cache.entries && Lookup(done.cache, r, now, now).0 == None
  {
  }

  // ---------------------------------------------------------------- counters

  function Lookups(log: seq<Event>): (n: nat)
  {
    if log == [] then 0 else Lookups(log[..|log| - 1]) + if log[|log| - 1].Answered? then 1 else 0
  }

  function Hits(log: seq<Event>): (n: nat)
  {
    if log == [] then 0
    else Hits(log[..|log| - 1]) + if log[|log| - 1].Answered? && log[|log| - 1].response.Some? then 1 else 0
  }

  function Records(log: seq<Event>): (n: nat)
  {
    if log == [] then 0 else Records(log[..|log| - 1]) + if log[|log| - 1].Recorded? then 1 else 0
  }

  function Writes(log: seq<Event>): (n: nat)
  {
    if log == [] then 0
    else Writes(log[..|log| - 1]) + if log[|log| - 1].Recorded? && log[|log| - 1].response.Some? then 1 else 0
  }

  /** Breaks of one kind: unexpected ones or expected ones. */
  function Breaks(log: seq<Event>, unexpected: bool): (n: nat)
  {
    if log == [] then 0
    else Breaks(log[..|log| - 1], unexpected) + if BreaksAs(log[|log| - 1], unexpected) then 1 else 0
  }

  predicate BreaksAs(e: Event, unexpected: bool)
  {
    e.Recorded? && e.cut.Some? && e.cut.value.unexpected == unexpected
  }

  /** The usage an event accounts for: a hit's stored usage, a record's own. */
  function UsageIn(e: Event): (u: Option<S.Usage>)
  {
    match e
    case Answered(_, response) => if response.Some? then Some(response.value.usage) else None
    case Recorded(_, usage, _, _) => Some(usage)
  }

  function ReadTokens(log: seq<Event>): (n: nat)
  {
    if log == [] then 0
    else ReadTokens(log[..|log| - 1]) +
         var u := UsageIn(log[|log| - 1]); if u.Some? then u.value.cacheReadInputTokens else 0
  }

  function CreationTokens(log: seq<Event>): (n: nat)
  {
    if log == [] then 0
    else CreationTokens(log[..|log| - 1]) +
         var u := UsageIn(log[|log| - 1]); if u.Some? then u.value.cacheCreationInputTokens else 0
  }

  /** Every counter is its starting value plus what the log accounts for. */
  predicate Balances(start: Stats, now: Stats, log: seq<Event>)
  {
    && now.hits == start.hits + Hits(log)
    && now.hits + now.misses == start.hits + start.misses + Lookups(log)
    && now.writes == start.writes + Writes(log)
    && now.trackedRequests == start.trackedRequests + Records(log)
    && now.expectedInvalidations == start.expectedInvalidations + Breaks(log, false)
    && now.unexpectedBreaks == start.unexpectedBreaks + Breaks(log, true)
    && now.totalReadTokens == start.totalReadTokens + ReadTokens(log)
    && now.totalCreationTokens == start.totalCreationTokens + CreationTokens(log)
  }

  predicate Accounts(start: Stats, s: Shared)
  {
    Balances(start, s.cache.stats, s.log)
  }

  /** What one event adds to the counters. */
  predicate Grows(s: Stats, t: Stats, e: Event)
  {
    var usage := UsageIn(e);
    && t.hits == s.hits + (if e.Answered? && e.response.Some? then 1 else 0)
    && t.misses == s.misses + (if e.Answered? && e.response.None? then 1 else 0)
    && t.writes == s.writes + (if e.Recorded? && e.response.Some? then 1 else 0)
    && t.trackedRequests == s.trackedRequests + (if e.Recorded? then 1 else 0)
    && t.expectedInvalidations == s.expectedInvalidations + (if BreaksAs(e, false) then 1 else 0)
    && t.unexpectedBreaks == s.unexpectedBreaks + (if BreaksAs(e, true) then 1 else 0)
    && t.totalReadTokens == s.totalReadTokens + (if usage.Some? then usage.value.cacheReadInputTokens else 0)
    && t.totalCreationTokens
       == s.totalCreationTokens + (if usage.Some? then usage.value.cacheCreationInputTokens else 0)
  }

  lemma CountsAfter(log: seq<Event>, e: Event)
    ensures
      var grown := log + [e];
      && Lookups(grown) == Lookups(log) + (if e.Answered? then 1 else 0)
      && Hits(grown) == Hits(log) + (if e.Answered? && e.response.Some? then 1 else 0)
      && Records(grown) == Records(log) + (if e.Recorded? then 1 else 0)
      && Writes(grown) == Writes(log) + (if e.Recorded? && e.response.Some? then 1 else 0)
      && Breaks(grown, true) == Breaks(log, true) + (if BreaksAs(e, true) then 1 else 0)
      && Breaks(grown, false) == Breaks(log, false) + (if BreaksAs(e, false) then 1 else 0)
  {
    assert (log + [e])[..|log|] == log;
  }

  lemma TokensAfter(log: seq<Event>, e: Event)
    ensures
      var grown := log + [e];
      && ReadTokens(grown) == ReadTokens(log) + (if UsageIn(e).Some? then UsageIn(e).value.cacheReadInputTokens else 0)
      && CreationTokens(grown) == CreationTokens(log)
         + (if UsageIn(e).Some? then UsageIn(e).value.cacheCreationInputTokens else 0)
  {
    assert (log + [e])[..|log|] == log;
  }

  lemma BalanceGrows(start: Stats, s: Stats, t: Stats, log: seq<Event>, e: Event)
    requires Balances(start, s, log) && Grows(s, t, e)
    ensures Balances(start, t, log + [e])
  {
    CountsAfter(log, e);
    TokensAfter(log, e);
  }

  lemma FinishGrows(s: Shared, a: Action)
    requires Enabled(s, a) && a.Finish?
    ensures
      var t := Apply(s, a);
      |t.log| == |s.log| + 1 && t.log[..|s.log|] == s.log && Grows(s.cache.stats, t.cache.stats, t.log[|s.log|])
  {
  }

  lemma WriteGrows(s: Shared, a: Action)
    requires a.Write?
    ensures
      var t := Apply(s, a);
      |t.log| == |s.log| + 1 && t.log[..|s.log|] == s.log && Grows(s.cache.stats, t.cache.stats, t.log[|s.log|])
  {
  }

  lemma LoggedStepKeepsAccounts(start: Stats, s: Shared, t: Shared)
    requires Accounts(start, s) && |t.log| == |s.log| + 1 && t.log[..|s.log|] == s.log
    requires Grows(s.cache.stats, t.cache.stats, t.log[|s.log|])
    ensures Accounts(start, t)
  {
    BalanceGrows(start, s.cache.stats, t.cache.stats, s.log, t.log[|s.log|]);
    assert t.log == s.log + [t.log[|s.log|]];
  }

  lemma FinishKeepsSynced(c: Cache, r: Request, read: Option<Entry>, now: nat, observedAt: nat)
    requires Synced(c)
    ensures Synced(FinishLookup(c, r, read, now, observedAt).1)
  {
  }

  lemma RecordKeepsSynced(c: Cache, r: Request, usage: S.Usage, response: Option<Response>, observedAt: nat,
                          cachedAt: nat)
    requires Synced(c)
    ensures Synced(Record(c, r, usage, response, observedAt, cachedAt).1)
  {
  }

  lemma StepKeepsSynced(s: Shared, a: Action)
    requires Synced(s.cache) && Enabled(s, a)
    ensures Synced(Apply(s, a).cache) && (a.Reboot? ==> Apply(s, a).cache == s.cache)
  {
    match a
    case Finish(k, now, observedAt) => FinishKeepsSynced(s.cache, s.readers[k].r, s.readers[k].read, now, observedAt);
    case Write(r, usage, response, observedAt, cachedAt) =>
      RecordKeepsSynced(s.cache, r, usage, response, observedAt, cachedAt);
    case _ =>
  }

  lemma StepKeepsAccounts(start: Stats, s: Shared, a: Action)
    requires Accounts(start, s) && Synced(s.cache) && Enabled(s, a)
    ensures Accounts(start, Apply(s, a)) && Synced(Apply(s, a).cache)
  {
    StepKeepsSynced(s, a);
    match a
    case Finish(_, _, _) =>
      FinishGrows(s, a);
      LoggedStepKeepsAccounts(start, s, Apply(s, a));
    case Write(_, _, _, _, _) =>
      WriteGrows(s, a);
      LoggedStepKeepsAccounts(start, s, Apply(s, a));
    case _ =>
  }

  lemma {:induction false} RunKeepsAccounts(start: Stats, s: Shared, schedule: seq<Action>)
    requires Accounts(start, s) && Synced(s.cache) && Run(s, schedule).Some?
    ensures Accounts(start, Run(s, schedule).value)
    decreases |schedule|
  {
    if schedule != [] {
      StepKeepsAccounts(start, s, schedule[0]);
      RunKeepsAccounts(start, Apply(s, schedule[0]), schedule[1..]);
    }
  }

  lemma {:induction false} BreaksAtMostRecords(log: seq<Event>)
    ensures Breaks(log, true) + Breaks(log, false) <= Records(log)
  {
    if log != [] { BreaksAtMostRecords(log[..|log| - 1]); }
  }

  /** Conservation: over every run of every interleaving, restarts included, lookups are hits plus
      misses, writes are the recorded responses, breaks are at most the tracked requests, and token
      totals are the sums over hits and records. */
  lemma CountersConserve(c: Cache, schedule: seq<Action>)
    requires JustOpened(c) && Run(Shared(c, [], []), schedule).Some?
    ensures
      var t := Run(Shared(c, [], []), schedule).value;
      && Accounts(c.stats, t)
      && t.cache.stats.expectedInvalidations + t.cache.stats.unexpectedBreaks
         <= c.stats.expectedInvalidations + c.stats.unexpectedBreaks + Records(t.log)
  {
    OpenIsSynced(c);
    RunKeepsAccounts(c.stats, Shared(c, [], []), schedule);
    BreaksAtMostRecords(Run(Shared(c, [], []), schedule).value.log);
  }
}
