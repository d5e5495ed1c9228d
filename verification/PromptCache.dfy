/**
 The prompt cache: completion entries with a time to live, counters that are written back after
 every operation, and the detection of prompt-cache breaks.

 Clock readings are parameters.  Requests carry their serialised bytes.  File writes succeed.
 */
module PromptCache {
  import opened Basics
  import opened Utf8
  import opened Fnv
  import CachePaths
  import S = Stream

  const REQUEST_FINGERPRINT_VERSION: nat := 1

  /** The JSON bytes of a request and of the four parts that are fingerprinted. */
  datatype Request = Request(json: seq<byte>, model: seq<byte>, system: seq<byte>, tools: seq<byte>,
                             messages: seq<byte>)

  datatype Response = Response(body: string, usage: S.Usage)

  datatype Config = Config(completionTtlSecs: nat, promptTtlSecs: nat, breakMinDrop: nat)

  datatype Stats = Stats(
    trackedRequests: nat,
    hits: nat,
    misses: nat,
    writes: nat,
    expectedInvalidations: nat,
    unexpectedBreaks: nat,
    totalCreationTokens: nat,
    totalReadTokens: nat,
    lastCreationTokens: Option<nat>,
    lastReadTokens: Option<nat>,
    lastRequestHash: Option<string>,
    lastCompletionKey: Option<string>,
    lastBreakReason: Option<string>,
    lastSource: Option<string>)

  const NO_STATS := Stats(0, 0, 0, 0, 0, 0, 0, 0, None, None, None, None, None, None)

  datatype Tracked = Tracked(observedAt: nat, version: nat, model: u64, system: u64, tools: u64, messages: u64,
                             readTokens: nat)

  datatype Entry = Entry(cachedAt: nat, version: nat, response: Response)

  /** The live state and the files behind it. */
  datatype Cache = Cache(
    config: Config,
    stats: Stats,
    previous: Option<Tracked>,
    entries: map<string, Entry>,
    statsFile: Option<Stats>,
    previousFile: Option<Tracked>)

  datatype Break = Break(unexpected: bool, reason: string, previousTokens: nat, currentTokens: nat, tokenDrop: nat)

  function Pad(s: string, width: nat): (r: string)
    decreases if |s| < width then width - |s| else 0
  {
    if |s| < width then Pad("0" + s, width) else s
  }

  function RequestKey(r: Request): (key: string)
  {
    "v1-" + Pad(CachePaths.Hex(StableHash(r.json)), 16)
  }

  lemma {:induction false} PadKeepsValue(s: string, width: nat)
    ensures CachePaths.HexValue(Pad(s, width)) == CachePaths.HexValue(s)
    decreases if |s| < width then width - |s| else 0
  {
    if |s| < width {
      PadKeepsValue("0" + s, width);
      CachePaths.LeadingZero(s);
    }
  }

  lemma {:induction false} PadFills(s: string, width: nat)
    ensures |Pad(s, width)| == if |s| < width then width else |s|
    decreases if |s| < width then width - |s| else 0
  {
    if |s| < width { PadFills("0" + s, width); }
  }

  /** A key names its fingerprint version and carries the hash in sixteen hexadecimal digits. */
  lemma KeyShape(r: Request)
    ensures |RequestKey(r)| == 19 && RequestKey(r)[..3] == "v1-"
    ensures CachePaths.HexValue(RequestKey(r)[3..]) == StableHash(r.json)
  {
    var hex := CachePaths.Hex(StableHash(r.json));
    Pow64();
    CachePaths.HexLength(StableHash(r.json), 16);
    PadFills(hex, 16);
    PadKeepsValue(hex, 16);
    CachePaths.HexRoundTrip(StableHash(r.json));
    assert RequestKey(r)[3..] == Pad(hex, 16);
  }

  /** Two requests share a key exactly when their whole serialised bytes hash alike. */
  lemma KeysEqualIff(r: Request, s: Request)
    ensures RequestKey(r) == RequestKey(s) <==> StableHash(r.json) == StableHash(s.json)
  {
    var a, b := CachePaths.Hex(StableHash(r.json)), CachePaths.Hex(StableHash(s.json));
    if RequestKey(r) == RequestKey(s) {
      assert RequestKey(r)[3..] == Pad(a, 16) && RequestKey(s)[3..] == Pad(b, 16);
      PadKeepsValue(a, 16);
      PadKeepsValue(b, 16);
      CachePaths.HexRoundTrip(StableHash(r.json));
      CachePaths.HexRoundTrip(StableHash(s.json));
    }
  }

  /** Requests one byte apart never share an entry. */
  lemma OneByteAwayOtherKey(r: Request, s: Request)
    requires OneByteEdit(r.json, s.json)
    ensures RequestKey(r) != RequestKey(s)
  {
    KeysEqualIff(r, s);
    OneByteEditChangesHash(r.json, s.json);
  }

  function SaturatingSub(a: nat, b: nat): (d: nat)
  {
    if a >= b then a - b else 0
  }

  function TrackedFrom(r: Request, usage: S.Usage, now: nat): (t: Tracked)
  {
    Tracked(now, REQUEST_FINGERPRINT_VERSION, StableHash(r.model), StableHash(r.system), StableHash(r.tools),
            StableHash(r.messages), usage.cacheReadInputTokens)
  }

  function Reasons(a: Tracked, b: Tracked): (rs: seq<string>)
  {
    (if a.model != b.model then ["model changed"] else [])
    + (if a.system != b.system then ["system prompt changed"] else [])
    + (if a.tools != b.tools then ["tool definitions changed"] else [])
    + (if a.messages != b.messages then ["message payload changed"] else [])
  }

  function DetectBreak(config: Config, previous: Option<Tracked>, current: Tracked): (r: Option<Break>)
  {
    if previous.None? then None
    else
      var p := previous.value;
      var drop := SaturatingSub(p.readTokens, current.readTokens);
      if p.version != current.version then
        Some(Break(false,
                   "fingerprint version changed (v" + Decimal(p.version) + " -> v" + Decimal(current.version) + ")",
                   p.readTokens, current.readTokens, drop))
      else if drop < config.breakMinDrop then None
      else
        var reasons := Reasons(p, current);
        var elapsed := SaturatingSub(current.observedAt, p.observedAt);
        if reasons != [] then Some(Break(false, Join(reasons, ", "), p.readTokens, current.readTokens, drop))
        else if elapsed > config.promptTtlSecs then
          Some(Break(false, "possible prompt cache TTL expiry after " + Decimal(elapsed) + "s", p.readTokens,
                     current.readTokens, drop))
        else
          Some(Break(true, "cache read tokens dropped while prompt fingerprint remained stable", p.readTokens,
                     current.readTokens, drop))
  }

  /** Requests one byte apart in their model, system prompt, tools or messages: whatever the token
      counts say, the difference is never blamed on the provider. */
  lemma OneByteEditIsExplained(config: Config, r: Request, s: Request, u: S.Usage, v: S.Usage, t: nat, now: nat)
    requires || OneByteEdit(r.model, s.model) || OneByteEdit(r.system, s.system)
             || OneByteEdit(r.tools, s.tools) || OneByteEdit(r.messages, s.messages)
    ensures
      var b := DetectBreak(config, Some(TrackedFrom(r, u, t)), TrackedFrom(s, v, now));
      b.Some? ==> !b.value.unexpected
  {
    if OneByteEdit(r.model, s.model) { OneByteEditChangesHash(r.model, s.model); }
    if OneByteEdit(r.system, s.system) { OneByteEditChangesHash(r.system, s.system); }
    if OneByteEdit(r.tools, s.tools) { OneByteEditChangesHash(r.tools, s.tools); }
    if OneByteEdit(r.messages, s.messages) { OneByteEditChangesHash(r.messages, s.messages); }
  }

  /** The same prompt twice: a break is reported exactly when enough cached tokens went missing, and
      it is blamed on the provider exactly when the prompt's time to live had not run out. */
  lemma StablePromptBreaks(config: Config, r: Request, u: S.Usage, v: S.Usage, t: nat, now: nat)
    ensures
      var b := DetectBreak(config, Some(TrackedFrom(r, u, t)), TrackedFrom(r, v, now));
      var drop := u.cacheReadInputTokens - v.cacheReadInputTokens;
      && (b.Some? <==> config.breakMinDrop == 0 || drop >= config.breakMinDrop)
      && (b.Some? ==> (b.value.unexpected <==> now - t <= config.promptTtlSecs))
      && (b.Some? && drop >= 0 ==> b.value.tokenDrop == drop && b.value.previousTokens == b.value.currentTokens + drop)
  {
  }

  /** A break names what was edited, and only that: one byte of one part, the others as they were. */
  lemma EditIsNamed(config: Config, r: Request, s: Request, u: S.Usage, v: S.Usage, t: nat, now: nat)
    ensures
      var b := DetectBreak(config, Some(TrackedFrom(r, u, t)), TrackedFrom(s, v, now));
      b.Some? ==>
      && (OneByteEdit(r.model, s.model) && s == r.(json := s.json, model := s.model) ==>
            b.value.reason == "model changed")
      && (OneByteEdit(r.system, s.system) && s == r.(json := s.json, system := s.system) ==>
            b.value.reason == "system prompt changed")
      && (OneByteEdit(r.tools, s.tools) && s == r.(json := s.json, tools := s.tools) ==>
            b.value.reason == "tool definitions changed")
      && (OneByteEdit(r.messages, s.messages) && s == r.(json := s.json, messages := s.messages) ==>
            b.value.reason == "message payload changed")
  {
    if OneByteEdit(r.model, s.model) { OneByteEditChangesHash(r.model, s.model); }
    if OneByteEdit(r.system, s.system) { OneByteEditChangesHash(r.system, s.system); }
    if OneByteEdit(r.tools, s.tools) { OneByteEditChangesHash(r.tools, s.tools); }
    if OneByteEdit(r.messages, s.messages) { OneByteEditChangesHash(r.messages, s.messages); }
    assert forall reason: string :: Join([reason], ", ") == reason;
  }

  /** A prompt tracked under another fingerprint version is always an expected break, whatever the
      token counts say. */
  lemma VersionChangeIsExpected(config: Config, p: Tracked, current: Tracked)
    requires p.version != current.version
    ensures
      var b := DetectBreak(config, Some(p), current);
      && b.Some? && !b.value.unexpected
      && b.value.previousTokens == p.readTokens && b.value.currentTokens == current.readTokens
  {
  }

  function ApplyUsage(s: Stats, usage: S.Usage, key: string, source: string): (r: Stats)
  {
    s.(totalCreationTokens := s.totalCreationTokens + usage.cacheCreationInputTokens,
       totalReadTokens := s.totalReadTokens + usage.cacheReadInputTokens,
       lastCreationTokens := Some(usage.cacheCreationInputTokens),
       lastReadTokens := Some(usage.cacheReadInputTokens),
       lastRequestHash := Some(key),
       lastSource := Some(source))
  }

  function Persist(c: Cache): (d: Cache)
  {
    c.(statsFile := Some(c.stats), previousFile := if c.previous.Some? then c.previous else c.previousFile)
  }

  /** Opening a cache directory. */
  function Open(config: Config, entries: map<string, Entry>, statsFile: Option<Stats>, previousFile: Option<Tracked>)
    : (c: Cache)
  {
    Cache(config, if statsFile.Some? then statsFile.value else NO_STATS, previousFile, entries, statsFile, previousFile)
  }

  function Reopen(c: Cache): (d: Cache)
  {
    Open(c.config, c.entries, c.statsFile, c.previousFile)
  }

  function ReadEntry(c: Cache, key: string): (e: Option<Entry>)
  {
    if key in c.entries then Some(c.entries[key]) else None
  }

  predicate Expired(e: Entry, now: nat, ttl: nat)
  {
    SaturatingSub(now, e.cachedAt) >= ttl
  }

  /** The entry may answer a lookup at `now`. */
  predicate Usable(e: Entry, now: nat, ttl: nat)
  {
    e.version == REQUEST_FINGERPRINT_VERSION && !Expired(e, now, ttl)
  }

  /** A miss is counted; a stale entry's file is removed, whatever the file holds by then. */
  function Miss(c: Cache, key: string, stale: bool): (d: Cache)
  {
    Persist(c.(stats := c.stats.(misses := c.stats.misses + 1, lastCompletionKey := Some(key)),
               entries := if stale then c.entries - {key} else c.entries))
  }

  function Hit(c: Cache, key: string, r: Request, usage: S.Usage, observedAt: nat): (d: Cache)
  {
    var keyed := c.stats.(hits := c.stats.hits + 1, lastCompletionKey := Some(key));
    Persist(c.(stats := ApplyUsage(keyed, usage, key, "completion-cache"),
               previous := Some(TrackedFrom(r, usage, observedAt))))
  }

  /** The second half of a lookup, with the entry as it was read before the lock was retaken. */
  function FinishLookup(c: Cache, r: Request, read: Option<Entry>, now: nat, observedAt: nat)
    : (q: (Option<Response>, Cache))
  {
    var key := RequestKey(r);
    if read.None? then (None, Miss(c, key, false))
    else if !Usable(read.value, now, c.config.completionTtlSecs) then (None, Miss(c, key, true))
    else (Some(read.value.response), Hit(c, key, r, read.value.response.usage, observedAt))
  }

  function CountBreak(s: Stats, cut: Option<Break>): (r: Stats)
  {
    if cut.None? then s
    else if cut.value.unexpected then
      s.(unexpectedBreaks := s.unexpectedBreaks + 1, lastBreakReason := Some(cut.value.reason))
    else s.(expectedInvalidations := s.expectedInvalidations + 1, lastBreakReason := Some(cut.value.reason))
  }

  function StoreResponse(c: Cache, key: string, response: Option<Response>, cachedAt: nat): (d: Cache)
  {
    if response.None? then c
    else c.(entries := c.entries[key := Entry(cachedAt, REQUEST_FINGERPRINT_VERSION, response.value)],
            stats := c.stats.(writes := c.stats.writes + 1))
  }

  /** The counted state after one request's usage and cache break. */
  function Track(c: Cache, key: string, current: Tracked, usage: S.Usage, cut: Option<Break>): (d: Cache)
  {
    var tracked := c.stats.(trackedRequests := c.stats.trackedRequests + 1);
    c.(stats := CountBreak(ApplyUsage(tracked, usage, key, "api-response"), cut),
       previous := Some(current))
  }

  function Record(c: Cache, r: Request, usage: S.Usage, response: Option<Response>, observedAt: nat, cachedAt: nat)
    : (q: (Option<Break>, Cache))
  {
    var current := TrackedFrom(r, usage, observedAt);
    var cut := DetectBreak(c.config, c.previous, current);
    (cut, Persist(StoreResponse(Track(c, RequestKey(r), current, usage, cut), RequestKey(r), response, cachedAt)))
  }

  /** The cache object; `State` is its value. */
  class Store {
    const config: Config
    var stats: Stats
    var previous: Option<Tracked>
    var entries: map<string, Entry>
    var statsFile: Option<Stats>
    var previousFile: Option<Tracked>

    function State(): (c: Cache)
      reads this
    {
      Cache(config, stats, previous, entries, statsFile, previousFile)
    }

    constructor WithConfig(config: Config, entries: map<string, Entry>, statsFile: Option<Stats>,
                           previousFile: Option<Tracked>)
      ensures State() == Open(config, entries, statsFile, previousFile)
    {
      this.config := config;
      this.stats := if statsFile.Some? then statsFile.value else NO_STATS;
      this.previous := previousFile;
      this.entries := entries;
      this.statsFile := statsFile;
      this.previousFile := previousFile;
    }

    method PersistState()
      modifies this
      ensures State() == Persist(old(State()))
    {
      statsFile := Some(stats);
      if previous.Some? {
        previousFile := previous;
      }
    }

    method LookupCompletion(r: Request, now: nat, observedAt: nat) returns (response: Option<Response>)
      modifies this
      ensures (response, State())
              == FinishLookup(old(State()), r, ReadEntry(old(State()), RequestKey(r)), now, observedAt)
    {
      var key := RequestKey(r);
      if key !in entries {
        CountMiss(key, false);
        return None;
      }
      var entry := entries[key];
      if entry.version != REQUEST_FINGERPRINT_VERSION {
        CountMiss(key, true);
        return None;
      }
      var expired := SaturatingSub(now, entry.cachedAt) >= config.completionTtlSecs;
      if expired {
        CountMiss(key, true);
        return None;
      }
      CountHit(key, r, entry.response.usage, observedAt);
      return Some(entry.response);
    }

    method CountMiss(key: string, stale: bool)
      modifies this
      ensures State() == Miss(old(State()), key, stale)
    {
      stats := stats.(misses := stats.misses + 1);
      stats := stats.(lastCompletionKey := Some(key));
      if stale {
        entries := entries - {key};
      }
      PersistState();
    }

    method CountHit(key: string, r: Request, usage: S.Usage, observedAt: nat)
      modifies this
      ensures State() == Hit(old(State()), key, r, usage, observedAt)
    {
      stats := stats.(lastCompletionKey := Some(key));
      stats := stats.(hits := stats.hits + 1);
      stats := ApplyUsage(stats, usage, key, "completion-cache");
      previous := Some(TrackedFrom(r, usage, observedAt));
      PersistState();
    }

    method RecordUsageInternal(r: Request, usage: S.Usage, response: Option<Response>, observedAt: nat, cachedAt: nat)
      returns (cut: Option<Break>)
      modifies this
      ensures (cut, State()) == Record(old(State()), r, usage, response, observedAt, cachedAt)
    {
      var key := RequestKey(r);
      var current := TrackedFrom(r, usage, observedAt);
      cut := DetectBreak(config, previous, current);
      TrackUsage(key, current, usage, cut);
      if response.Some? {
        entries := entries[key := Entry(cachedAt, REQUEST_FINGERPRINT_VERSION, response.value)];
        stats := stats.(writes := stats.writes + 1);
      }
      PersistState();
    }

    /** The counters and the tracked state of one recorded request. */
    method TrackUsage(key: string, current: Tracked, usage: S.Usage, cut: Option<Break>)
      modifies this
      ensures State() == Track(old(State()), key, current, usage, cut)
    {
      stats := stats.(trackedRequests := stats.trackedRequests + 1);
      stats := ApplyUsage(stats, usage, key, "api-response");
      if cut.Some? {
        if cut.value.unexpected {
          stats := stats.(unexpectedBreaks := stats.unexpectedBreaks + 1);
        } else {
          stats := stats.(expectedInvalidations := stats.expectedInvalidations + 1);
        }
        stats := stats.(lastBreakReason := Some(cut.value.reason));
      }
      previous := Some(current);
    }
  }
}
