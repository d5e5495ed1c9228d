/** The server-sent-event parser: one frame's text, and the buffering parser around it. */
module SseParser {
  import opened Basics
  import opened Utf8
  import opened Framing
  import opened Stream

  // ---------------------------------------------------------------- text of one frame

  /** Rust's `char::is_whitespace`: the Unicode `White_Space` property. */
  predicate IsWhitespace(c: char)
  {
    var n := c as int;
    || 0x09 <= n <= 0x0D || n == 0x20 || n == 0x85 || n == 0xA0 || n == 0x1680
    || 0x2000 <= n <= 0x200A || n == 0x2028 || n == 0x2029 || n == 0x202F || n == 0x205F || n == 0x3000
  }

  /** The 25 code points with the `White_Space` property. */
  lemma WhitespaceIsUnicode(c: char)
    ensures
      IsWhitespace(c) <==>
      c as int in {0x09, 0x0A, 0x0B, 0x0C, 0x0D, 0x20, 0x85, 0xA0, 0x1680, 0x2000, 0x2001, 0x2002, 0x2003, 0x2004,
                   0x2005, 0x2006, 0x2007, 0x2008, 0x2009, 0x200A, 0x2028, 0x2029, 0x202F, 0x205F, 0x3000}
  {
  }

  function TrimStart(s: string): (t: string)
  {
    if s != "" && IsWhitespace(s[0]) then TrimStart(s[1..]) else s
  }

  function TrimEnd(s: string): (t: string)
  {
    if s != "" && IsWhitespace(s[|s| - 1]) then TrimEnd(s[..|s| - 1]) else s
  }

  function Trim(s: string): (t: string)
  {
    TrimEnd(TrimStart(s))
  }

  /** Rust's `str::lines`: split at LF, dropping a CR right before it; no final empty line. */
  function Lines(s: string): (lines: seq<string>)
  {
    if s == "" then []
    else match FindFrom(s, "\n", 0)
      case None => [s]
      case Some(i) =>
        var line := s[..i];
        [if line != "" && line[|line| - 1] == '\r' then line[..|line| - 1] else line] + Lines(s[i + 1..])
  }

  /** What the lines of a frame say: the last event name, and the data lines in order. */
  datatype Fields = Fields(name: Option<string>, data: seq<string>)

  function ReadLine(f: Fields, line: string): (g: Fields)
  {
    if StartsWith(line, ":") then f
    else if StartsWith(line, "event:") then f.(name := Some(Trim(line[6..])))
    else if StartsWith(line, "data:") then f.(data := f.data + [TrimStart(line[5..])])
    else f
  }

  function ReadLines(f: Fields, lines: seq<string>): (g: Fields)
    decreases |lines|
  {
    if lines == [] then f else ReadLines(ReadLine(f, lines[0]), lines[1..])
  }

  /** The event a set of fields carries; `Err` holds the payload that would not parse. */
  function Interpret(json: Json, f: Fields): (r: Result<Option<StreamEvent>, string>)
  {
    if f.name == Some("ping") || f.data == [] then Ok(None)
    else
      var payload := Join(f.data, "\n");
      if payload == "[DONE]" then Ok(None)
      else
        match json.decode(payload)
        case Some(e) => Ok(Some(e))
        case None => Err(payload)
  }

  function FrameEvent(json: Json, frame: string): (r: Result<Option<StreamEvent>, string>)
  {
    Interpret(json, ReadLines(Fields(None, []), Lines(Trim(frame))))
  }

  method ParseFrame(json: Json, frame: string) returns (r: Result<Option<StreamEvent>, string>)
    ensures r == FrameEvent(json, frame)
  {
    var trimmed := Trim(frame);
    if trimmed == "" {
      return Ok(None);
    }
    var dataLines: seq<string> := [];
    var eventName: Option<string> := None;
    var lines := Lines(trimmed);
    var i := 0;
    while i < |lines|
      invariant 0 <= i <= |lines|
      invariant ReadLines(Fields(None, []), lines) == ReadLines(Fields(eventName, dataLines), lines[i..])
    {
      var line := lines[i];
      if StartsWith(line, ":") {
      } else if StartsWith(line, "event:") {
        eventName := Some(Trim(line[6..]));
      } else if StartsWith(line, "data:") {
        dataLines := dataLines + [TrimStart(line[5..])];
      }
      assert lines[i..][1..] == lines[i + 1..];
      i := i + 1;
    }
    if eventName == Some("ping") {
      return Ok(None);
    }
    if dataLines == [] {
      return Ok(None);
    }
    var payload := Join(dataLines, "\n");
    if payload == "[DONE]" {
      return Ok(None);
    }
    match json.decode(payload)
    case Some(e) => r := Ok(Some(e));
    case None => r := Err(payload);
  }

  /** Lines end at an LF or a CR LF, neither of which belongs to the line; what follows is read on. */
  lemma LinesCutAtBreaks(line: string, rest: string)
    requires '\n' !in line
    ensures
      line == "" || line[|line| - 1] != '\r' ==>
      Lines(line + "\n" + rest) == [line] + Lines(rest) == Lines(line + "\r\n" + rest)
    ensures line != "" && rest == "" ==> Lines(line + rest) == [line]
  {
    if line == "" || line[|line| - 1] != '\r' {
      FirstBreak(line, rest);
      FirstBreak(line + "\r", rest);
      assert line + "\r\n" + rest == (line + "\r") + "\n" + rest;
      assert (line + "\r")[..|line|] == line;
    }
    if line != "" && rest == "" {
      assert line + rest == line;
      NoBreak(line);
    }
  }

  lemma FirstBreak(line: string, rest: string)
    requires '\n' !in line
    ensures
      var s := line + "\n" + rest;
      && FindFrom(s, "\n", 0) == Some(|line|) && s[..|line|] == line && s[|line| + 1..] == rest
  {
    var s := line + "\n" + rest;
    assert s[|line|..|line| + 1] == "\n" && OccursAt(s, "\n", |line|);
    forall i | 0 <= i < |line| ensures !OccursAt(s, "\n", i) {
      assert s[i] == line[i] && s[i..i + 1] == [line[i]];
    }
  }

  lemma NoBreak(line: string)
    requires '\n' !in line
    ensures FindFrom(line, "\n", 0).None?
  {
    forall i | 0 <= i && i + 1 <= |line| ensures !OccursAt(line, "\n", i) { assert line[i..i + 1] == [line[i]]; }
  }

  // ---------------------------------------------------------------- what a frame means

  predicate IsComment(line: string) { StartsWith(line, ":") }

  predicate NamesEvent(line: string) { StartsWith(line, "event:") }

  /** The lines that are not comments. */
  function WithoutComments(lines: seq<string>): (r: seq<string>)
  {
    if lines == [] then [] else (if IsComment(lines[0]) then [] else [lines[0]]) + WithoutComments(lines[1..])
  }

  lemma {:induction false} CommentsAreSkipped(f: Fields, lines: seq<string>)
    ensures ReadLines(f, lines) == ReadLines(f, WithoutComments(lines))
    decreases |lines|
  {
    if lines != [] {
      var rest := WithoutComments(lines[1..]);
      CommentsAreSkipped(ReadLine(f, lines[0]), lines[1..]);
      if IsComment(lines[0]) {
        assert [] + rest == rest;
      } else {
        assert ([lines[0]] + rest)[1..] == rest;
      }
    }
  }

  /** Frames whose lines differ only in comments mean the same. */
  lemma CommentsChangeNothing(json: Json, a: string, b: string)
    requires WithoutComments(Lines(Trim(a))) == WithoutComments(Lines(Trim(b)))
    ensures FrameEvent(json, a) == FrameEvent(json, b)
  {
    CommentsAreSkipped(Fields(None, []), Lines(Trim(a)));
    CommentsAreSkipped(Fields(None, []), Lines(Trim(b)));
  }

  /** Line `k` is the last one that names the event. */
  predicate LastName(lines: seq<string>, k: int)
  {
    0 <= k < |lines| && NamesEvent(lines[k]) && forall l :: k < l < |lines| ==> !NamesEvent(lines[l])
  }

  /** The payload of the data lines, in order. */
  function DataOf(lines: seq<string>): (data: seq<string>)
  {
    if lines == [] then []
    else (if StartsWith(lines[0], "data:") then [TrimStart(lines[0][5..])] else []) + DataOf(lines[1..])
  }

  /** A prefix decides the first character, so no line is of two kinds. */
  lemma KindsDiffer(line: string)
    ensures !(IsComment(line) && NamesEvent(line)) && !(IsComment(line) && StartsWith(line, "data:"))
    ensures !(NamesEvent(line) && StartsWith(line, "data:"))
  {
    if NamesEvent(line) { assert line[0] == line[..6][0] == 'e'; }
    if StartsWith(line, "data:") { assert line[0] == line[..5][0] == 'd'; }
    if IsComment(line) { assert line[0] == line[..1][0] == ':'; }
  }

  lemma {:induction false} DataInOrder(f: Fields, lines: seq<string>)
    ensures ReadLines(f, lines).data == f.data + DataOf(lines)
    decreases |lines|
  {
    if lines == [] {
      assert f.data + [] == f.data;
    } else {
      KindsDiffer(lines[0]);
      var g := ReadLine(f, lines[0]);
      DataInOrder(g, lines[1..]);
      if StartsWith(lines[0], "data:") {
        ConcatAssociative(f.data, [TrimStart(lines[0][5..])], DataOf(lines[1..]));
      } else {
        assert [] + DataOf(lines[1..]) == DataOf(lines[1..]);
      }
    }
  }

  lemma {:induction false} LastNameWins(f: Fields, lines: seq<string>)
    ensures forall k :: LastName(lines, k) ==> ReadLines(f, lines).name == Some(Trim(lines[k][6..]))
    ensures (forall k :: 0 <= k < |lines| ==> !NamesEvent(lines[k])) ==> ReadLines(f, lines).name == f.name
    decreases |lines|
  {
    if lines != [] {
      var rest := lines[1..];
      KindsDiffer(lines[0]);
      LastNameWins(ReadLine(f, lines[0]), rest);
      forall k | LastName(lines, k) ensures ReadLines(f, lines).name == Some(Trim(lines[k][6..])) {
        assert forall l :: 0 <= l < |rest| ==> rest[l] == lines[l + 1];
        if k > 0 { assert LastName(rest, k - 1); }
      }
    }
  }

  /** The frame's last event name is `ping`. */
  predicate IsPing(lines: seq<string>)
  {
    exists k :: 0 <= k < |lines| && LastName(lines, k) && Trim(lines[k][6..]) == "ping"
  }

  lemma {:induction false} SomeLastName(lines: seq<string>, k: nat) returns (l: nat)
    requires k < |lines| && NamesEvent(lines[k])
    ensures LastName(lines, l)
  {
    if NamesEvent(lines[|lines| - 1]) {
      l := |lines| - 1;
    } else {
      l := SomeLastName(lines[..|lines| - 1], k);
    }
  }

  lemma PingIsTheName(lines: seq<string>)
    ensures ReadLines(Fields(None, []), lines).name == Some("ping") <==> IsPing(lines)
  {
    var g := ReadLines(Fields(None, []), lines);
    LastNameWins(Fields(None, []), lines);
    if k: nat :| k < |lines| && NamesEvent(lines[k]) {
      var l := SomeLastName(lines, k);
      assert g.name == Some(Trim(lines[l][6..]));
    }
  }

  /** What a frame means: nothing exactly when its last name is `ping`, it has no data, or its data
      is `[DONE]`; otherwise what its data lines, joined, decode to, and an error carries them. */
  lemma FrameMeaning(json: Json, frame: string)
    ensures
      var lines := Lines(Trim(frame));
      var payload := Join(DataOf(lines), "\n");
      && (FrameEvent(json, frame) == Ok(None) <==> IsPing(lines) || DataOf(lines) == [] || payload == "[DONE]")
      && (FrameEvent(json, frame) != Ok(None) ==>
            FrameEvent(json, frame) == match json.decode(payload) case Some(e) => Ok(Some(e)) case None => Err(payload))
  {
    var lines := Lines(Trim(frame));
    DataInOrder(Fields(None, []), lines);
    assert [] + DataOf(lines) == DataOf(lines);
    PingIsTheName(lines);
  }

  // ---------------------------------------------------------------- the buffering parser

  type Events = Result<seq<StreamEvent>, string>

  function Found(event: Option<StreamEvent>): (events: seq<StreamEvent>)
  {
    if event.Some? then [event.value] else []
  }

  /** `events` in front of a later outcome; a later error swallows them. */
  function Before(events: seq<StreamEvent>, r: Events): (q: Events)
  {
    match r
    case Ok(more) => Ok(events + more)
    case Err(_) => r
  }

  /** What draining `cuts` in order yields: their events, or the payload of the first bad frame. */
  function CutEvents(json: Json, cuts: seq<Cut>): (r: Events)
  {
    if cuts == [] then Ok([])
    else
      match FrameEvent(json, DecodeLossy(cuts[0].frame))
      case Err(payload) => Err(payload)
      case Ok(event) => Before(Found(event), CutEvents(json, cuts[1..]))
  }

  /** One push on a buffer: the events or the first error, and the bytes left.  On an error the
      failing frame is gone, later frames stay, and the events before it are lost. */
  function PushOutcome(json: Json, buffer: seq<byte>): (r: (Events, seq<byte>))
    decreases |buffer|
  {
    match NextCut(buffer)
    case None => (Ok([]), buffer)
    case Some(cut) =>
      var rest := buffer[cut.Len()..];
      match FrameEvent(json, DecodeLossy(cut.frame))
      case Err(payload) => (Err(payload), rest)
      case Ok(event) => Prepend(Found(event), PushOutcome(json, rest))
  }

  function Prepend(events: seq<StreamEvent>, r: (Events, seq<byte>)): (q: (Events, seq<byte>))
  {
    (Before(events, r.0), r.1)
  }

  lemma PrependTwice(a: seq<StreamEvent>, b: seq<StreamEvent>, r: (Events, seq<byte>))
    ensures Prepend(a, Prepend(b, r)) == Prepend(a + b, r)
  {
    BeforeTwice(a, b, r.0);
  }

  lemma PrependNothing(r: (Events, seq<byte>))
    ensures Prepend([], r) == r
  {
    if r.0.Ok? {
      assert [] + r.0.value == r.0.value;
    }
  }

  class Parser {
    const json: Json
    var buffer: seq<byte>

    constructor (json: Json)
      ensures this.json == json && buffer == []
    {
      this.json := json;
      buffer := [];
    }

    method NextFrame() returns (frame: Option<string>)
      modifies this
      ensures match NextCut(old(buffer))
              case None => frame.None? && buffer == old(buffer)
              case Some(cut) => frame == Some(DecodeLossy(cut.frame)) && buffer == old(buffer)[cut.Len()..]
    {
      match NextCut(buffer)
      case None => frame := None;
      case Some(cut) =>
        frame := Some(DecodeLossy(cut.frame));
        buffer := buffer[cut.Len()..];
    }

    method Push(chunk: seq<byte>) returns (r: Events)
      modifies this
      ensures (r, buffer) == PushOutcome(json, old(buffer) + chunk)
    {
      buffer := buffer + chunk;
      ghost var whole := buffer;
      var events: seq<StreamEvent> := [];
      assert Prepend([], PushOutcome(json, whole)) == PushOutcome(json, whole) by {
        PrependNothing(PushOutcome(json, whole));
      }
      while true
        invariant PushOutcome(json, whole) == Prepend(events, PushOutcome(json, buffer))
        decreases |buffer|
      {
        var frame := NextFrame();
        if frame.None? {
          assert events + [] == events;
          return Ok(events);
        }
        var event := ParseFrame(json, frame.value);
        if event.Err? {
          return Err(event.error);
        }
        PrependTwice(events, Found(event.value), PushOutcome(json, buffer));
        events := events + Found(event.value);
      }
    }

    method Finish() returns (r: Events)
      modifies this
      ensures buffer == []
      ensures r == if old(buffer) == [] then Ok([])
                   else match FrameEvent(json, DecodeLossy(old(buffer)))
                     case Err(payload) => Err(payload)
                     case Ok(event) => Ok(Found(event))
    {
      if buffer == [] {
        return Ok([]);
      }
      var trailing := buffer;
      buffer := [];
      var event := ParseFrame(json, DecodeLossy(trailing));
      match event
      case Err(payload) => r := Err(payload);
      case Ok(found) => r := Ok(Found(found));
    }
  }

  // ---------------------------------------------------------------- chunked input

  /** When every frame parses, a push yields the events of its frames and keeps the bytes after them. */
  lemma {:induction false} PushIsDrain(json: Json, buffer: seq<byte>)
    requires CutEvents(json, Drain(buffer).0).Ok?
    ensures PushOutcome(json, buffer) == (CutEvents(json, Drain(buffer).0), Drain(buffer).1)
    decreases |buffer|
  {
    match NextCut(buffer)
    case None =>
    case Some(cut) =>
      var rest := buffer[cut.Len()..];
      assert Drain(buffer).0[0] == cut && Drain(buffer).0[1..] == Drain(rest).0;
      PushIsDrain(json, rest);
  }

  /** Pushing `chunks` in turn: all the events in order, or the first error, and the bytes left. */
  function PushChunks(json: Json, buffer: seq<byte>, chunks: seq<seq<byte>>): (r: (Events, seq<byte>))
    decreases |chunks|
  {
    if chunks == [] then (Ok([]), buffer)
    else
      var (first, left) := PushOutcome(json, buffer + chunks[0]);
      match first
      case Err(payload) => (Err(payload), left)
      case Ok(events) => Prepend(events, PushChunks(json, left, chunks[1..]))
  }

  lemma BeforeTwice(a: seq<StreamEvent>, b: seq<StreamEvent>, r: Events)
    ensures Before(a, Before(b, r)) == Before(a + b, r)
  {
    if r.Ok? { assert a + (b + r.value) == (a + b) + r.value; }
  }

  lemma {:induction false} CutEventsConcat(json: Json, a: seq<Cut>, b: seq<Cut>)
    ensures CutEvents(json, a + b) ==
            match CutEvents(json, a)
            case Err(payload) => Err(payload)
            case Ok(events) => Before(events, CutEvents(json, b))
  {
    if a == [] {
      assert a + b == b;
      if CutEvents(json, b).Ok? { assert [] + CutEvents(json, b).value == CutEvents(json, b).value; }
    } else {
      assert (a + b)[1..] == a[1..] + b && (a + b)[0] == a[0];
      CutEventsConcat(json, a[1..], b);
      var first := FrameEvent(json, DecodeLossy(a[0].frame));
      var rest := CutEvents(json, a[1..]);
      if first.Ok? && rest.Ok? { BeforeTwice(Found(first.value), rest.value, CutEvents(json, b)); }
    }
  }

  lemma {:induction false} PushChunksIsDrain(json: Json, buffer: seq<byte>, chunks: seq<seq<byte>>)
    requires CutEvents(json, DrainChunks(buffer, chunks).0).Ok?
    ensures PushChunks(json, buffer, chunks)
            == (CutEvents(json, DrainChunks(buffer, chunks).0), DrainChunks(buffer, chunks).1)
    decreases |chunks|
  {
    if chunks != [] {
      var (cuts, rest) := Drain(buffer + chunks[0]);
      var (more, last) := DrainChunks(rest, chunks[1..]);
      CutEventsConcat(json, cuts, more);
      PushIsDrain(json, buffer + chunks[0]);
      PushChunksIsDrain(json, rest, chunks[1..]);
    }
  }

  /** A stream with no CR LF CR LF before an LF LF, whose frames all parse, gives the same events
      and the same leftover however it is chunked. */
  lemma ChunkedEvents(json: Json, chunks: seq<seq<byte>>)
    requires LfFirst(Concat(chunks)) && CutEvents(json, Drain(Concat(chunks)).0).Ok?
    ensures PushChunks(json, [], chunks) == PushOutcome(json, Concat(chunks))
  {
    var bs := Concat(chunks);
    assert [] + bs == bs;
    ChunkingInvariant([], chunks);
    PushChunksIsDrain(json, [], chunks);
    PushIsDrain(json, bs);
  }

  /** Of these frames, number `k` is the first that does not parse, with this payload. */
  predicate FailsAt(json: Json, cuts: seq<Cut>, k: nat, payload: string)
  {
    && k < |cuts|
    && (forall i :: 0 <= i < k ==> FrameEvent(json, DecodeLossy(cuts[i].frame)).Ok?)
    && FrameEvent(json, DecodeLossy(cuts[k].frame)) == Err(payload)
  }

  lemma FailsLater(json: Json, cut: Cut, cuts: seq<Cut>, k: nat, payload: string)
    requires FailsAt(json, cuts, k, payload) && FrameEvent(json, DecodeLossy(cut.frame)).Ok?
    ensures FailsAt(json, [cut] + cuts, k + 1, payload) && ([cut] + cuts)[k + 2..] == cuts[k + 1..]
  {
    var all := [cut] + cuts;
    assert forall i :: 0 <= i < |cuts| ==> all[i + 1] == cuts[i];
    assert forall i :: 1 <= i < |all| ==> all[i] == cuts[i - 1];
  }

  lemma DrainFirst(buffer: seq<byte>)
    requires NextCut(buffer).Some?
    ensures
      var cut := NextCut(buffer).value;
      Drain(buffer) == ([cut] + Drain(buffer[cut.Len()..]).0, Drain(buffer[cut.Len()..]).1)
  {
  }

  /** A frame that parses passes the failure of a later one on. */
  lemma LaterFailure(json: Json, buffer: seq<byte>)
    requires NextCut(buffer).Some? && FrameEvent(json, DecodeLossy(NextCut(buffer).value.frame)).Ok?
    requires PushOutcome(json, buffer).0.Err?
    ensures PushOutcome(json, buffer[NextCut(buffer).value.Len()..]) == PushOutcome(json, buffer)
  {
  }

  /** When a push fails: the frames before the failing one parse, the failing one is gone from the buffer
      and its payload is the error, everything behind it is still there, and no event is returned. */
  lemma {:induction false} FailedPushLeavesRest(json: Json, buffer: seq<byte>) returns (k: nat)
    requires PushOutcome(json, buffer).0.Err?
    ensures FailsAt(json, Drain(buffer).0, k, PushOutcome(json, buffer).0.error)
    ensures PushOutcome(json, buffer).1 == Bytes(Drain(buffer).0[k + 1..]) + Drain(buffer).1
    decreases |buffer|
  {
    var cut := NextCut(buffer).value;
    var after := buffer[cut.Len()..];
    DrainFirst(buffer);
    if FrameEvent(json, DecodeLossy(cut.frame)).Err? {
      k := 0;
      assert ([cut] + Drain(after).0)[1..] == Drain(after).0;
      DrainConserves(after);
    } else {
      LaterFailure(json, buffer);
      var j := FailedPushLeavesRest(json, after);
      FailsLater(json, cut, Drain(after).0, j, PushOutcome(json, after).0.error);
      k := j + 1;
    }
  }
}
