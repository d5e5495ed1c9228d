/** From the printer through any chunking and the parser to the assembled answer. */
module EndToEnd {
  import opened Basics
  import opened Utf8
  import opened Framing
  import opened SseParser
  import opened Printer
  import S = Stream
  import A = Assembler
  import L = AssemblerLaws

  // ---------------------------------------------------------------- one frame

  lemma TrimKeeps(s: string)
    requires s != "" && !IsWhitespace(s[0]) && !IsWhitespace(s[|s| - 1])
    ensures Trim(s) == s
  {
  }

  lemma NoOccurrence(s: string, c: char)
    requires c !in s
    ensures FindFrom(s, [c], 0) == None
  {
    forall i | 0 <= i < |s| ensures !OccursAt(s, [c], i) {
      assert s[i..i + 1][0] == s[i];
    }
  }

  lemma TwoLines(a: string, b: string)
    requires '\n' !in a && '\n' !in b && b != "" && (a != "" ==> a[|a| - 1] != '\r')
    ensures Lines(a + "\n" + b) == [a, b]
  {
    var s := a + "\n" + b;
    assert OccursAt(s, "\n", |a|);
    forall i | 0 <= i < |a| ensures !OccursAt(s, "\n", i) {
      assert s[i] == a[i] && s[i..i + 1][0] == s[i];
    }
    assert FindFrom(s, "\n", 0) == Some(|a|);
    assert s[..|a|] == a && s[|a| + 1..] == b;
    NoOccurrence(b, '\n');
    assert Lines(b) == [b];
  }

  lemma NamePlain(e: S.StreamEvent)
    ensures '\n' !in EventName(e) && '\r' !in EventName(e)
    ensures EventName(e) != "" && EventName(e) != "ping"
    ensures !IsWhitespace(EventName(e)[0]) && !IsWhitespace(EventName(e)[|EventName(e)| - 1])
  {
  }

  lemma EventLineReads(f: Fields, name: string)
    requires name != "" && !IsWhitespace(name[0]) && !IsWhitespace(name[|name| - 1])
    ensures ReadLine(f, "event: " + name) == f.(name := Some(name))
  {
    var line := "event: " + name;
    assert line[..6] == "event:" && line[..1] == "e" && line[6..] == " " + name;
    assert TrimStart(" " + name) == name by { assert (" " + name)[1..] == name; }
    TrimKeeps(name);
  }

  lemma DataLineReads(f: Fields, payload: string)
    requires payload != "" && !IsWhitespace(payload[0])
    ensures ReadLine(f, "data: " + payload) == f.(data := f.data + [payload])
  {
    var line := "data: " + payload;
    assert line[..5] == "data:" && line[..1] == "d" && line[5..] == " " + payload;
    assert TrimStart(" " + payload) == payload by { assert (" " + payload)[1..] == payload; }
    assert |line| >= 6 ==> line[..6][0] == 'd';
  }

  lemma FieldsOfFrame(name: string, payload: string)
    requires '\n' !in name && name != "" && !IsWhitespace(name[0]) && !IsWhitespace(name[|name| - 1])
    requires S.IsObjectLine(payload)
    ensures ReadLines(Fields(None, []), Lines(Trim("event: " + name + "\n" + ("data: " + payload))))
            == Fields(Some(name), [payload])
  {
    var a, b, none := "event: " + name, "data: " + payload, Fields(None, []);
    var s := a + "\n" + b;
    assert s[0] == 'e' && s[|s| - 1] == '}';
    TrimKeeps(s);
    assert a[|a| - 1] == name[|name| - 1];
    TwoLines(a, b);
    EventLineReads(none, name);
    DataLineReads(none.(name := Some(name)), payload);
    assert [a, b][1..] == [b] && [b][1..] == [];
    assert ReadLines(ReadLine(none, a), [b]) == ReadLine(ReadLine(none, a), b);
  }

  /** A two-line frame with a plain name and an object for its data means what the object decodes to. */
  lemma PlainFrameMeans(json: S.Json, name: string, payload: string)
    requires '\n' !in name && name != "" && !IsWhitespace(name[0]) && !IsWhitespace(name[|name| - 1])
    requires name != "ping" && S.IsObjectLine(payload) && json.decode(payload).Some?
    ensures FrameEvent(json, "event: " + name + "\n" + ("data: " + payload)) == Ok(json.decode(payload))
  {
    FieldsOfFrame(name, payload);
    assert Join([payload], "\n") == payload;
    assert payload[0] == '{';
  }

  lemma LawfulAt(json: S.Json, e: S.StreamEvent)
    requires json.Lawful()
    ensures json.decode(json.encode(e)) == Some(e) && S.IsObjectLine(json.encode(e))
  {
  }

  /** Parsing a printed frame gives the event back. */
  lemma FrameRoundTrip(json: S.Json, e: S.StreamEvent)
    requires json.Lawful()
    ensures FrameEvent(json, FrameText(json, e)) == Ok(Some(e))
  {
    NamePlain(e);
    LawfulAt(json, e);
    PlainFrameMeans(json, EventName(e), json.encode(e));
    ConcatAssociative("event: " + EventName(e) + "\n", "data: ", json.encode(e));
  }

  /** What a printed frame tells a reader: the wire name of the event's kind, and the event's object. */
  lemma FrameTellsItsKind(json: S.Json, e: S.StreamEvent)
    requires json.Lawful()
    ensures
      var fields := ReadLines(Fields(None, []), Lines(Trim(FrameText(json, e))));
      && fields.data == [json.encode(e)]
      && fields.name == Some(match e
                             case MessageStart(_) => "message_start"
                             case ContentBlockStart(_, _) => "content_block_start"
                             case ContentBlockDelta(_, _) => "content_block_delta"
                             case ContentBlockStop(_) => "content_block_stop"
                             case MessageDelta(_, _) => "message_delta"
                             case MessageStop => "message_stop")
  {
    NamePlain(e);
    LawfulAt(json, e);
    FieldsOfFrame(EventName(e), json.encode(e));
    ConcatAssociative("event: " + EventName(e) + "\n", "data: ", json.encode(e));
  }

  // ---------------------------------------------------------------- the whole body

  function FrameCut(json: S.Json, e: S.StreamEvent): (cut: Cut)
  {
    Cut(Encode(FrameText(json, e)), Lf)
  }

  function Cuts(json: S.Json, es: seq<S.StreamEvent>): (cuts: seq<Cut>)
  {
    if es == [] then [] else Cuts(json, es[..|es| - 1]) + [FrameCut(json, es[|es| - 1])]
  }

  lemma NoCrMeansLfFirst(s: string)
    requires '\r' !in s
    ensures LfFirst(Encode(s))
  {
    AsciiByteMeansChar(s, '\r');
  }

  /** Two lines without a line feed inside, then LF LF: one cut, and nothing left. */
  lemma DrainOneFrame(a: seq<byte>, b: seq<byte>)
    requires 10 !in a && 10 !in b && b != []
    ensures Drain(a + [10] + b + [10, 10]) == ([Cut(a + [10] + b, Lf)], [])
  {
    var frame := a + [10] + b;
    var bs := frame + [10, 10];
    assert At(bs, Lf, |frame|);
    forall i | 0 <= i < |frame| ensures !At(bs, Lf, i) {
      if i == |a| {
        assert bs[i + 1] == b[0];
      } else {
        assert bs[i] == if i < |a| then a[i] else b[i - |a| - 1];
      }
    }
    assert Find(bs, Lf, 0) == Some(|frame|);
    assert bs[..|frame|] == frame && bs[|frame| + 2..] == [];
    assert Drain([]) == ([], []);
    assert [Cut(frame, Lf)] + [] == [Cut(frame, Lf)];
  }

  lemma DrainPrintedFrame(json: S.Json, e: S.StreamEvent)
    requires json.Lawful()
    ensures Drain(Encode(FrameText(json, e) + "\n\n")) == ([FrameCut(json, e)], [])
  {
    var a, b := "event: " + EventName(e), "data: " + json.encode(e);
    assert S.IsObjectLine(json.encode(e));
    NamePlain(e);
    assert FrameText(json, e) == a + "\n" + b;
    EncodeConcat(a + "\n" + b, "\n\n");
    EncodeConcat(a + "\n", b);
    EncodeConcat(a, "\n");
    assert Encode("\n") == [10] by { assert "\n"[1..] == ""; }
    assert Encode("\n\n") == [10, 10] by { EncodeConcat("\n", "\n"); assert "\n" + "\n" == "\n\n"; }
    AsciiByteMeansChar(a, '\n');
    AsciiByteMeansChar(b, '\n');
    assert Encode(b) != [];
    DrainOneFrame(Encode(a), Encode(b));
  }

  lemma {:induction false} PrintedHasNoCr(json: S.Json, es: seq<S.StreamEvent>)
    requires json.Lawful()
    ensures '\r' !in Print(json, es)
  {
    if es != [] {
      var e := es[|es| - 1];
      PrintedHasNoCr(json, es[..|es| - 1]);
      assert S.IsObjectLine(json.encode(e));
      NamePlain(e);
    }
  }

  /** A printed body drains, in one push, into the frames of its events with nothing left over. */
  lemma {:induction false} DrainPrinted(json: S.Json, es: seq<S.StreamEvent>)
    requires json.Lawful()
    ensures Drain(Encode(Print(json, es))) == (Cuts(json, es), [])
  {
    if es != [] {
      var init, e := es[..|es| - 1], es[|es| - 1];
      var head, tail := Print(json, init), FrameText(json, e) + "\n\n";
      DrainPrinted(json, init);
      PrintedHasNoCr(json, es);
      assert Print(json, es) == head + tail;
      NoCrMeansLfFirst(head + tail);
      EncodeConcat(head, tail);
      DrainSplit(Encode(head), Encode(tail));
      assert [] + Encode(tail) == Encode(tail);
      DrainPrintedFrame(json, e);
    }
  }

  lemma EventsOfOneCut(json: S.Json, e: S.StreamEvent)
    requires json.Lawful()
    ensures CutEvents(json, [FrameCut(json, e)]) == Ok([e])
  {
    DecodeOfEncode(FrameText(json, e));
    FrameRoundTrip(json, e);
    assert [FrameCut(json, e)][1..] == [];
    assert [e] + [] == [e];
  }

  lemma EventsAppend(json: S.Json, cuts: seq<Cut>, cut: Cut, events: seq<S.StreamEvent>, e: S.StreamEvent)
    requires CutEvents(json, cuts) == Ok(events) && CutEvents(json, [cut]) == Ok([e])
    ensures CutEvents(json, cuts + [cut]) == Ok(events + [e])
  {
    CutEventsConcat(json, cuts, [cut]);
  }

  lemma {:induction false} EventsOfCuts(json: S.Json, es: seq<S.StreamEvent>)
    requires json.Lawful()
    ensures CutEvents(json, Cuts(json, es)) == Ok(es)
  {
    if es != [] {
      var init, e := es[..|es| - 1], es[|es| - 1];
      EventsOfCuts(json, init);
      EventsOfOneCut(json, e);
      EventsAppend(json, Cuts(json, init), FrameCut(json, e), init, e);
      assert init + [e] == es;
    }
  }

  /** Printer and parser: any printed list of events, cut into any chunks, is parsed back exactly,
      and the buffer ends empty. */
  lemma PrintParse(json: S.Json, es: seq<S.StreamEvent>, chunks: seq<seq<byte>>)
    requires json.Lawful() && Concat(chunks) == Encode(Print(json, es))
    ensures PushChunks(json, [], chunks) == (Ok(es), [])
  {
    PrintedHasNoCr(json, es);
    NoCrMeansLfFirst(Print(json, es));
    DrainPrinted(json, es);
    EventsOfCuts(json, es);
    ChunkedEvents(json, chunks);
    PushIsDrain(json, Concat(chunks));
  }

  // ---------------------------------------------------------------- the assembled answer

  function Flat(chunks: seq<string>): (s: string)
  {
    if chunks == [] then "" else Flat(chunks[..|chunks| - 1]) + chunks[|chunks| - 1]
  }

  function Call(tool: ToolUseSse): (e: A.AssistantEvent)
  {
    A.ToolUse(tool.toolId, tool.toolName, Flat(tool.partialJsonChunks))
  }

  function Calls(tools: seq<ToolUseSse>): (es: seq<A.AssistantEvent>)
  {
    if tools == [] then [] else Calls(tools[..|tools| - 1]) + [Call(tools[|tools| - 1])]
  }

  function OneTool(events: seq<A.AssistantEvent>, i: S.u32, tool: A.Tool): (st: A.Indexed)
  {
    A.Indexed(events, map[i := tool], map[], false)
  }

  lemma {:induction false} GatherDeltas(events: seq<A.AssistantEvent>, i: S.u32, tool: A.Tool, chunks: seq<string>)
    ensures A.Steps(OneTool(events, i, tool), Deltas(i, chunks))
            == OneTool(events, i, tool.(input := tool.input + Flat(chunks)))
  {
    if chunks == [] {
      assert tool.input + "" == tool.input;
    } else {
      var init, last := chunks[..|chunks| - 1], chunks[|chunks| - 1];
      GatherDeltas(events, i, tool, init);
      L.StepsConcat(OneTool(events, i, tool), Deltas(i, init), [S.ContentBlockDelta(i, S.InputJsonDelta(last))]);
      assert [S.ContentBlockDelta(i, S.InputJsonDelta(last))][1..] == [];
      var gathered := tool.(input := tool.input + Flat(init));
      assert map[i := gathered][i := gathered.(input := gathered.input + last)]
             == map[i := gathered.(input := gathered.input + last)];
      ConcatAssociative(tool.input, Flat(init), last);
    }
  }

  lemma BlockYieldsCall(events: seq<A.AssistantEvent>, i: S.u32, tool: ToolUseSse)
    ensures A.Steps(A.Indexed(events, map[], map[], false), ToolBlock(i, tool))
            == A.Indexed(events + [Call(tool)], map[], map[], false)
  {
    var st := A.Indexed(events, map[], map[], false);
    var start, stop := S.ContentBlockStart(i, S.ToolUse(tool.toolId, tool.toolName, S.EmptyObject)),
                       S.ContentBlockStop(i);
    var deltas := Deltas(i, tool.partialJsonChunks);
    L.StepsConcat(st, [start] + deltas, [stop]);
    L.StepsConcat(st, [start], deltas);
    assert [start][1..] == [] && [stop][1..] == [];
    var pending := A.Tool(tool.toolId, tool.toolName, "");
    assert A.Step(st, start) == OneTool(events, i, pending);
    GatherDeltas(events, i, pending, tool.partialJsonChunks);
    assert "" + Flat(tool.partialJsonChunks) == Flat(tool.partialJsonChunks);
    var full := OneTool(events, i, pending.(input := Flat(tool.partialJsonChunks)));
    assert full.tools - {i} == map[] && full.thoughts - {i} == map[];
    assert events + [] + [Call(tool)] == events + [Call(tool)];
  }

  lemma {:induction false} BlocksYieldCalls(tools: seq<ToolUseSse>)
    requires |tools| <= 0x1_0000_0000
    ensures A.Steps(A.EMPTY, ToolBlocks(tools)) == A.Indexed(Calls(tools), map[], map[], false)
  {
    if tools != [] {
      var init := tools[..|tools| - 1];
      BlocksYieldCalls(init);
      L.StepsConcat(A.EMPTY, ToolBlocks(init), ToolBlock(|tools| - 1, tools[|tools| - 1]));
      BlockYieldsCall(Calls(init), |tools| - 1, tools[|tools| - 1]);
    }
  }

  function Answer(tools: seq<ToolUseSse>): (es: seq<A.AssistantEvent>)
  {
    Calls(tools) + [A.Usage(S.Usage(12, 0, 0, 4)), A.MessageStop]
  }

  lemma CollectTools(tools: seq<ToolUseSse>)
    requires |tools| <= 0x1_0000_0000
    ensures A.Collect(ToolEvents(tools)) == Answer(tools)
  {
    var opening := [Opening(tools)];
    L.StepsConcat(A.EMPTY, opening + ToolBlocks(tools), CLOSING);
    L.StepsConcat(A.EMPTY, opening, ToolBlocks(tools));
    assert opening[1..] == [];
    BlocksYieldCalls(tools);
    var done := A.Indexed(Calls(tools), map[], map[], false);
    assert CLOSING[1..] == [S.MessageStop] && [S.MessageStop][1..] == [];
    var used := A.Step(done, CLOSING[0]);
    assert A.Steps(used, [S.MessageStop]) == A.Step(used, S.MessageStop);
    ConcatAssociative(Calls(tools), [A.Usage(UsageOf(12, 4))], [A.MessageStop]);
  }

  // ---------------------------------------------------------------- the single-slot assembler

  function OpenAfter(open: Option<S.u32>, es: seq<S.StreamEvent>): (r: Option<S.u32>)
    decreases |es|
  {
    if es == [] then open else OpenAfter(L.NextOpen(open, es[0]), es[1..])
  }

  lemma OpenAfterOne(open: Option<S.u32>, e: S.StreamEvent)
    ensures OpenAfter(open, [e]) == L.NextOpen(open, e)
    ensures L.OneToolAtATime(open, [e]) == L.FitsOpen(open, e)
  {
    assert [e][1..] == [];
    assert OpenAfter(L.NextOpen(open, e), []) == L.NextOpen(open, e);
  }

  lemma {:induction false} OneAtATimeConcat(open: Option<S.u32>, a: seq<S.StreamEvent>, b: seq<S.StreamEvent>)
    requires L.OneToolAtATime(open, a) && L.OneToolAtATime(OpenAfter(open, a), b)
    ensures L.OneToolAtATime(open, a + b) && OpenAfter(open, a + b) == OpenAfter(OpenAfter(open, a), b)
    decreases |a|
  {
    if a == [] {
      assert a + b == b;
    } else {
      assert (a + b)[1..] == a[1..] + b;
      OneAtATimeConcat(L.NextOpen(open, a[0]), a[1..], b);
    }
  }

  lemma {:induction false} DeltasStayOpen(i: S.u32, chunks: seq<string>)
    ensures L.OneToolAtATime(Some(i), Deltas(i, chunks)) && OpenAfter(Some(i), Deltas(i, chunks)) == Some(i)
  {
    if chunks != [] {
      var last := [S.ContentBlockDelta(i, S.InputJsonDelta(chunks[|chunks| - 1]))];
      DeltasStayOpen(i, chunks[..|chunks| - 1]);
      assert last[1..] == [];
      OneAtATimeConcat(Some(i), Deltas(i, chunks[..|chunks| - 1]), last);
    }
  }

  lemma BlockOpensAndCloses(i: S.u32, tool: ToolUseSse)
    ensures L.OneToolAtATime(None, ToolBlock(i, tool)) && OpenAfter(None, ToolBlock(i, tool)) == None
  {
    var start, stop := S.ContentBlockStart(i, S.ToolUse(tool.toolId, tool.toolName, S.EmptyObject)),
                       S.ContentBlockStop(i);
    var deltas := Deltas(i, tool.partialJsonChunks);
    DeltasStayOpen(i, tool.partialJsonChunks);
    OpenAfterOne(None, start);
    OpenAfterOne(Some(i), stop);
    OneAtATimeConcat(None, [start], deltas);
    OneAtATimeConcat(None, [start] + deltas, [stop]);
  }

  lemma {:induction false} BlocksOneAtATime(tools: seq<ToolUseSse>)
    requires |tools| <= 0x1_0000_0000
    ensures L.OneToolAtATime(None, ToolBlocks(tools)) && OpenAfter(None, ToolBlocks(tools)) == None
  {
    if tools != [] {
      BlocksOneAtATime(tools[..|tools| - 1]);
      BlockOpensAndCloses(|tools| - 1, tools[|tools| - 1]);
      OneAtATimeConcat(None, ToolBlocks(tools[..|tools| - 1]), ToolBlock(|tools| - 1, tools[|tools| - 1]));
    }
  }

  lemma {:induction false} CallsAreVisible(tools: seq<ToolUseSse>)
    ensures L.Visible(Answer(tools)) == Answer(tools)
    ensures L.Visible(Calls(tools)) == Calls(tools)
  {
    if tools != [] {
      CallsAreVisible(tools[..|tools| - 1]);
      assert Calls(tools)[..|Calls(tools)| - 1] == Calls(tools[..|tools| - 1]);
    }
    var last := [A.Usage(UsageOf(12, 4))] + [A.MessageStop];
    L.VisibleConcat(Calls(tools), last);
    L.VisibleConcat([A.Usage(UsageOf(12, 4))], [A.MessageStop]);
    L.VisibleOne(A.Usage(UsageOf(12, 4)));
    L.VisibleOne(A.MessageStop);
    assert last == [A.Usage(UsageOf(12, 4)), A.MessageStop];
  }

  lemma ConsumeTools(tools: seq<ToolUseSse>)
    requires |tools| <= 0x1_0000_0000
    ensures A.Consume(ToolEvents(tools)) == Answer(tools)
  {
    var opening := [Opening(tools)];
    assert opening[1..] == [] && CLOSING[1..] == [S.MessageStop] && [S.MessageStop][1..] == [];
    assert L.OneToolAtATime(None, opening) && OpenAfter(None, opening) == None;
    assert L.OneToolAtATime(None, CLOSING) by { assert L.OneToolAtATime(None, [S.MessageStop]); }
    BlocksOneAtATime(tools);
    OneAtATimeConcat(None, opening, ToolBlocks(tools));
    OneAtATimeConcat(None, opening + ToolBlocks(tools), CLOSING);
    assert ToolEvents(tools)[|ToolEvents(tools)| - 1] == S.MessageStop;
    L.AssemblersAgree(ToolEvents(tools));
    CollectTools(tools);
    CallsAreVisible(tools);
  }

  /** The end-to-end law: any list of tool uses with any fragments, printed, cut into any chunks,
      parsed and assembled by either assembler, yields exactly the calls with their fragments joined,
      in order, then the usage, then the stop; no bytes are left over. */
  lemma ToolsSurviveTheWire(json: S.Json, tools: seq<ToolUseSse>, chunks: seq<seq<byte>>)
    requires json.Lawful() && |tools| <= 0x1_0000_0000
    requires Concat(chunks) == Encode(Print(json, ToolEvents(tools)))
    ensures PushChunks(json, [], chunks) == (Ok(ToolEvents(tools)), [])
    ensures
      var id := if tools == [] then "msg_tool_use" else "msg_" + tools[0].toolId;
      var opening := S.Message(id, "assistant", "claude-sonnet-4-6", [], S.Usage(12, 0, 0, 0));
      ToolEvents(tools)[0] == S.MessageStart(opening)
    ensures A.Collect(ToolEvents(tools)) == Answer(tools) == A.Consume(ToolEvents(tools))
  {
    PrintParse(json, ToolEvents(tools), chunks);
    CollectTools(tools);
    ConsumeTools(tools);
  }
}
