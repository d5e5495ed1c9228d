/** Laws of the assemblers: the refinement between them, and independence from block interleaving. */
module AssemblerLaws {
  import opened Basics
  import opened Assembler
  import S = Stream

  // ---------------------------------------------------------------- refinement

  /** The events without the thoughts, which the single-slot assembler never reports. */
  function Visible(events: seq<AssistantEvent>): (r: seq<AssistantEvent>)
  {
    if events == [] then []
    else
      var last := events[|events| - 1];
      Visible(events[..|events| - 1]) + (if last.Thinking? then [] else [last])
  }

  lemma {:induction false} VisibleConcat(a: seq<AssistantEvent>, b: seq<AssistantEvent>)
    ensures Visible(a + b) == Visible(a) + Visible(b)
  {
    if b == [] {
      assert a + b == a;
    } else {
      var n := |b| - 1;
      assert (a + b)[..|a + b| - 1] == a + b[..n];
      VisibleConcat(a, b[..n]);
    }
  }

  lemma {:induction false} VisibleKeepsContent(events: seq<AssistantEvent>)
    ensures HasContent(Visible(events)) == HasContent(events)
  {
    if events != [] {
      var n := |events| - 1;
      VisibleKeepsContent(events[..n]);
      ContentConcat(events[..n], [events[n]]);
      assert events == events[..n] + [events[n]];
      ContentConcat(Visible(events[..n]), if events[n].Thinking? then [] else [events[n]]);
    }
  }

  lemma ContentConcat(a: seq<AssistantEvent>, b: seq<AssistantEvent>)
    ensures HasContent(a + b) == (HasContent(a) || HasContent(b))
  {
    if HasContent(b) {
      var i :| 0 <= i < |b| && ((b[i].TextDelta? && b[i].text != "") || b[i].ToolUse?);
      assert (a + b)[|a| + i] == b[i];
    }
    if HasContent(a) {
      var i :| 0 <= i < |a| && ((a[i].TextDelta? && a[i].text != "") || a[i].ToolUse?);
      assert (a + b)[i] == a[i];
    }
  }

  predicate IsToolStart(e: S.StreamEvent)
  {
    e.ContentBlockStart? && e.block.ToolUse?
  }

  /** The tool block open after `e`, given the one open before. */
  function NextOpen(open: Option<S.u32>, e: S.StreamEvent): (r: Option<S.u32>)
  {
    if IsToolStart(e) then Some(e.index) else if e.ContentBlockStop? then None else open
  }

  /** While a tool block is open, tool starts, JSON deltas and stops are for that block;
      `message_start` carries no content. */
  predicate FitsOpen(open: Option<S.u32>, e: S.StreamEvent)
  {
    && (e.MessageStart? ==> e.message.content == [])
    && (open.Some? && (IsToolStart(e) || e.ContentBlockStop? || (e.ContentBlockDelta? && e.delta.InputJsonDelta?))
        ==> e.index == open.value)
  }

  predicate OneToolAtATime(open: Option<S.u32>, es: seq<S.StreamEvent>)
    decreases |es|
  {
    es == [] || (FitsOpen(open, es[0]) && OneToolAtATime(NextOpen(open, es[0]), es[1..]))
  }

  /** The indexed state shows what the single slot holds. */
  predicate Refines(ix: Indexed, sl: Slot, open: Option<S.u32>)
  {
    && Visible(ix.events) == sl.events && ix.sawStop == sl.sawStop
    && match open
       case None => ix.tools == map[] && sl.tool == None
       case Some(i) => sl.tool.Some? && ix.tools == map[i := sl.tool.value]
  }

  lemma VisibleOne(e: AssistantEvent)
    ensures Visible([e]) == if e.Thinking? then [] else [e]
  {
    assert [e][..0] == [];
  }

  lemma SpokenRefines(ix: Indexed, sl: Slot, open: Option<S.u32>, text: string)
    requires Refines(ix, sl, open)
    ensures Refines(ix.(events := ix.events + Spoken(text)), sl.(events := sl.events + Spoken(text)), open)
  {
    VisibleConcat(ix.events, Spoken(text));
    VisibleOne(TextDelta(text));
  }

  lemma VisibleAtMostOne(es: seq<AssistantEvent>)
    requires |es| <= 1
    ensures Visible(es) == if es != [] && es[0].Thinking? then [] else es
  {
    if es != [] {
      assert es == [es[0]];
      VisibleOne(es[0]);
    }
  }

  lemma {:induction false} VisibleStop(events: seq<AssistantEvent>, thought: seq<AssistantEvent>,
                                       tool: seq<AssistantEvent>)
    requires Visible(thought) == [] && Visible(tool) == tool
    ensures Visible(events + thought + tool) == Visible(events) + tool
  {
    VisibleConcat(events + thought, tool);
    VisibleConcat(events, thought);
    assert Visible(events) + [] == Visible(events);
  }

  /** The events a stop appends: the thought and the tool pending for the block. */
  lemma StopAppends(ix: Indexed, i: S.u32)
    ensures Visible(StopBlock(ix, i).events) ==
            Visible(ix.events)
            + if i in ix.tools then [ToolUse(ix.tools[i].id, ix.tools[i].name, ix.tools[i].input)] else []
  {
    var thought := if i in ix.thoughts then [Thinking(ix.thoughts[i].text, ix.thoughts[i].signature)] else [];
    var tool := if i in ix.tools then [ToolUse(ix.tools[i].id, ix.tools[i].name, ix.tools[i].input)] else [];
    VisibleAtMostOne(thought);
    VisibleAtMostOne(tool);
    VisibleStop(ix.events, thought, tool);
  }

  lemma StopRefines(ix: Indexed, sl: Slot, open: Option<S.u32>, i: S.u32)
    requires Refines(ix, sl, open) && (open.Some? ==> open.value == i)
    ensures Refines(StopBlock(ix, i), SlotStep(sl, S.ContentBlockStop(i)), None)
  {
    StopAppends(ix, i);
    assert StopBlock(ix, i).tools == map[];
    assert Visible(ix.events) + [] == Visible(ix.events);
  }

  lemma StepRefines(ix: Indexed, sl: Slot, open: Option<S.u32>, e: S.StreamEvent)
    requires Refines(ix, sl, open) && FitsOpen(open, e)
    ensures Refines(Step(ix, e), SlotStep(sl, e), NextOpen(open, e))
  {
    match e
    case ContentBlockStart(_, Text(text)) => SpokenRefines(ix, sl, open, text);
    case ContentBlockDelta(_, TextDelta(text)) => SpokenRefines(ix, sl, open, text);
    case ContentBlockStop(i) => StopRefines(ix, sl, open, i);
    case MessageDelta(_, usage) => VisibleAppend(ix.events, Usage(usage));
    case MessageStop => VisibleAppend(ix.events, MessageStop);
    case _ => QuietRefines(ix, sl, open, e);
  }

  lemma VisibleAppend(events: seq<AssistantEvent>, e: AssistantEvent)
    requires !e.Thinking?
    ensures Visible(events + [e]) == Visible(events) + [e]
  {
    VisibleConcat(events, [e]);
    VisibleOne(e);
  }

  /** Events that report nothing at once. */
  lemma QuietRefines(ix: Indexed, sl: Slot, open: Option<S.u32>, e: S.StreamEvent)
    requires Refines(ix, sl, open) && FitsOpen(open, e)
    requires || e.MessageStart? || (e.ContentBlockStart? && !e.block.Text?)
             || (e.ContentBlockDelta? && !e.delta.TextDelta?)
    ensures Refines(Step(ix, e), SlotStep(sl, e), NextOpen(open, e))
  {
  }

  lemma {:induction false} StepsRefine(ix: Indexed, sl: Slot, open: Option<S.u32>, es: seq<S.StreamEvent>)
    requires Refines(ix, sl, open) && OneToolAtATime(open, es)
    ensures exists last :: Refines(Steps(ix, es), SlotSteps(sl, es), last)
    decreases |es|
  {
    if es == [] {
      assert Refines(Steps(ix, es), SlotSteps(sl, es), open);
    } else {
      StepRefines(ix, sl, open, es[0]);
      StepsRefine(Step(ix, es[0]), SlotStep(sl, es[0]), NextOpen(open, es[0]), es[1..]);
      var last :| Refines(Steps(Step(ix, es[0]), es[1..]), SlotSteps(SlotStep(sl, es[0]), es[1..]), last);
      assert Refines(Steps(ix, es), SlotSteps(sl, es), last);
    }
  }

  lemma {:induction false} SawStopIff(st: Slot, es: seq<S.StreamEvent>)
    ensures SlotSteps(st, es).sawStop == (st.sawStop || S.MessageStop in es)
    decreases |es|
  {
    if es != [] {
      SawStopIff(SlotStep(st, es[0]), es[1..]);
    }
  }

  /** What the two assemblers append at the end, given that they agree so far. */
  lemma EndingsAgree(ix: Indexed, sl: Slot)
    requires Visible(ix.events) == sl.events && ix.sawStop == sl.sawStop
    ensures
      var kernel, client := Visible(Close(ix)), if sl.sawStop then sl.events else sl.events + [MessageStop];
      && (kernel == client <==> sl.sawStop || HasContent(client))
      && (!(sl.sawStop || HasContent(client)) ==> kernel + [MessageStop] == client)
  {
    VisibleKeepsContent(ix.events);
    StopIsNoContent(sl.events);
    if sl.sawStop {
      assert Close(ix) == ix.events;
    } else if HasContent(ix.events) {
      VisibleConcat(ix.events, [MessageStop]);
      VisibleOne(MessageStop);
    } else {
      assert |sl.events| < |sl.events + [MessageStop]|;
    }
  }

  lemma StopIsNoContent(events: seq<AssistantEvent>)
    ensures HasContent(events + [MessageStop]) <==> HasContent(events)
  {
    ContentConcat(events, [MessageStop]);
    assert !HasContent([MessageStop]);
  }

  /** On streams that open one tool at a time, the kernel's result without thoughts is the
      evaluation client's result, exactly when the stream has a `message_stop` or yields text or a
      tool; otherwise the client alone adds a final stop. */
  lemma AssemblersAgree(es: seq<S.StreamEvent>)
    requires OneToolAtATime(None, es)
    ensures Visible(Collect(es)) == Consume(es) <==> S.MessageStop in es || HasContent(Consume(es))
    ensures !(S.MessageStop in es || HasContent(Consume(es))) ==> Visible(Collect(es)) + [MessageStop] == Consume(es)
  {
    var sl0 := Slot([], None, false);
    StepsRefine(EMPTY, sl0, None, es);
    SawStopIff(sl0, es);
    EndingsAgree(Steps(EMPTY, es), SlotSteps(sl0, es));
  }

  /** Two tool blocks that overlap: the first is stopped while the second is open. */
  function Overlap(a: string, b: string): (es: seq<S.StreamEvent>)
  {
    [S.ContentBlockStart(0, S.ToolUse(a, "t", S.EmptyObject)), S.ContentBlockStart(1, S.ToolUse(b, "t", S.EmptyObject)),
     S.ContentBlockStop(0)]
  }

  lemma CollectOverlap(a: string, b: string)
    ensures Steps(EMPTY, Overlap(a, b)).events == [ToolUse(a, "t", "")] && !Steps(EMPTY, Overlap(a, b)).sawStop
  {
    var es := Overlap(a, b);
    var opening := Step(Step(EMPTY, es[0]), es[1]);
    assert es == es[..2] + [es[2]] && es[..2] == [es[0]] + [es[1]];
    StepsConcat(EMPTY, es[..2], [es[2]]);
    StepsConcat(EMPTY, [es[0]], [es[1]]);
    assert Steps(EMPTY, es) == Step(opening, es[2]);
  }

  lemma ConsumeOverlap(a: string, b: string)
    ensures Consume(Overlap(a, b)) == [ToolUse(b, "t", ""), MessageStop]
  {
    var es := Overlap(a, b);
    assert es[1..] == [es[1], es[2]] && es[1..][1..] == [es[2]] && es[1..][1..][1..] == [];
    var first := SlotStep(Slot([], None, false), es[0]);
    var second := SlotStep(first, es[1]);
    var third := SlotStep(second, es[2]);
    assert SlotSteps(second, es[1..][1..]) == third;
    assert SlotSteps(first, es[1..]) == third;
  }

  /** The restriction matters: with two tool blocks open at once the client reports the wrong tool. */
  lemma OverlapDiffers(a: string, b: string)
    requires a != b
    ensures Visible(Collect(Overlap(a, b))) != Consume(Overlap(a, b))
  {
    CollectOverlap(a, b);
    ConsumeOverlap(a, b);
    var events := Collect(Overlap(a, b));
    VisibleConcat([ToolUse(a, "t", "")], [MessageStop]);
    VisibleOne(ToolUse(a, "t", ""));
    VisibleOne(MessageStop);
    assert events[0] == ToolUse(a, "t", "");
    assert Visible(events)[0] == ToolUse(a, "t", "");
  }

  // ---------------------------------------------------------------- interleaving

  /** What is pending for one block index. */
  datatype Cell = Cell(tool: Option<Tool>, thought: Option<Thought>)

  function Get<T>(m: map<S.u32, T>, i: S.u32): (v: Option<T>)
  {
    if i in m then Some(m[i]) else None
  }

  function Put<T>(m: map<S.u32, T>, i: S.u32, v: Option<T>): (r: map<S.u32, T>)
  {
    if v.Some? then m[i := v.value] else m - {i}
  }

  function CellAt(st: Indexed, i: S.u32): (c: Cell)
  {
    Cell(Get(st.tools, i), Get(st.thoughts, i))
  }

  function SetCell(st: Indexed, i: S.u32, c: Cell): (r: Indexed)
  {
    st.(tools := Put(st.tools, i, c.tool), thoughts := Put(st.thoughts, i, c.thought))
  }

  /** The block index whose pending state `e` reads or writes. */
  function Touched(e: S.StreamEvent): (r: Option<S.u32>)
  {
    match e
    case MessageStart(_) => Some(0)
    case ContentBlockStart(i, ToolUse(_, _, _)) => Some(i)
    case ContentBlockStart(i, Thinking(_, _)) => Some(i)
    case ContentBlockDelta(i, InputJsonDelta(_)) => Some(i)
    case ContentBlockDelta(i, ThinkingDelta(_)) => Some(i)
    case ContentBlockDelta(i, SignatureDelta(_)) => Some(i)
    case ContentBlockStop(i) => Some(i)
    case _ => None
  }

  /** Events that may append to the result: text, stops, usage and message events. */
  predicate Loud(e: S.StreamEvent)
  {
    match e
    case ContentBlockStart(_, block) => block.Text?
    case ContentBlockDelta(_, delta) => delta.TextDelta?
    case _ => true
  }

  /** What a quiet event does to the cell it touches. */
  function QuietCell(c: Cell, e: S.StreamEvent): (r: Cell)
  {
    match e
    case ContentBlockStart(_, ToolUse(id, name, input)) => c.(tool := Some(Tool(id, name, InitialInput(input))))
    case ContentBlockStart(_, Thinking(text, signature)) => c.(thought := Some(Thought(text, signature)))
    case ContentBlockDelta(_, InputJsonDelta(json)) =>
      if c.tool.None? then c else c.(tool := Some(c.tool.value.(input := c.tool.value.input + json)))
    case ContentBlockDelta(_, ThinkingDelta(text)) =>
      if c.thought.None? then c else c.(thought := Some(c.thought.value.(text := c.thought.value.text + text)))
    case ContentBlockDelta(_, SignatureDelta(signature)) =>
      if c.thought.None? then c
      else
        var signed := if c.thought.value.signature.Some? then c.thought.value.signature.value else "";
        c.(thought := Some(c.thought.value.(signature := Some(signed + signature))))
    case _ => c
  }

  lemma SetCellSame(st: Indexed, i: S.u32)
    ensures SetCell(st, i, CellAt(st, i)) == st
  {
  }

  lemma QuietStep(st: Indexed, e: S.StreamEvent)
    requires !Loud(e)
    ensures Step(st, e) == if Touched(e).None? then st
                           else SetCell(st, Touched(e).value, QuietCell(CellAt(st, Touched(e).value), e))
  {
    if Touched(e).Some? { SetCellSame(st, Touched(e).value); }
  }

  lemma {:induction false} BlocksFrame(st: Indexed, blocks: seq<S.Block>, i: S.u32, c: Cell)
    requires i != 0
    ensures PushBlocks(SetCell(st, i, c), blocks) == SetCell(PushBlocks(st, blocks), i, c)
    ensures CellAt(PushBlocks(st, blocks), i) == CellAt(st, i)
    decreases |blocks|
  {
    if blocks != [] {
      BlockFrame(st, blocks[0], 0, i, c);
      BlocksFrame(PushBlock(st, blocks[0], 0), blocks[1..], i, c);
    }
  }

  lemma BlockFrame(st: Indexed, block: S.Block, j: S.u32, i: S.u32, c: Cell)
    requires i != j
    ensures PushBlock(SetCell(st, i, c), block, j) == SetCell(PushBlock(st, block, j), i, c)
    ensures CellAt(PushBlock(st, block, j), i) == CellAt(st, i)
  {
  }

  lemma PutOther<T>(m: map<S.u32, T>, i: S.u32, v: Option<T>, j: S.u32, w: T)
    requires i != j
    ensures Put(m, i, v)[j := w] == Put(m[j := w], i, v)
    ensures Get(Put(m, i, v), j) == Get(m, j) && Get(m[j := w], i) == Get(m, i)
  {
  }

  lemma DeltaFrame(st: Indexed, delta: S.Delta, j: S.u32, i: S.u32, c: Cell)
    requires i != j
    ensures PushDelta(SetCell(st, i, c), j, delta) == SetCell(PushDelta(st, j, delta), i, c)
    ensures CellAt(PushDelta(st, j, delta), i) == CellAt(st, i)
  {
    var r := PushDelta(st, j, delta);
    match delta
    case TextDelta(_) =>
    case InputJsonDelta(_) =>
      if j in st.tools { PutOther(st.tools, i, c.tool, j, r.tools[j]); }
    case ThinkingDelta(_) =>
      if j in st.thoughts { PutOther(st.thoughts, i, c.thought, j, r.thoughts[j]); }
    case SignatureDelta(_) =>
      if j in st.thoughts { PutOther(st.thoughts, i, c.thought, j, r.thoughts[j]); }
  }

  lemma StopFrame(st: Indexed, j: S.u32, i: S.u32, c: Cell)
    requires i != j
    ensures StopBlock(SetCell(st, i, c), j) == SetCell(StopBlock(st, j), i, c)
    ensures CellAt(StopBlock(st, j), i) == CellAt(st, i)
  {
    var x := SetCell(st, i, c);
    assert j in x.tools <==> j in st.tools;
    assert j in x.thoughts <==> j in st.thoughts;
    assert x.tools - {j} == Put(st.tools - {j}, i, c.tool);
    assert x.thoughts - {j} == Put(st.thoughts - {j}, i, c.thought);
  }

  /** An event that does not touch block `i` neither reads nor writes its cell. */
  lemma StepFrame(st: Indexed, e: S.StreamEvent, i: S.u32, c: Cell)
    requires Touched(e) != Some(i)
    ensures Step(SetCell(st, i, c), e) == SetCell(Step(st, e), i, c)
    ensures CellAt(Step(st, e), i) == CellAt(st, i)
  {
    match e
    case MessageStart(message) => BlocksFrame(st, message.content, i, c);
    case ContentBlockStart(j, block) => if i != j { BlockFrame(st, block, j, i, c); }
    case ContentBlockDelta(j, delta) => if i != j { DeltaFrame(st, delta, j, i, c); }
    case ContentBlockStop(j) => StopFrame(st, j, i, c);
    case _ =>
  }

  /** The orders an event takes part in: the order of loud events, and the order of its block. */
  datatype Lane = LoudLane | BlockLane(i: S.u32)

  predicate InLane(e: S.StreamEvent, lane: Lane)
  {
    match lane
    case LoudLane => Loud(e)
    case BlockLane(i) => Touched(e) == Some(i)
  }

  function Project(es: seq<S.StreamEvent>, lane: Lane): (r: seq<S.StreamEvent>)
  {
    if es == [] then [] else (if InLane(es[0], lane) then [es[0]] else []) + Project(es[1..], lane)
  }

  ghost predicate Independent(a: S.StreamEvent, b: S.StreamEvent)
  {
    forall lane :: !(InLane(a, lane) && InLane(b, lane))
  }

  lemma QuietCommutes(st: Indexed, a: S.StreamEvent, b: S.StreamEvent)
    requires !Loud(a) && (Touched(a).None? || Touched(a) != Touched(b))
    ensures Step(Step(st, a), b) == Step(Step(st, b), a)
  {
    QuietStep(st, a);
    QuietStep(Step(st, b), a);
    if Touched(a).Some? {
      var i := Touched(a).value;
      StepFrame(st, b, i, QuietCell(CellAt(st, i), a));
    }
  }

  /** Independent events commute. */
  lemma Commutes(st: Indexed, a: S.StreamEvent, b: S.StreamEvent)
    requires Independent(a, b)
    ensures Step(Step(st, a), b) == Step(Step(st, b), a)
  {
    assert !(InLane(a, LoudLane) && InLane(b, LoudLane));
    if Touched(a).Some? {
      assert !(InLane(a, BlockLane(Touched(a).value)) && InLane(b, BlockLane(Touched(a).value)));
    }
    if Loud(a) { QuietCommutes(st, b, a); } else { QuietCommutes(st, a, b); }
  }

  /** An event independent of everything before it may be taken first. */
  lemma {:induction false} TakeFirst(st: Indexed, before: seq<S.StreamEvent>, a: S.StreamEvent,
                                     after: seq<S.StreamEvent>)
    requires forall i :: 0 <= i < |before| ==> Independent(before[i], a)
    ensures Steps(st, before + [a] + after) == Steps(Step(st, a), before + after)
    decreases |before|
  {
    if before == [] {
      assert before + [a] + after == [a] + after && before + after == after;
      assert ([a] + after)[1..] == after;
    } else {
      var x, rest := before[0], before[1..];
      assert (before + [a] + after)[1..] == rest + [a] + after;
      assert (before + after)[1..] == rest + after;
      TakeFirst(Step(st, x), rest, a, after);
      Commutes(st, x, a);
    }
  }

  lemma {:induction false} ProjectConcat(a: seq<S.StreamEvent>, b: seq<S.StreamEvent>, lane: Lane)
    ensures Project(a + b, lane) == Project(a, lane) + Project(b, lane)
  {
    if a == [] {
      assert a + b == b;
    } else {
      assert (a + b)[1..] == a[1..] + b && (a + b)[0] == a[0];
      ProjectConcat(a[1..], b, lane);
      ConcatAssociative(if InLane(a[0], lane) then [a[0]] else [], Project(a[1..], lane), Project(b, lane));
    }
  }

  lemma {:induction false} ProjectNone(es: seq<S.StreamEvent>, lane: Lane)
    requires forall i :: 0 <= i < |es| ==> !InLane(es[i], lane)
    ensures Project(es, lane) == []
  {
    if es != [] { ProjectNone(es[1..], lane); }
  }

  /** Where the first event of a lane stands in a stream. */
  lemma {:induction false} FirstOfLane(es: seq<S.StreamEvent>, lane: Lane) returns (j: nat)
    requires Project(es, lane) != []
    ensures j < |es| && InLane(es[j], lane) && es[j] == Project(es, lane)[0]
    ensures forall i :: 0 <= i < j ==> !InLane(es[i], lane)
  {
    if InLane(es[0], lane) {
      j := 0;
    } else {
      var k := FirstOfLane(es[1..], lane);
      j := k + 1;
    }
  }

  ghost predicate SameLanes(s: seq<S.StreamEvent>, t: seq<S.StreamEvent>)
  {
    forall lane :: Project(s, lane) == Project(t, lane)
  }

  /** An event in no lane has no effect. */
  lemma LanelessIsNoOp(st: Indexed, e: S.StreamEvent)
    requires forall lane :: !InLane(e, lane)
    ensures Step(st, e) == st
  {
    assert !InLane(e, LoudLane);
    QuietStep(st, e);
    assert Touched(e).Some? ==> InLane(e, BlockLane(Touched(e).value));
  }

  lemma {:induction false} AllLanelessIsNoOp(st: Indexed, es: seq<S.StreamEvent>)
    requires forall lane :: Project(es, lane) == []
    ensures Steps(st, es) == st
    decreases |es|
  {
    if es != [] {
      forall lane ensures !InLane(es[0], lane) && Project(es[1..], lane) == [] {
        assert Project(es, lane) == [];
      }
      LanelessIsNoOp(st, es[0]);
      AllLanelessIsNoOp(st, es[1..]);
    }
  }

  lemma ProjectionsAfterTake(s: seq<S.StreamEvent>, before: seq<S.StreamEvent>, after: seq<S.StreamEvent>, lane: Lane)
    requires s != [] && Project(s, lane) == Project(before + ([s[0]] + after), lane)
    requires InLane(s[0], lane) ==> forall i :: 0 <= i < |before| ==> !InLane(before[i], lane)
    ensures Project(s[1..], lane) == Project(before + after, lane)
  {
    ProjectConcat(before, [s[0]] + after, lane);
    ProjectConcat(before, after, lane);
    assert ([s[0]] + after)[1..] == after;
    if InLane(s[0], lane) {
      ProjectNone(before, lane);
      assert Project(s, lane)[1..] == Project(s[1..], lane);
      assert ([s[0]] + Project(after, lane))[1..] == Project(after, lane);
    } else {
      assert [] + Project(s[1..], lane) == Project(s[1..], lane);
      assert [] + Project(after, lane) == Project(after, lane);
    }
  }

  lemma ProjectHead(s: seq<S.StreamEvent>, lane: Lane)
    requires s != [] && InLane(s[0], lane)
    ensures Project(s, lane) != [] && Project(s, lane)[0] == s[0]
  {
  }

  /** Where `t` first enters a lane of `s`'s first event, it has that event. */
  lemma HeadOfLane(s: seq<S.StreamEvent>, t: seq<S.StreamEvent>, lane: Lane) returns (j: nat)
    requires s != [] && Project(s, lane) == Project(t, lane) && InLane(s[0], lane)
    ensures j < |t| && t[j] == s[0] && forall i :: 0 <= i < j ==> !InLane(t[i], lane)
  {
    ProjectHead(s, lane);
    j := FirstOfLane(t, lane);
  }

  /** That place is the same in every lane the event takes part in. */
  lemma HeadOfAllLanes(s: seq<S.StreamEvent>, t: seq<S.StreamEvent>, lane: Lane, j: nat, l: Lane)
    requires s != [] && Project(s, l) == Project(t, l) && InLane(s[0], lane) && InLane(s[0], l)
    requires j < |t| && t[j] == s[0] && forall i :: 0 <= i < j ==> !InLane(t[i], lane)
    ensures forall i :: 0 <= i < j ==> !InLane(t[i], l)
  {
    var k := HeadOfLane(s, t, l);
    assert InLane(t[k], lane);
    assert j <= k;
  }

  lemma SameLanesAfterTake(s: seq<S.StreamEvent>, t: seq<S.StreamEvent>, j: nat)
    requires s != [] && SameLanes(s, t) && j < |t| && t[j] == s[0]
    requires forall l, i :: InLane(s[0], l) && 0 <= i < j ==> !InLane(t[i], l)
    ensures SameLanes(s[1..], t[..j] + t[j + 1..])
  {
    var before, after := t[..j], t[j + 1..];
    assert t == before + ([s[0]] + after);
    forall l ensures Project(s[1..], l) == Project(before + after, l) {
      assert Project(s, l) == Project(t, l);
      assert InLane(s[0], l) ==> forall i :: 0 <= i < |before| ==> !InLane(before[i], l);
      ProjectionsAfterTake(s, before, after, l);
    }
  }

  /** In a stream with the same lanes, the first event of the other can be brought to the front. */
  lemma Locate(s: seq<S.StreamEvent>, t: seq<S.StreamEvent>, lane: Lane) returns (j: nat)
    requires s != [] && SameLanes(s, t) && InLane(s[0], lane)
    ensures j < |t| && t[j] == s[0] && forall i :: 0 <= i < j ==> Independent(t[i], s[0])
    ensures SameLanes(s[1..], t[..j] + t[j + 1..])
  {
    assert Project(s, lane) == Project(t, lane);
    j := HeadOfLane(s, t, lane);
    forall l, i | InLane(s[0], l) && 0 <= i < j ensures !InLane(t[i], l) {
      assert Project(s, l) == Project(t, l);
      HeadOfAllLanes(s, t, lane, j, l);
    }
    SameLanesAfterTake(s, t, j);
  }

  /** Interleaving independence: the result depends only on the order of the loud events and on the
      order of events within each block index. */
  lemma {:induction false} SameLanesSameState(st: Indexed, s: seq<S.StreamEvent>, t: seq<S.StreamEvent>)
    requires SameLanes(s, t)
    ensures Steps(st, s) == Steps(st, t)
    decreases |s|
  {
    if s == [] {
      forall lane ensures Project(t, lane) == [] { assert Project(s, lane) == Project(t, lane); }
      AllLanelessIsNoOp(st, t);
    } else if lane :| InLane(s[0], lane) {
      var j := Locate(s, t, lane);
      assert t == t[..j] + [s[0]] + t[j + 1..];
      TakeFirst(st, t[..j], s[0], t[j + 1..]);
      SameLanesSameState(Step(st, s[0]), s[1..], t[..j] + t[j + 1..]);
    } else {
      LanelessIsNoOp(st, s[0]);
      forall lane ensures Project(s[1..], lane) == Project(t, lane) { assert Project(s, lane) == Project(t, lane); }
      SameLanesSameState(st, s[1..], t);
    }
  }

  lemma InterleavingIndependent(s: seq<S.StreamEvent>, t: seq<S.StreamEvent>)
    requires SameLanes(s, t)
    ensures Collect(s) == Collect(t)
  {
    SameLanesSameState(EMPTY, s, t);
  }

  // ---------------------------------------------------------------- a tool's own fragments

  /** The JSON fragments for block `i`, in order. */
  function Fragments(es: seq<S.StreamEvent>, i: S.u32): (json: string)
  {
    if es == [] then ""
    else (if es[0].ContentBlockDelta? && es[0].index == i && es[0].delta.InputJsonDelta? then es[0].delta.partialJson
          else "")
         + Fragments(es[1..], i)
  }

  /** Between its start and its stop, nothing restarts or stops block `i`. */
  predicate LeavesOpen(e: S.StreamEvent, i: S.u32)
  {
    && (e.MessageStart? ==> e.message.content == [] || i != 0)
    && (IsToolStart(e) || e.ContentBlockStop? ==> e.index != i)
  }

  lemma ToolCell(st: Indexed, e: S.StreamEvent, i: S.u32)
    requires i in st.tools && LeavesOpen(e, i)
    ensures i in Step(st, e).tools
    ensures Step(st, e).tools[i] == st.tools[i].(input := st.tools[i].input + Fragments([e], i))
  {
    assert [e][1..] == [];
    if Touched(e) != Some(i) {
      StepFrame(st, e, i, CellAt(st, i));
      assert st.tools[i].input + "" == st.tools[i].input;
    }
  }

  lemma {:induction false} ToolGathers(st: Indexed, es: seq<S.StreamEvent>, i: S.u32)
    requires i in st.tools && forall k :: 0 <= k < |es| ==> LeavesOpen(es[k], i)
    ensures i in Steps(st, es).tools
    ensures Steps(st, es).tools[i] == st.tools[i].(input := st.tools[i].input + Fragments(es, i))
    decreases |es|
  {
    if es == [] {
      assert st.tools[i].input + "" == st.tools[i].input;
    } else {
      ToolCell(st, es[0], i);
      ToolGathers(Step(st, es[0]), es[1..], i);
      assert [es[0]][1..] == [];
      assert Fragments([es[0]], i) + Fragments(es[1..], i) == Fragments(es, i);
      assert st.tools[i].input + Fragments([es[0]], i) + Fragments(es[1..], i) == st.tools[i].input + Fragments(es, i);
    }
  }

  lemma {:induction false} StepsConcat(st: Indexed, a: seq<S.StreamEvent>, b: seq<S.StreamEvent>)
    ensures Steps(st, a + b) == Steps(Steps(st, a), b)
    decreases |a|
  {
    if a == [] {
      assert a + b == b;
    } else {
      assert (a + b)[1..] == a[1..] + b;
      StepsConcat(Step(st, a[0]), a[1..], b);
    }
  }

  /** Whatever is interleaved with it, a completed tool's input is its initial input followed by
      the fragments of its own index. */
  lemma ToolInputIsItsFragments(st: Indexed, i: S.u32, id: string, name: string, input: S.ToolInput,
                                es: seq<S.StreamEvent>)
    requires forall k :: 0 <= k < |es| ==> LeavesOpen(es[k], i)
    ensures
      var r := Steps(st, [S.ContentBlockStart(i, S.ToolUse(id, name, input))] + es + [S.ContentBlockStop(i)]);
      && |r.events| > 0 && i !in r.tools
      && r.events[|r.events| - 1]
         == ToolUse(id, name, (if input.EmptyObject? then "" else input.text) + Fragments(es, i))
  {
    var start, stop := S.ContentBlockStart(i, S.ToolUse(id, name, input)), S.ContentBlockStop(i);
    assert ([start] + es + [stop])[1..] == es + [stop];
    var begun := Step(st, start);
    StepsConcat(begun, es, [stop]);
    ToolGathers(begun, es, i);
    assert [stop][1..] == [];
  }
}
