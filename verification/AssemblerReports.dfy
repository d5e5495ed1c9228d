/** What the assemblers report of a stream, event by event: texts, usage, stops and thoughts. */
module AssemblerReports {
  import opened Basics
  import opened Assembler
  import L = AssemblerLaws
  import S = Stream

  // ---------------------------------------------------------------- texts, usage and stops

  /** An event that is reported as it arrives, not gathered over a block. */
  predicate Direct(e: AssistantEvent)
  {
    e.TextDelta? || e.Usage? || e.MessageStop?
  }

  function DirectOnes(events: seq<AssistantEvent>): (r: seq<AssistantEvent>)
  {
    if events == [] then []
    else DirectOnes(events[..|events| - 1]) + if Direct(events[|events| - 1]) then [events[|events| - 1]] else []
  }

  /** A text worth reporting. */
  function Text(text: string): (r: seq<AssistantEvent>)
  {
    if |text| > 0 then [TextDelta(text)] else []
  }

  function BlockTexts(blocks: seq<S.Block>): (r: seq<AssistantEvent>)
  {
    if blocks == [] then [] else (if blocks[0].Text? then Text(blocks[0].text) else []) + BlockTexts(blocks[1..])
  }

  /** What one stream event has to say directly: its text, its usage, or that the message is over. */
  function Says(e: S.StreamEvent): (r: seq<AssistantEvent>)
  {
    match e
    case MessageStart(message) => BlockTexts(message.content)
    case ContentBlockStart(_, block) => if block.Text? then Text(block.text) else []
    case ContentBlockDelta(_, delta) => if delta.TextDelta? then Text(delta.text) else []
    case ContentBlockStop(_) => []
    case MessageDelta(_, usage) => [Usage(usage)]
    case MessageStop => [MessageStop]
  }

  /** All that a stream says directly, in order; the evaluation client leaves out `message_start`. */
  function AllSaid(es: seq<S.StreamEvent>, withStart: bool): (r: seq<AssistantEvent>)
  {
    if es == [] then []
    else (if es[0].MessageStart? && !withStart then [] else Says(es[0])) + AllSaid(es[1..], withStart)
  }

  lemma {:induction false} DirectConcat(a: seq<AssistantEvent>, b: seq<AssistantEvent>)
    ensures DirectOnes(a + b) == DirectOnes(a) + DirectOnes(b)
  {
    if b == [] {
      assert a + b == a;
    } else {
      var init := b[..|b| - 1];
      assert (a + b)[..|a + b| - 1] == a + init;
      DirectConcat(a, init);
    }
  }

  lemma DirectOne(e: AssistantEvent)
    ensures DirectOnes([e]) == if Direct(e) then [e] else []
  {
    assert [e][..0] == [];
  }

  lemma DirectText(text: string)
    ensures Spoken(text) == Text(text) == DirectOnes(Text(text))
  {
    DirectOne(TextDelta(text));
  }

  lemma DirectAppend(events: seq<AssistantEvent>, more: seq<AssistantEvent>)
    requires DirectOnes(more) == more
    ensures DirectOnes(events + more) == DirectOnes(events) + more
  {
    DirectConcat(events, more);
  }

  lemma {:induction false} BlocksSay(st: Indexed, blocks: seq<S.Block>)
    ensures DirectOnes(PushBlocks(st, blocks).events) == DirectOnes(st.events) + BlockTexts(blocks)
    ensures PushBlocks(st, blocks).sawStop == st.sawStop
    decreases |blocks|
  {
    if blocks == [] {
      assert DirectOnes(st.events) + [] == DirectOnes(st.events);
    } else {
      var next := PushBlock(st, blocks[0], 0);
      var said := if blocks[0].Text? then Text(blocks[0].text) else [];
      BlockSays(st, blocks[0], 0);
      BlocksSay(next, blocks[1..]);
      ConcatAssociative(DirectOnes(st.events), said, BlockTexts(blocks[1..]));
    }
  }

  lemma BlockSays(st: Indexed, block: S.Block, index: S.u32)
    ensures
      DirectOnes(PushBlock(st, block, index).events)
      == DirectOnes(st.events) + if block.Text? then Text(block.text) else []
    ensures PushBlock(st, block, index).sawStop == st.sawStop
  {
    if block.Text? {
      DirectText(block.text);
      DirectAppend(st.events, Text(block.text));
    } else {
      assert DirectOnes(st.events) + [] == DirectOnes(st.events);
    }
  }

  /** Stopping a block reports what was gathered for it and says nothing directly. */
  lemma StopSays(st: Indexed, i: S.u32)
    ensures DirectOnes(StopBlock(st, i).events) == DirectOnes(st.events)
  {
    var thought := if i in st.thoughts then [Thinking(st.thoughts[i].text, st.thoughts[i].signature)] else [];
    var tool := if i in st.tools then [ToolUse(st.tools[i].id, st.tools[i].name, st.tools[i].input)] else [];
    DirectConcat(st.events + thought, tool);
    DirectConcat(st.events, thought);
    if i in st.thoughts { DirectOne(thought[0]); }
    if i in st.tools { DirectOne(tool[0]); }
    assert DirectOnes(st.events) + [] + [] == DirectOnes(st.events);
  }

  lemma DeltaSays(st: Indexed, i: S.u32, delta: S.Delta)
    ensures
      DirectOnes(PushDelta(st, i, delta).events)
      == DirectOnes(st.events) + if delta.TextDelta? then Text(delta.text) else []
    ensures PushDelta(st, i, delta).sawStop == st.sawStop
  {
    if delta.TextDelta? {
      DirectText(delta.text);
      DirectAppend(st.events, Text(delta.text));
    } else {
      assert DirectOnes(st.events) + [] == DirectOnes(st.events);
    }
  }

  lemma StepSays(st: Indexed, e: S.StreamEvent)
    ensures DirectOnes(Step(st, e).events) == DirectOnes(st.events) + Says(e)
    ensures Step(st, e).sawStop == (st.sawStop || e.MessageStop?)
  {
    match e
    case MessageStart(message) => BlocksSay(st, message.content);
    case ContentBlockStart(i, block) => BlockSays(st, block, i);
    case ContentBlockDelta(i, delta) => DeltaSays(st, i, delta);
    case ContentBlockStop(i) =>
      StopSays(st, i);
      assert DirectOnes(st.events) + [] == DirectOnes(st.events);
    case MessageDelta(_, usage) =>
      DirectOne(Usage(usage));
      DirectAppend(st.events, [Usage(usage)]);
    case MessageStop =>
      DirectOne(MessageStop);
      DirectAppend(st.events, [MessageStop]);
  }

  lemma {:induction false} StepsSay(st: Indexed, es: seq<S.StreamEvent>)
    ensures DirectOnes(Steps(st, es).events) == DirectOnes(st.events) + AllSaid(es, true)
    ensures Steps(st, es).sawStop == (st.sawStop || S.MessageStop in es)
    decreases |es|
  {
    if es == [] {
      assert DirectOnes(st.events) + [] == DirectOnes(st.events);
    } else {
      StepSays(st, es[0]);
      StepsSay(Step(st, es[0]), es[1..]);
      ConcatAssociative(DirectOnes(st.events), Says(es[0]), AllSaid(es[1..], true));
    }
  }

  /** The kernel's assembler reports exactly the non-empty texts, the usages and the stops of a stream,
      in order; it adds one stop if the stream has none and something was said or called. */
  lemma CollectReports(es: seq<S.StreamEvent>)
    ensures
      DirectOnes(Collect(es))
      == AllSaid(es, true) + if S.MessageStop !in es && HasContent(Collect(es)) then [MessageStop] else []
  {
    StepsSay(EMPTY, es);
    var st := Steps(EMPTY, es);
    assert [] + AllSaid(es, true) == AllSaid(es, true);
    L.StopIsNoContent(st.events);
    DirectOne(MessageStop);
    DirectAppend(st.events, [MessageStop]);
    assert AllSaid(es, true) + [] == AllSaid(es, true);
  }

  lemma SlotStepSays(st: Slot, e: S.StreamEvent)
    ensures
      DirectOnes(SlotStep(st, e).events) == DirectOnes(st.events) + if e.MessageStart? then [] else Says(e)
    ensures SlotStep(st, e).sawStop == (st.sawStop || e.MessageStop?)
  {
    assert DirectOnes(st.events) + [] == DirectOnes(st.events);
    match e
    case ContentBlockStart(_, Text(text)) =>
      DirectText(text);
      DirectAppend(st.events, Text(text));
    case ContentBlockDelta(_, TextDelta(text)) =>
      DirectText(text);
      DirectAppend(st.events, Text(text));
    case ContentBlockStop(_) =>
      if st.tool.Some? { CallSaysNothing(st.events, st.tool.value); }
    case MessageDelta(_, usage) =>
      DirectOne(Usage(usage));
      DirectAppend(st.events, [Usage(usage)]);
    case MessageStop =>
      DirectOne(MessageStop);
      DirectAppend(st.events, [MessageStop]);
    case _ =>
  }

  lemma CallSaysNothing(events: seq<AssistantEvent>, tool: Tool)
    ensures DirectOnes(events + [ToolUse(tool.id, tool.name, tool.input)]) == DirectOnes(events)
  {
    DirectConcat(events, [ToolUse(tool.id, tool.name, tool.input)]);
    DirectOne(ToolUse(tool.id, tool.name, tool.input));
    assert DirectOnes(events) + [] == DirectOnes(events);
  }

  lemma {:induction false} SlotStepsSay(st: Slot, es: seq<S.StreamEvent>)
    ensures DirectOnes(SlotSteps(st, es).events) == DirectOnes(st.events) + AllSaid(es, false)
    ensures SlotSteps(st, es).sawStop == (st.sawStop || S.MessageStop in es)
    decreases |es|
  {
    if es == [] {
      assert DirectOnes(st.events) + [] == DirectOnes(st.events);
    } else {
      SlotStepSays(st, es[0]);
      SlotStepsSay(SlotStep(st, es[0]), es[1..]);
      var said := if es[0].MessageStart? then [] else Says(es[0]);
      ConcatAssociative(DirectOnes(st.events), said, AllSaid(es[1..], false));
    }
  }

  /** The evaluation client's assembler does the same without `message_start`, and always ends in a stop. */
  lemma ConsumeReports(es: seq<S.StreamEvent>)
    ensures DirectOnes(Consume(es)) == AllSaid(es, false) + if S.MessageStop !in es then [MessageStop] else []
  {
    var st := SlotSteps(Slot([], None, false), es);
    SlotStepsSay(Slot([], None, false), es);
    assert [] + AllSaid(es, false) == AllSaid(es, false);
    DirectOne(MessageStop);
    DirectAppend(st.events, [MessageStop]);
    assert AllSaid(es, false) + [] == AllSaid(es, false);
  }

  /** Nothing but the end of a block reports a tool or a thought, and only of that block. */
  lemma GatheredOnlyAtStop(st: Indexed, e: S.StreamEvent)
    ensures !e.ContentBlockStop? && !e.MessageStart? ==> Step(st, e).events == st.events + Says(e)
    ensures e.ContentBlockStop? && e.index !in st.tools && e.index !in st.thoughts ==> Step(st, e) == st
  {
    match e
    case ContentBlockStop(i) =>
      assert i !in st.tools ==> st.tools - {i} == st.tools;
      assert i !in st.thoughts ==> st.thoughts - {i} == st.thoughts;
    case _ =>
  }

  // ---------------------------------------------------------------- thoughts

  /** The thought fragments for block `i`, in order. */
  function Mused(es: seq<S.StreamEvent>, i: S.u32): (text: string)
  {
    if es == [] then ""
    else (if es[0].ContentBlockDelta? && es[0].index == i && es[0].delta.ThinkingDelta? then es[0].delta.thinking
          else "")
         + Mused(es[1..], i)
  }

  /** The signature of block `i` after its signature fragments. */
  function Signed(signature: Option<string>, es: seq<S.StreamEvent>, i: S.u32): (r: Option<string>)
    decreases |es|
  {
    if es == [] then signature
    else if es[0].ContentBlockDelta? && es[0].index == i && es[0].delta.SignatureDelta? then
      Signed(Some((if signature.Some? then signature.value else "") + es[0].delta.signature), es[1..], i)
    else Signed(signature, es[1..], i)
  }

  /** Between its start and its stop, nothing restarts or stops thought `i`. */
  predicate LeavesThought(e: S.StreamEvent, i: S.u32)
  {
    && (e.MessageStart? ==> e.message.content == [] || i != 0)
    && ((e.ContentBlockStart? && e.block.Thinking?) || e.ContentBlockStop? ==> e.index != i)
  }

  lemma OneEvent(signature: Option<string>, e: S.StreamEvent, i: S.u32)
    ensures !(e.ContentBlockDelta? && e.index == i) ==> Mused([e], i) == "" && Signed(signature, [e], i) == signature
    ensures
      e.ContentBlockDelta? && e.index == i ==>
      && Mused([e], i) == (if e.delta.ThinkingDelta? then e.delta.thinking else "")
      && Signed(signature, [e], i)
         == if e.delta.SignatureDelta? then Some((if signature.Some? then signature.value else "") + e.delta.signature)
            else signature
  {
    assert [e][1..] == [];
    assert Mused([], i) == "" && forall s: string :: s + "" == s;
  }

  lemma ThoughtCell(st: Indexed, e: S.StreamEvent, i: S.u32)
    requires i in st.thoughts && LeavesThought(e, i)
    ensures i in Step(st, e).thoughts
    ensures Step(st, e).thoughts[i].text == st.thoughts[i].text + Mused([e], i)
    ensures Step(st, e).thoughts[i].signature == Signed(st.thoughts[i].signature, [e], i)
  {
    OneEvent(st.thoughts[i].signature, e, i);
    if L.Touched(e) != Some(i) {
      L.StepFrame(st, e, i, L.CellAt(st, i));
      assert st.thoughts[i].text + "" == st.thoughts[i].text;
    }
  }

  lemma OneAndRest(signature: Option<string>, es: seq<S.StreamEvent>, i: S.u32)
    requires es != []
    ensures Mused(es, i) == Mused([es[0]], i) + Mused(es[1..], i)
    ensures Signed(signature, es, i) == Signed(Signed(signature, [es[0]], i), es[1..], i)
  {
    assert [es[0]][1..] == [];
    assert forall s: string :: s + "" == s;
  }

  lemma {:induction false} ThoughtGathers(st: Indexed, es: seq<S.StreamEvent>, i: S.u32)
    requires i in st.thoughts && forall k :: 0 <= k < |es| ==> LeavesThought(es[k], i)
    ensures i in Steps(st, es).thoughts
    ensures Steps(st, es).thoughts[i].text == st.thoughts[i].text + Mused(es, i)
    ensures Steps(st, es).thoughts[i].signature == Signed(st.thoughts[i].signature, es, i)
    decreases |es|
  {
    if es == [] {
      assert st.thoughts[i].text + "" == st.thoughts[i].text;
    } else {
      ThoughtCell(st, es[0], i);
      ThoughtGathers(Step(st, es[0]), es[1..], i);
      OneAndRest(st.thoughts[i].signature, es, i);
      ConcatAssociative(st.thoughts[i].text, Mused([es[0]], i), Mused(es[1..], i));
    }
  }

  /** Whatever is interleaved with it, a completed thought is its initial text followed by the thought
      fragments of its own index, signed with its initial signature followed by the signature fragments
      of its own index; it is reported when its block stops, before a tool of that block. */
  lemma ThoughtIsItsFragments(st: Indexed, i: S.u32, text: string, signature: Option<string>, es: seq<S.StreamEvent>)
    requires forall k :: 0 <= k < |es| ==> LeavesThought(es[k], i)
    ensures
      var open := Steps(st, [S.ContentBlockStart(i, S.Thinking(text, signature))] + es);
      var r := Step(open, S.ContentBlockStop(i));
      && |r.events| > |open.events| && r.events[..|open.events|] == open.events && i !in r.thoughts
      && r.events[|open.events|] == Thinking(text + Mused(es, i), Signed(signature, es, i))
  {
    var start := S.ContentBlockStart(i, S.Thinking(text, signature));
    assert ([start] + es)[1..] == es;
    ThoughtGathers(Step(st, start), es, i);
  }
}
