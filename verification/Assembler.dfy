/**
 The two content-block assemblers: the kernel's, which keeps pending tools and thoughts per block
 index, and the evaluation client's, which keeps one pending tool.
 */
module Assembler {
  import opened Basics
  import S = Stream

  datatype AssistantEvent =
    | TextDelta(text: string)
    | Thinking(thinking: string, signature: Option<string>)
    | ToolUse(id: string, name: string, input: string)
    | Usage(usage: S.Usage)
    | MessageStop

  datatype Tool = Tool(id: string, name: string, input: string)
  datatype Thought = Thought(text: string, signature: Option<string>)

  function InitialInput(input: S.ToolInput): (s: string)
  {
    match input
    case EmptyObject => ""
    case Value(text) => text
  }

  function Spoken(text: string): (events: seq<AssistantEvent>)
  {
    if text == "" then [] else [TextDelta(text)]
  }

  /** Text or a tool call: what makes a stream without `message_stop` worth closing. */
  predicate HasContent(events: seq<AssistantEvent>)
  {
    exists i :: 0 <= i < |events| && ((events[i].TextDelta? && events[i].text != "") || events[i].ToolUse?)
  }

  // ---------------------------------------------------------------- the indexed assembler

  datatype Indexed = Indexed(
    events: seq<AssistantEvent>,
    tools: map<S.u32, Tool>,
    thoughts: map<S.u32, Thought>,
    sawStop: bool)

  const EMPTY := Indexed([], map[], map[], false)

  function PushBlock(st: Indexed, block: S.Block, index: S.u32): (r: Indexed)
  {
    match block
    case Text(text) => st.(events := st.events + Spoken(text))
    case ToolUse(id, name, input) => st.(tools := st.tools[index := Tool(id, name, InitialInput(input))])
    case Thinking(text, signature) => st.(thoughts := st.thoughts[index := Thought(text, signature)])
    case RedactedThinking => st
  }

  function PushBlocks(st: Indexed, blocks: seq<S.Block>): (r: Indexed)
    decreases |blocks|
  {
    if blocks == [] then st else PushBlocks(PushBlock(st, blocks[0], 0), blocks[1..])
  }

  function PushDelta(st: Indexed, index: S.u32, delta: S.Delta): (r: Indexed)
  {
    match delta
    case TextDelta(text) => st.(events := st.events + Spoken(text))
    case InputJsonDelta(json) =>
      if index in st.tools then
        st.(tools := st.tools[index := st.tools[index].(input := st.tools[index].input + json)])
      else st
    case ThinkingDelta(text) =>
      if index in st.thoughts then
        st.(thoughts := st.thoughts[index := st.thoughts[index].(text := st.thoughts[index].text + text)])
      else st
    case SignatureDelta(signature) =>
      if index in st.thoughts then
        var t := st.thoughts[index];
        var signed := if t.signature.Some? then t.signature.value else "";
        st.(thoughts := st.thoughts[index := t.(signature := Some(signed + signature))])
      else st
  }

  function StopBlock(st: Indexed, index: S.u32): (r: Indexed)
  {
    var thought := if index in st.thoughts then [Thinking(st.thoughts[index].text, st.thoughts[index].signature)]
                   else [];
    var tool := if index in st.tools then [ToolUse(st.tools[index].id, st.tools[index].name, st.tools[index].input)]
                else [];
    st.(events := st.events + thought + tool, thoughts := st.thoughts - {index}, tools := st.tools - {index})
  }

  function Step(st: Indexed, e: S.StreamEvent): (r: Indexed)
  {
    match e
    case MessageStart(message) => PushBlocks(st, message.content)
    case ContentBlockStart(index, block) => PushBlock(st, block, index)
    case ContentBlockDelta(index, delta) => PushDelta(st, index, delta)
    case ContentBlockStop(index) => StopBlock(st, index)
    case MessageDelta(_, usage) => st.(events := st.events + [Usage(usage)])
    case MessageStop => st.(events := st.events + [MessageStop], sawStop := true)
  }

  function Steps(st: Indexed, es: seq<S.StreamEvent>): (r: Indexed)
    decreases |es|
  {
    if es == [] then st else Steps(Step(st, es[0]), es[1..])
  }

  function Close(st: Indexed): (events: seq<AssistantEvent>)
  {
    if !st.sawStop && HasContent(st.events) then st.events + [MessageStop] else st.events
  }

  /** What the kernel's assembler returns for a stream. */
  function Collect(es: seq<S.StreamEvent>): (events: seq<AssistantEvent>)
  {
    Close(Steps(EMPTY, es))
  }

  method StreamAndCollect(es: seq<S.StreamEvent>) returns (events: seq<AssistantEvent>)
    ensures events == Collect(es)
  {
    events := [];
    var pendingTools: map<S.u32, Tool> := map[];
    var pendingThinking: map<S.u32, Thought> := map[];
    var sawStop := false;
    var i := 0;
    while i < |es|
      invariant 0 <= i <= |es|
      invariant Steps(EMPTY, es) == Steps(Indexed(events, pendingTools, pendingThinking, sawStop), es[i..])
    {
      ghost var st := Indexed(events, pendingTools, pendingThinking, sawStop);
      match es[i] {
        case MessageStart(message) =>
          var k := 0;
          while k < |message.content|
            invariant 0 <= k <= |message.content|
            invariant PushBlocks(st, message.content) ==
                      PushBlocks(Indexed(events, pendingTools, pendingThinking, sawStop), message.content[k..])
          {
            assert message.content[k..][1..] == message.content[k + 1..];
            events, pendingTools, pendingThinking :=
              PushOutputBlock(message.content[k], 0, events, pendingTools, pendingThinking, sawStop);
            k := k + 1;
          }
        case ContentBlockStart(index, block) =>
          events, pendingTools, pendingThinking :=
            PushOutputBlock(block, index, events, pendingTools, pendingThinking, sawStop);
        case ContentBlockDelta(index, delta) =>
          match delta {
            case TextDelta(text) =>
              if text != "" {
                events := events + [TextDelta(text)];
              }
            case InputJsonDelta(json) =>
              if index in pendingTools {
                var tool := pendingTools[index];
                pendingTools := pendingTools[index := tool.(input := tool.input + json)];
              }
            case ThinkingDelta(text) =>
              if index in pendingThinking {
                var thought := pendingThinking[index];
                pendingThinking := pendingThinking[index := thought.(text := thought.text + text)];
              }
            case SignatureDelta(signature) =>
              if index in pendingThinking {
                var thought := pendingThinking[index];
                var signed := if thought.signature.Some? then thought.signature.value else "";
                pendingThinking := pendingThinking[index := thought.(signature := Some(signed + signature))];
              }
          }
        case ContentBlockStop(index) =>
          if index in pendingThinking {
            events := events + [Thinking(pendingThinking[index].text, pendingThinking[index].signature)];
            pendingThinking := pendingThinking - {index};
          }
          if index in pendingTools {
            events := events + [ToolUse(pendingTools[index].id, pendingTools[index].name, pendingTools[index].input)];
            pendingTools := pendingTools - {index};
          }
        case MessageDelta(_, usage) =>
          events := events + [Usage(usage)];
        case MessageStop =>
          sawStop := true;
          events := events + [MessageStop];
      }
      assert Indexed(events, pendingTools, pendingThinking, sawStop) == Step(st, es[i]);
      assert es[i..][1..] == es[i + 1..];
      i := i + 1;
    }
    if !sawStop && HasContent(events) {
      events := events + [MessageStop];
    }
  }

  method PushOutputBlock(block: S.Block, index: S.u32, events0: seq<AssistantEvent>, tools0: map<S.u32, Tool>,
                         thoughts0: map<S.u32, Thought>, ghost sawStop: bool)
    returns (events: seq<AssistantEvent>, tools: map<S.u32, Tool>, thoughts: map<S.u32, Thought>)
    ensures Indexed(events, tools, thoughts, sawStop)
            == PushBlock(Indexed(events0, tools0, thoughts0, sawStop), block, index)
  {
    events, tools, thoughts := events0, tools0, thoughts0;
    match block
    case Text(text) =>
      if text != "" {
        events := events + [TextDelta(text)];
      }
    case ToolUse(id, name, input) =>
      var initialInput := if input.EmptyObject? then "" else input.text;
      tools := tools[index := Tool(id, name, initialInput)];
    case Thinking(text, signature) =>
      thoughts := thoughts[index := Thought(text, signature)];
    case RedactedThinking =>
  }

  // ---------------------------------------------------------------- the single-slot assembler

  datatype Slot = Slot(events: seq<AssistantEvent>, tool: Option<Tool>, sawStop: bool)

  function SlotStep(st: Slot, e: S.StreamEvent): (r: Slot)
  {
    match e
    case MessageStart(_) => st
    case ContentBlockStart(_, Text(text)) => st.(events := st.events + Spoken(text))
    case ContentBlockStart(_, ToolUse(id, name, input)) => st.(tool := Some(Tool(id, name, InitialInput(input))))
    case ContentBlockStart(_, _) => st
    case ContentBlockDelta(_, TextDelta(text)) => st.(events := st.events + Spoken(text))
    case ContentBlockDelta(_, InputJsonDelta(json)) =>
      if st.tool.Some? then st.(tool := Some(st.tool.value.(input := st.tool.value.input + json))) else st
    case ContentBlockDelta(_, _) => st
    case ContentBlockStop(_) =>
      if st.tool.Some? then
        Slot(st.events + [ToolUse(st.tool.value.id, st.tool.value.name, st.tool.value.input)], None, st.sawStop)
      else st
    case MessageDelta(_, usage) => st.(events := st.events + [Usage(usage)])
    case MessageStop => st.(events := st.events + [MessageStop], sawStop := true)
  }

  function SlotSteps(st: Slot, es: seq<S.StreamEvent>): (r: Slot)
    decreases |es|
  {
    if es == [] then st else SlotSteps(SlotStep(st, es[0]), es[1..])
  }

  /** What the evaluation client's assembler returns for a stream. */
  function Consume(es: seq<S.StreamEvent>): (events: seq<AssistantEvent>)
  {
    var st := SlotSteps(Slot([], None, false), es);
    if st.sawStop then st.events else st.events + [MessageStop]
  }

  method ConsumeStream(es: seq<S.StreamEvent>) returns (events: seq<AssistantEvent>)
    ensures events == Consume(es)
  {
    events := [];
    var pendingTool: Option<Tool> := None;
    var sawStop := false;
    var i := 0;
    while i < |es|
      invariant 0 <= i <= |es|
      invariant SlotSteps(Slot([], None, false), es) == SlotSteps(Slot(events, pendingTool, sawStop), es[i..])
    {
      ghost var st := Slot(events, pendingTool, sawStop);
      match es[i] {
        case MessageStart(_) =>
        case ContentBlockStart(_, block) =>
          match block {
            case Text(text) =>
              if text != "" {
                events := events + [TextDelta(text)];
              }
            case ToolUse(id, name, input) =>
              var initialInput := if input.EmptyObject? then "" else input.text;
              pendingTool := Some(Tool(id, name, initialInput));
            case _ =>
          }
        case ContentBlockDelta(_, delta) =>
          match delta {
            case TextDelta(text) =>
              if text != "" {
                events := events + [TextDelta(text)];
              }
            case InputJsonDelta(json) =>
              if pendingTool.Some? {
                pendingTool := Some(pendingTool.value.(input := pendingTool.value.input + json));
              }
            case _ =>
          }
        case ContentBlockStop(_) =>
          if pendingTool.Some? {
            events := events + [ToolUse(pendingTool.value.id, pendingTool.value.name, pendingTool.value.input)];
            pendingTool := None;
          }
        case MessageDelta(_, usage) =>
          events := events + [Usage(usage)];
        case MessageStop =>
          sawStop := true;
          events := events + [MessageStop];
      }
      assert Slot(events, pendingTool, sawStop) == SlotStep(st, es[i]);
      assert es[i..][1..] == es[i + 1..];
      i := i + 1;
    }
    if !sawStop {
      events := events + [MessageStop];
    }
  }
}
