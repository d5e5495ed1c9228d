/** The mock provider's side of the wire: stream events printed as server-sent events. */
module Printer {
  import opened Basics
  import S = Stream

  const DEFAULT_MODEL := "claude-sonnet-4-6"

  /** The `event:` line each payload is sent under. */
  function EventName(e: S.StreamEvent): (name: string)
  {
    match e
    case MessageStart(_) => "message_start"
    case ContentBlockStart(_, _) => "content_block_start"
    case ContentBlockDelta(_, _) => "content_block_delta"
    case ContentBlockStop(_) => "content_block_stop"
    case MessageDelta(_, _) => "message_delta"
    case MessageStop => "message_stop"
  }

  /** One event's frame, without the blank line that ends it. */
  function FrameText(json: S.Json, e: S.StreamEvent): (s: string)
  {
    "event: " + EventName(e) + "\n" + "data: " + json.encode(e)
  }

  function Print(json: S.Json, es: seq<S.StreamEvent>): (body: string)
  {
    if es == [] then "" else Print(json, es[..|es| - 1]) + FrameText(json, es[|es| - 1]) + "\n\n"
  }

  lemma FrameLayout(buffer: string, eventLine: string, dataLine: string)
    ensures buffer + eventLine + (dataLine + "\n") + "\n" == buffer + (eventLine + dataLine) + "\n\n"
  {
  }

  method AppendSse(json: S.Json, buffer: string, ghost printed: seq<S.StreamEvent>, e: S.StreamEvent)
    returns (body: string)
    requires buffer == Print(json, printed)
    ensures body == Print(json, printed + [e])
  {
    var eventLine, dataLine := "event: " + EventName(e) + "\n", "data: " + json.encode(e);
    body := buffer + eventLine;
    body := body + (dataLine + "\n");
    body := body + "\n";
    assert (printed + [e])[..|printed|] == printed;
    FrameLayout(buffer, eventLine, dataLine);
    assert eventLine + dataLine == FrameText(json, e);
  }

  datatype ToolUseSse = ToolUseSse(toolId: string, toolName: string, partialJsonChunks: seq<string>)

  function UsageOf(inputTokens: S.u32, outputTokens: S.u32): (u: S.Usage)
  {
    S.Usage(inputTokens, 0, 0, outputTokens)
  }

  function Opening(tools: seq<ToolUseSse>): (e: S.StreamEvent)
  {
    var id := if tools == [] then "msg_tool_use" else "msg_" + tools[0].toolId;
    S.MessageStart(S.Message(id, "assistant", DEFAULT_MODEL, [], UsageOf(12, 0)))
  }

  function Deltas(index: S.u32, chunks: seq<string>): (es: seq<S.StreamEvent>)
  {
    if chunks == [] then []
    else Deltas(index, chunks[..|chunks| - 1]) + [S.ContentBlockDelta(index, S.InputJsonDelta(chunks[|chunks| - 1]))]
  }

  function ToolBlock(index: S.u32, tool: ToolUseSse): (es: seq<S.StreamEvent>)
  {
    [S.ContentBlockStart(index, S.ToolUse(tool.toolId, tool.toolName, S.EmptyObject))]
    + Deltas(index, tool.partialJsonChunks)
    + [S.ContentBlockStop(index)]
  }

  function ToolBlocks(tools: seq<ToolUseSse>): (es: seq<S.StreamEvent>)
    requires |tools| <= 0x1_0000_0000
  {
    if tools == [] then []
    else ToolBlocks(tools[..|tools| - 1]) + ToolBlock(|tools| - 1, tools[|tools| - 1])
  }

  const CLOSING: seq<S.StreamEvent> := [S.MessageDelta(Some("tool_use"), UsageOf(12, 4)), S.MessageStop]

  /** The events a list of tool uses stands for. */
  function ToolEvents(tools: seq<ToolUseSse>): (es: seq<S.StreamEvent>)
    requires |tools| <= 0x1_0000_0000
  {
    [Opening(tools)] + ToolBlocks(tools) + CLOSING
  }

  /** The inner loop of `tool_uses_sse`: one tool's fragments appended to the body. */
  method AppendDeltas(json: S.Json, buffer: string, ghost printed: seq<S.StreamEvent>, index: S.u32,
                      chunks: seq<string>)
    returns (body: string)
    requires buffer == Print(json, printed)
    ensures body == Print(json, printed + Deltas(index, chunks))
  {
    body := buffer;
    assert printed + [] == printed;
    var k := 0;
    while k < |chunks|
      invariant 0 <= k <= |chunks|
      invariant body == Print(json, printed + Deltas(index, chunks[..k]))
    {
      var delta := S.ContentBlockDelta(index, S.InputJsonDelta(chunks[k]));
      body := AppendSse(json, body, printed + Deltas(index, chunks[..k]), delta);
      assert chunks[..k + 1][..k] == chunks[..k];
      ConcatAssociative(printed, Deltas(index, chunks[..k]), [delta]);
      k := k + 1;
    }
    assert chunks[..k] == chunks;
  }

  /** One tool's whole block appended to the body. */
  method AppendTool(json: S.Json, buffer: string, ghost printed: seq<S.StreamEvent>, index: S.u32, tool: ToolUseSse)
    returns (body: string)
    requires buffer == Print(json, printed)
    ensures body == Print(json, printed + ToolBlock(index, tool))
  {
    var start := S.ContentBlockStart(index, S.ToolUse(tool.toolId, tool.toolName, S.EmptyObject));
    var chunks := tool.partialJsonChunks;
    body := AppendSse(json, buffer, printed, start);
    ghost var sent := printed + [start];
    body := AppendDeltas(json, body, sent, index, chunks);
    body := AppendSse(json, body, sent + Deltas(index, chunks), S.ContentBlockStop(index));
    ConcatAssociative(printed, [start], Deltas(index, chunks));
    ConcatAssociative(printed, [start] + Deltas(index, chunks), [S.ContentBlockStop(index)]);
  }

  lemma NextBlock(printed: seq<S.StreamEvent>, tools: seq<ToolUseSse>, index: nat)
    requires index < |tools| <= 0x1_0000_0000
    ensures printed + ToolBlocks(tools[..index]) + ToolBlock(index, tools[index])
            == printed + ToolBlocks(tools[..index + 1])
  {
    assert tools[..index + 1][..index] == tools[..index];
    ConcatAssociative(printed, ToolBlocks(tools[..index]), ToolBlock(index, tools[index]));
  }

  /** The outer loop of `tool_uses_sse`: every tool's block under its position. */
  method AppendTools(json: S.Json, buffer: string, ghost printed: seq<S.StreamEvent>, tools: seq<ToolUseSse>)
    returns (body: string)
    requires |tools| <= 0x1_0000_0000 && buffer == Print(json, printed)
    ensures body == Print(json, printed + ToolBlocks(tools))
  {
    body := buffer;
    assert printed + [] == printed;
    var index := 0;
    while index < |tools|
      invariant 0 <= index <= |tools|
      invariant body == Print(json, printed + ToolBlocks(tools[..index]))
    {
      body := AppendTool(json, body, printed + ToolBlocks(tools[..index]), index, tools[index]);
      NextBlock(printed, tools, index);
      index := index + 1;
    }
    assert tools[..index] == tools;
  }

  /** Block indices are 32-bit on the wire, hence the bound. */
  method ToolUsesSse(json: S.Json, tools: seq<ToolUseSse>) returns (body: string)
    requires |tools| <= 0x1_0000_0000
    ensures body == Print(json, ToolEvents(tools))
  {
    ghost var opening := [Opening(tools)];
    assert [] + opening == opening;
    body := AppendSse(json, "", [], Opening(tools));
    body := AppendTools(json, body, opening, tools);
    ghost var sent := opening + ToolBlocks(tools);
    body := AppendSse(json, body, sent, CLOSING[0]);
    body := AppendSse(json, body, sent + [CLOSING[0]], CLOSING[1]);
    ConcatAssociative(sent, [CLOSING[0]], [CLOSING[1]]);
    assert [CLOSING[0]] + [CLOSING[1]] == CLOSING;
  }
}
