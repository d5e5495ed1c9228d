/** The provider stream: its events, and the JSON codec that carries them, taken as given. */
module Stream {
  import opened Basics

  type u32 = x: int | 0 <= x < 0x1_0000_0000

  datatype Usage = Usage(inputTokens: u32, cacheCreationInputTokens: u32, cacheReadInputTokens: u32, outputTokens: u32)

  /** A tool's `input` value: the empty object, or some other value with its serialised text. */
  datatype ToolInput = EmptyObject | Value(text: string)

  datatype Block =
    | Text(text: string)
    | ToolUse(id: string, name: string, input: ToolInput)
    | Thinking(thinking: string, signature: Option<string>)
    | RedactedThinking

  datatype Delta =
    | TextDelta(text: string)
    | InputJsonDelta(partialJson: string)
    | ThinkingDelta(thinking: string)
    | SignatureDelta(signature: string)

  datatype Message = Message(id: string, role: string, model: string, content: seq<Block>, usage: Usage)

  datatype StreamEvent =
    | MessageStart(message: Message)
    | ContentBlockStart(index: u32, block: Block)
    | ContentBlockDelta(index: u32, delta: Delta)
    | ContentBlockStop(index: u32)
    | MessageDelta(stopReason: Option<string>, usage: Usage)
    | MessageStop

  /** `serde_json` on stream events.  What the models need of it is `Lawful`. */
  datatype Json = Json(encode: StreamEvent -> string, decode: string -> Option<StreamEvent>)
  {
    /** Parsing undoes printing; printed events are one-line objects. */
    ghost predicate Lawful()
    {
      forall e :: decode(encode(e)) == Some(e) && IsObjectLine(encode(e))
    }
  }

  predicate IsObjectLine(s: string)
  {
    |s| >= 2 && s[0] == '{' && s[|s| - 1] == '}' && '\n' !in s && '\r' !in s
  }
}
