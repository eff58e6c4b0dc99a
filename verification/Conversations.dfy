/** Chat messages in the two formats the proxy translates between, and the call and result ids in them. */
module Conversations {
  import opened Options
  import opened Sequences

  datatype Json =
    | JNull
    | JBool(b: bool)
    | JNumber(digits: string)
    | JString(s: string)
    | JArray(items: seq<Json>)
    | JObject(fields: seq<(string, Json)>)

  /** What a tool returned: a string, or blocks of which only the text ones matter (`None` for any other). */
  datatype ToolOutput = Plain(text: string) | Parts(parts: seq<Option<string>>)

  /** A content block. A missing id and an empty id are treated alike throughout, so "" stands for both. */
  datatype Block =
    | Text(text: string)
    | ToolUse(id: string, name: string, input: Json)
    | ToolResult(toolUseId: string, output: ToolOutput)
    | Thinking(thought: string)
    | OtherBlock(raw: Json)

  /** Message content; `Rendered` is anything but a string or a list, as `str` shows it ("" when falsy). */
  datatype Content = Str(text: string) | Blocks(blocks: seq<Block>) | Rendered(text: string)

  datatype ToolCall = ToolCall(id: string, name: string, arguments: string)

  datatype Message =
    | Message(role: string, content: Content, toolCalls: Option<seq<ToolCall>>, toolCallId: string)
    | NotAMessage(raw: Json)

  predicate HasRole(m: Message, role: string) { m.Message? && m.role == role }

  predicate HasBlocks(m: Message) { m.Message? && m.content.Blocks? }

  function UseOf(b: Block): seq<string> { if b.ToolUse? then [b.id] else [] }

  function RefOf(b: Block): seq<string> { if b.ToolResult? then [b.toolUseId] else [] }

  function UsesIn(m: Message): seq<string> {
    if HasRole(m, "assistant") && HasBlocks(m) then FlatMap(UseOf, m.content.blocks) else []
  }

  function RefsIn(m: Message): seq<string> {
    if HasBlocks(m) then FlatMap(RefOf, m.content.blocks) else []
  }

  /** The ids of all assistant tool_use blocks, in order. */
  function UseIds(ms: seq<Message>): seq<string> { FlatMap(UsesIn, ms) }

  function IdOf(tc: ToolCall): seq<string> { [tc.id] }

  /** The ids of a message's OpenAI-style tool calls. */
  function CallsIn(m: Message): seq<string> {
    if HasRole(m, "assistant") && m.toolCalls.Some? then FlatMap(IdOf, m.toolCalls.value) else []
  }

  /** The ids that tool_result blocks refer to, in order. */
  function RefIds(ms: seq<Message>): seq<string> { FlatMap(RefsIn, ms) }

  /** Every call has a result somewhere. */
  predicate AllAnswered(ms: seq<Message>) {
    forall id :: id in UseIds(ms) ==> id != "" && id in RefIds(ms)
  }
}
