/** The message loops of the converter (routing/convert.py). */
module Converters {
  import opened Options
  import opened Sequences
  import opened Conversations
  import opened Convert

  method AnthropicToOpenAIRequest(dumps: Json -> string, system: ToolOutput, messages: seq<Message>)
    returns (out: seq<OutMessage>)
    ensures out == RequestMessages(dumps, system, messages)
  {
    out := [];
    if OutputText(system) != "" {
      out := [System(OutputText(system))];
    }
    ghost var prompt := out;
    for i := 0 to |messages|
      invariant out == prompt + ConvertMessages(dumps, messages[..i])
    {
      FlatMapUpTo(ConvertMessage(dumps), messages, i);
      var more := ConvertOne(dumps, messages[i]);
      Reassociate(prompt, ConvertMessages(dumps, messages[..i]), more);
      out := out + more;
    }
    assert messages[..|messages|] == messages;
  }

  /** The messages that one message becomes. */
  method ConvertOne(dumps: Json -> string, m: Message) returns (out: seq<OutMessage>)
    ensures out == ConvertMessage(dumps)(m)
  {
    if m.NotAMessage? {
      return [];
    }
    if m.role == "assistant" {
      var converted := ConvertAssistantMessage(dumps, m.content);
      return [converted];
    }
    if m.role == "user" {
      out := ConvertUserMessage(m.content);
      return;
    }
    return [Unchanged(m)];
  }

  method ConvertAssistantMessage(dumps: Json -> string, content: Content) returns (out: OutMessage)
    ensures out == AssistantOf(dumps, content)
  {
    if !content.Blocks? {
      return Assistant(Some(content.text), []);
    }
    var bs := content.blocks;
    var textParts: seq<string>, toolCalls: seq<ToolCall> := [], [];
    for i := 0 to |bs|
      invariant textParts == FlatMap(TextOf, bs[..i]) && toolCalls == FlatMap(CallOf(dumps), bs[..i])
    {
      FlatMapUpTo(TextOf, bs, i);
      FlatMapUpTo(CallOf(dumps), bs, i);
      match bs[i]
      case Text(text) => textParts := textParts + [text];
      case ToolUse(id, name, input) => toolCalls := toolCalls + [ToolCall(id, name, dumps(input))];
      case _ =>
    }
    assert bs[..|bs|] == bs;
    return Assistant(if textParts != [] then Some(Join("\n", textParts)) else None, toolCalls);
  }

  method ConvertUserMessage(content: Content) returns (out: seq<OutMessage>)
    ensures out == UserOf(content)
  {
    if !content.Blocks? {
      return [User(content.text)];
    }
    var bs := content.blocks;
    var toolMessages: seq<OutMessage>, textParts: seq<string> := [], [];
    for i := 0 to |bs|
      invariant toolMessages == FlatMap(ToolOf, bs[..i]) && textParts == FlatMap(TextOf, bs[..i])
    {
      FlatMapUpTo(ToolOf, bs, i);
      FlatMapUpTo(TextOf, bs, i);
      match bs[i]
      case ToolResult(id, output) => toolMessages := toolMessages + [Tool(id, OutputText(output))];
      case Text(text) => textParts := textParts + [text];
      case _ =>
    }
    assert bs[..|bs|] == bs;
    out := toolMessages;
    if textParts != [] {
      out := out + [User(Join("\n", textParts))];
    } else if toolMessages == [] {
      out := out + [User("")];
    }
  }

  method ChoiceToBlocks(loads: string -> Option<Json>, choice: Choice) returns (blocks: seq<Block>)
    ensures blocks == BlocksOfChoice(loads)(choice)
  {
    blocks := [];
    if choice.content.Some? && choice.content.value != "" {
      blocks := [Text(choice.content.value)];
    }
    ghost var texts := blocks;
    for j := 0 to |choice.calls|
      invariant blocks == texts + FlatMap(UseOfCall(loads), choice.calls[..j])
    {
      FlatMapUpTo(UseOfCall(loads), choice.calls, j);
      var tc := choice.calls[j];
      var input := loads(tc.arguments);
      blocks := blocks + [ToolUse(tc.id, tc.name, if input.Some? then input.value else JObject([]))];
    }
    assert choice.calls[..|choice.calls|] == choice.calls;
  }

  method OpenAIToAnthropicResponse(loads: string -> Option<Json>, choices: seq<Choice>)
    returns (blocks: seq<Block>, stopReason: string)
    ensures blocks == ResponseBlocks(loads, choices) && stopReason == StopReason(choices)
  {
    blocks, stopReason := [], "end_turn";
    for i := 0 to |choices|
      invariant blocks == FlatMap(BlocksOfChoice(loads), choices[..i]) && stopReason == StopReason(choices[..i])
    {
      FlatMapUpTo(BlocksOfChoice(loads), choices, i);
      assert choices[..i + 1][..i] == choices[..i];
      var choice := choices[i];
      var more := ChoiceToBlocks(loads, choice);
      blocks := blocks + more;
      if choice.finishReason == "tool_calls" {
        stopReason := "tool_use";
      } else if choice.finishReason == "length" {
        stopReason := "max_tokens";
      } else if choice.finishReason == "stop" {
        stopReason := "end_turn";
      }
    }
    assert choices[..|choices|] == choices;
    if blocks == [] {
      blocks := [Text("")];
    }
  }
}
