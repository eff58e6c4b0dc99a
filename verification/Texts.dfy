/** The text that requests and responses carry, apart from calls (routing/convert.py). */
module Texts {
  import opened Options
  import opened Sequences
  import opened Conversations
  import opened Convert

  // ---------- reference definitions ----------

  /** Parts with one separator between any two. */
  function Spelled(separator: char, parts: seq<string>): string {
    if parts == [] then ""
    else if |parts| == 1 then parts[0]
    else Spelled(separator, parts[..|parts| - 1]) + [separator] + parts[|parts| - 1]
  }

  function TextsIn(bs: seq<Block>): seq<string> {
    if bs == [] then [] else if bs[0].Text? then [bs[0].text] + TextsIn(bs[1..]) else TextsIn(bs[1..])
  }

  function PartsIn(parts: seq<Option<string>>): seq<string> {
    if parts == [] then []
    else if parts[0].Some? then [parts[0].value] + PartsIn(parts[1..])
    else PartsIn(parts[1..])
  }

  predicate HasResult(bs: seq<Block>) { exists i :: 0 <= i < |bs| && bs[i].ToolResult? }

  /** What a tool's output, or a prompt, says: the string, or its text parts with a space between. */
  function OutputSays(o: ToolOutput): string {
    match o
    case Plain(text) => text
    case Parts(parts) => Spelled(' ', PartsIn(parts))
  }

  /** Who says what in a message, in the converter's eyes: a string as it is, blocks of text on lines of their own. A
      user message with neither text nor results says nothing aloud; an assistant message without text has none. */
  function Says(m: Message): seq<(string, Option<string>)> {
    if !m.Message? || (m.role != "user" && m.role != "assistant") then []
    else match m.content
      case Str(text) => [(m.role, Some(text))]
      case Rendered(text) => [(m.role, Some(text))]
      case Blocks(bs) =>
        if TextsIn(bs) != [] then [(m.role, Some(Spelled('\n', TextsIn(bs))))]
        else if m.role == "assistant" then [(m.role, None)]
        else if HasResult(bs) then []
        else [(m.role, Some(""))]
  }

  /** Who says what in a message of the request; tool messages and those passed on apart. */
  function Said(o: OutMessage): seq<(string, Option<string>)> {
    match o
    case System(text) => [("system", Some(text))]
    case Assistant(content, _) => [("assistant", content)]
    case User(text) => [("user", Some(text))]
    case Tool(_, _) => []
    case Unchanged(_) => []
  }

  // ---------- the converter against them ----------

  lemma {:induction false} JoinSnoc(separator: string, parts: seq<string>, last: string)
    requires parts != []
    ensures Join(separator, parts + [last]) == Join(separator, parts) + separator + last
  {
    var all := parts + [last];
    if |parts| == 1 {
      assert all[1..] == [last];
    } else {
      JoinSnoc(separator, parts[1..], last);
      assert all[1..] == parts[1..] + [last];
      JoinedAlong(parts[0], separator, Join(separator, parts[1..]), last);
    }
  }

  lemma JoinedAlong(a: string, separator: string, b: string, last: string)
    ensures a + separator + (b + separator + last) == a + separator + b + separator + last
  {
  }

  lemma {:induction false} JoinSpells(separator: char, parts: seq<string>)
    ensures Join([separator], parts) == Spelled(separator, parts)
  {
    if |parts| > 1 {
      JoinSpells(separator, parts[..|parts| - 1]);
      JoinSnoc([separator], parts[..|parts| - 1], parts[|parts| - 1]);
      SplitLast(parts);
    }
  }

  lemma {:induction false} TextsAreIn(bs: seq<Block>)
    ensures FlatMap(TextOf, bs) == TextsIn(bs)
  {
    if bs != [] {
      TextsAreIn(bs[1..]);
    }
  }

  lemma {:induction false} PartsAreIn(parts: seq<Option<string>>)
    ensures FlatMap(PartText, parts) == PartsIn(parts)
  {
    if parts != [] {
      PartsAreIn(parts[1..]);
    }
  }

  /** A tool's output reaches the request as the string it is, or as its text parts with one space between. */
  lemma OutputIsSaid(o: ToolOutput)
    ensures OutputText(o) == OutputSays(o)
  {
    if o.Parts? {
      PartsAreIn(o.parts);
      JoinSpells(' ', PartsIn(o.parts));
    }
  }

  lemma {:induction false} ToolsAreSilent(bs: seq<Block>)
    ensures FlatMap(Said, FlatMap(ToolOf, bs)) == []
    ensures FlatMap(ToolOf, bs) == [] <==> !HasResult(bs)
    ensures forall i :: 0 <= i < |FlatMap(ToolOf, bs)| ==> FlatMap(ToolOf, bs)[i].Tool?
  {
    if bs != [] {
      ToolsAreSilent(bs[1..]);
      FlatMapConcat(Said, ToolOf(bs[0]), FlatMap(ToolOf, bs[1..]));
      if bs[0].ToolResult? {
        FlatMapFew(Said, ToolOf(bs[0])[0], ToolOf(bs[0])[0]);
        assert HasResult(bs);
      } else if HasResult(bs) {
        var i :| 0 <= i < |bs| && bs[i].ToolResult?;
        assert bs[1..][i - 1] == bs[i];
      }
    }
  }

  /** What a user writes comes last, in one message, after the tool messages that its results become. */
  lemma UserIsSaid(content: Content)
    ensures FlatMap(Said, UserOf(content)) == Says(Message("user", content, None, ""))
    ensures forall i :: 0 <= i < |UserOf(content)| - 1 ==> UserOf(content)[i].Tool?
  {
    if content.Blocks? {
      var bs := content.blocks;
      var tools, texts := FlatMap(ToolOf, bs), FlatMap(TextOf, bs);
      TextsAreIn(bs);
      ToolsAreSilent(bs);
      JoinSpells('\n', texts);
      var user := User(if texts != [] then Join("\n", texts) else "");
      FlatMapSnoc(Said, tools, user);
      assert UserOf(content) == tools || UserOf(content) == tools + [user];
    } else {
      FlatMapFew(Said, User(content.text), User(content.text));
    }
  }

  lemma AssistantIsSaid(dumps: Json -> string, content: Content)
    ensures FlatMap(Said, [AssistantOf(dumps, content)]) == Says(Message("assistant", content, None, ""))
  {
    var o := AssistantOf(dumps, content);
    FlatMapFew(Said, o, o);
    if content.Blocks? {
      TextsAreIn(content.blocks);
      JoinSpells('\n', TextsIn(content.blocks));
    }
  }

  lemma MessageIsSaid(dumps: Json -> string, m: Message)
    ensures FlatMap(Said, ConvertMessage(dumps)(m)) == Says(m)
  {
    if HasRole(m, "assistant") {
      AssistantIsSaid(dumps, m.content);
    } else if HasRole(m, "user") {
      UserIsSaid(m.content);
    } else if m.Message? {
      FlatMapFew(Said, Unchanged(m), Unchanged(m));
    }
  }

  /** What a request says, in the order of the conversation and after the prompt, which is there unless it is empty. */
  lemma RequestSays(dumps: Json -> string, system: ToolOutput, ms: seq<Message>)
    ensures FlatMap(Said, RequestMessages(dumps, system, ms))
         == (if OutputSays(system) != "" then [("system", Some(OutputSays(system)))] else []) + FlatMap(Says, ms)
    ensures OutputSays(system) != "" ==> RequestMessages(dumps, system, ms)[0] == System(OutputSays(system))
  {
    OutputIsSaid(system);
    forall m ensures FlatMap(Said, ConvertMessage(dumps)(m)) == Says(m) {
      MessageIsSaid(dumps, m);
    }
    FlatMapTwice(Said, ConvertMessage(dumps), Says, ms);
    var prompt := System(OutputText(system));
    FlatMapConcat(Said, [prompt], ConvertMessages(dumps, ms));
    FlatMapFew(Said, prompt, prompt);
    assert [] + FlatMap(Says, ms) == FlatMap(Says, ms) && [] + ConvertMessages(dumps, ms) == ConvertMessages(dumps, ms);
  }

  // ---------- responses ----------

  /** What a choice of the response contributes: its text unless empty, then one block for each call, with its id, name
      and decoded arguments. */
  predicate Contributes(loads: string -> Option<Json>, c: Choice, bs: seq<Block>) {
    var n := if c.content.Some? && c.content.value != "" then 1 else 0;
    && |bs| == n + |c.calls|
    && (n == 1 ==> bs[0] == Text(c.content.value))
    && forall k :: 0 <= k < |c.calls| ==>
         && bs[n + k].ToolUse? && bs[n + k].id == c.calls[k].id && bs[n + k].name == c.calls[k].name
         && match loads(c.calls[k].arguments)
            case Some(input) => bs[n + k].input == input
            case None => bs[n + k].input == JObject([])
  }

  lemma {:induction false} CallsAreBlocks(loads: string -> Option<Json>, calls: seq<ToolCall>)
    ensures |FlatMap(UseOfCall(loads), calls)| == |calls|
    ensures forall k :: 0 <= k < |calls| ==> FlatMap(UseOfCall(loads), calls)[k] == UseOfCall(loads)(calls[k])[0]
  {
    if calls != [] {
      CallsAreBlocks(loads, calls[1..]);
    }
  }

  lemma ChoiceContributes(loads: string -> Option<Json>, c: Choice)
    ensures Contributes(loads, c, BlocksOfChoice(loads)(c))
  {
    CallsAreBlocks(loads, c.calls);
  }

  /** The response is made of its choices in order; a response of nothing is one empty text. */
  lemma ResponseIsContributed(loads: string -> Option<Json>, choices: seq<Choice>)
    ensures var parts := Map(BlocksOfChoice(loads), choices);
            && (forall i :: 0 <= i < |choices| ==> Contributes(loads, choices[i], parts[i]))
            && ResponseBlocks(loads, choices) == if Concat(parts) == [] then [Text("")] else Concat(parts)
  {
    forall i | 0 <= i < |choices| ensures Contributes(loads, choices[i], BlocksOfChoice(loads)(choices[i])) {
      ChoiceContributes(loads, choices[i]);
    }
    ConcatIsFlat(BlocksOfChoice(loads), choices);
  }

  function Concat<A>(parts: seq<seq<A>>): seq<A> { if parts == [] then [] else parts[0] + Concat(parts[1..]) }

  lemma {:induction false} ConcatIsFlat<A, B>(f: A -> seq<B>, xs: seq<A>)
    ensures Concat(Map(f, xs)) == FlatMap(f, xs)
  {
    if xs != [] {
      ConcatIsFlat(f, xs[1..]);
    }
  }

  /** The stop reason that a finish reason stands for, if it is known. */
  function Meaning(finish: string): Option<string> {
    if finish == "stop" then Some("end_turn")
    else if finish == "length" then Some("max_tokens")
    else if finish == "tool_calls" then Some("tool_use")
    else None
  }

  /** No choice among these has a known finish reason. */
  predicate Unknown(choices: seq<Choice>) { forall k :: 0 <= k < |choices| ==> IsUnknown(choices[k]) }

  predicate IsUnknown(c: Choice) { Meaning(c.finishReason).None? }

  /** The last known finish reason decides. */
  lemma {:induction false} LastFinishDecides(choices: seq<Choice>, k: nat)
    requires k < |choices| && !IsUnknown(choices[k]) && Unknown(choices[k + 1..])
    ensures Meaning(choices[k].finishReason) == Some(StopReason(choices))
    decreases |choices|
  {
    var n := |choices| - 1;
    if k < n {
      assert choices[n] == choices[k + 1..][n - k - 1];
      assert IsUnknown(choices[n]);
      assert choices[..n][k + 1..] == choices[k + 1..][..n - k - 1];
      LastFinishDecides(choices[..n], k);
    }
  }

  /** Without a known finish reason the turn has ended. */
  lemma {:induction false} UnknownFinishEndsTurn(choices: seq<Choice>)
    requires Unknown(choices)
    ensures StopReason(choices) == "end_turn"
  {
    var n := |choices| - 1;
    if n >= 0 {
      assert IsUnknown(choices[n]);
      UnknownFinishEndsTurn(choices[..n]);
    }
  }
}
