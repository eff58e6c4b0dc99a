/** Anthropic messages to OpenAI messages and OpenAI responses back (routing/convert.py). */
module Convert {
  import opened Options
  import opened Sequences
  import opened Conversations
  import opened Renamings
  import opened ProxyIds
  import opened Sanitize

  /** A message of the outgoing request. */
  datatype OutMessage =
    | System(text: string)
    | Assistant(content: Option<string>, calls: seq<ToolCall>)
    | Tool(callId: string, output: string)
    | User(text: string)
    | Unchanged(message: Message)

  function Join(separator: string, parts: seq<string>): string {
    if parts == [] then ""
    else if |parts| == 1 then parts[0]
    else parts[0] + separator + Join(separator, parts[1..])
  }

  function TextOf(b: Block): seq<string> { if b.Text? then [b.text] else [] }

  /** `dumps` is the JSON encoder. */
  function CallOf(dumps: Json -> string): Block -> seq<ToolCall> {
    (b: Block) => if b.ToolUse? then [ToolCall(b.id, b.name, dumps(b.input))] else []
  }

  function PartText(part: Option<string>): seq<string> { if part.Some? then [part.value] else [] }

  function OutputText(o: ToolOutput): string {
    match o
    case Plain(text) => text
    case Parts(parts) => Join(" ", FlatMap(PartText, parts))
  }

  function ToolOf(b: Block): seq<OutMessage> {
    if b.ToolResult? then [Tool(b.toolUseId, OutputText(b.output))] else []
  }

  function AssistantOf(dumps: Json -> string, content: Content): OutMessage {
    match content
    case Str(text) => Assistant(Some(text), [])
    case Rendered(text) => Assistant(Some(text), [])
    case Blocks(bs) =>
      var texts := FlatMap(TextOf, bs);
      Assistant(if texts != [] then Some(Join("\n", texts)) else None, FlatMap(CallOf(dumps), bs))
  }

  /** Tool results first; the text, if any, after them; an empty message rather than none. */
  function UserOf(content: Content): seq<OutMessage> {
    match content
    case Str(text) => [User(text)]
    case Rendered(text) => [User(text)]
    case Blocks(bs) =>
      var tools, texts := FlatMap(ToolOf, bs), FlatMap(TextOf, bs);
      tools + if texts != [] then [User(Join("\n", texts))] else if tools == [] then [User("")] else []
  }

  function ConvertMessage(dumps: Json -> string): Message -> seq<OutMessage> {
    (m: Message) =>
      if m.NotAMessage? then []
      else if m.role == "assistant" then [AssistantOf(dumps, m.content)]
      else if m.role == "user" then UserOf(m.content)
      else [Unchanged(m)]
  }

  function ConvertMessages(dumps: Json -> string, ms: seq<Message>): seq<OutMessage> {
    FlatMap(ConvertMessage(dumps), ms)
  }

  /** The messages of the request; the system prompt comes first, unless it is empty. */
  function RequestMessages(dumps: Json -> string, system: ToolOutput, ms: seq<Message>): seq<OutMessage> {
    (if OutputText(system) != "" then [System(OutputText(system))] else []) + ConvertMessages(dumps, ms)
  }

  // ---------- calls and results survive the conversion ----------

  function CallIdsIn(o: OutMessage): seq<string> { if o.Assistant? then FlatMap(IdOf, o.calls) else [] }

  function ResultIdsIn(o: OutMessage): seq<string> { if o.Tool? then [o.callId] else [] }

  function PassedIdsIn(o: OutMessage): seq<string> { if o.Unchanged? then ResponseOf(o.message) else [] }

  /** The ids under which the request makes tool calls, those that its tool messages made from results answer, and those
      that tool messages passed on as they were answer, each in order. */
  function CallIds(os: seq<OutMessage>): seq<string> { FlatMap(CallIdsIn, os) }

  function ResultIds(os: seq<OutMessage>): seq<string> { FlatMap(ResultIdsIn, os) }

  function PassedIds(os: seq<OutMessage>): seq<string> { FlatMap(PassedIdsIn, os) }

  /** What OpenAI demands: every tool call has a tool message. */
  predicate WellPaired(os: seq<OutMessage>) {
    forall id :: id in CallIds(os) ==> id in ResultIds(os) || id in PassedIds(os)
  }

  function UserRefsIn(m: Message): seq<string> { if HasRole(m, "user") then RefsIn(m) else [] }

  /** The ids that the results in user messages refer to; the converter reads no others. */
  function UserRefs(ms: seq<Message>): seq<string> { FlatMap(UserRefsIn, ms) }

  lemma {:induction false} BlocksConvert(dumps: Json -> string, bs: seq<Block>)
    ensures FlatMap(IdOf, FlatMap(CallOf(dumps), bs)) == FlatMap(UseOf, bs)
    ensures CallIds(FlatMap(ToolOf, bs)) == [] && PassedIds(FlatMap(ToolOf, bs)) == []
    ensures ResultIds(FlatMap(ToolOf, bs)) == FlatMap(RefOf, bs)
  {
    if bs != [] {
      var first, rest := ToolOf(bs[0]), FlatMap(ToolOf, bs[1..]);
      BlocksConvert(dumps, bs[1..]);
      FlatMapConcat(IdOf, CallOf(dumps)(bs[0]), FlatMap(CallOf(dumps), bs[1..]));
      FlatMapConcat(CallIdsIn, first, rest);
      FlatMapConcat(ResultIdsIn, first, rest);
      FlatMapConcat(PassedIdsIn, first, rest);
    }
  }

  lemma IdsOfOne(o: OutMessage)
    ensures CallIds([o]) == CallIdsIn(o) && ResultIds([o]) == ResultIdsIn(o) && PassedIds([o]) == PassedIdsIn(o)
  {
    FlatMapFew(CallIdsIn, o, o);
    FlatMapFew(ResultIdsIn, o, o);
    FlatMapFew(PassedIdsIn, o, o);
  }

  lemma IdsConcat(a: seq<OutMessage>, b: seq<OutMessage>)
    ensures CallIds(a + b) == CallIds(a) + CallIds(b) && ResultIds(a + b) == ResultIds(a) + ResultIds(b)
    ensures PassedIds(a + b) == PassedIds(a) + PassedIds(b)
  {
    FlatMapConcat(CallIdsIn, a, b);
    FlatMapConcat(ResultIdsIn, a, b);
    FlatMapConcat(PassedIdsIn, a, b);
  }

  lemma UserConverts(dumps: Json -> string, content: Content)
    ensures CallIds(UserOf(content)) == [] && PassedIds(UserOf(content)) == []
    ensures ResultIds(UserOf(content)) == if content.Blocks? then FlatMap(RefOf, content.blocks) else []
  {
    if content.Blocks? {
      var bs := content.blocks;
      BlocksConvert(dumps, bs);
      var tail := if FlatMap(TextOf, bs) != [] then [User(Join("\n", FlatMap(TextOf, bs)))]
                  else if FlatMap(ToolOf, bs) == [] then [User("")] else [];
      IdsConcat(FlatMap(ToolOf, bs), tail);
      if tail != [] {
        IdsOfOne(tail[0]);
      }
    } else {
      IdsOfOne(User(content.text));
    }
  }

  lemma AssistantConverts(dumps: Json -> string, content: Content)
    ensures CallIds([AssistantOf(dumps, content)]) == if content.Blocks? then FlatMap(UseOf, content.blocks) else []
    ensures ResultIds([AssistantOf(dumps, content)]) == [] && PassedIds([AssistantOf(dumps, content)]) == []
  {
    IdsOfOne(AssistantOf(dumps, content));
    if content.Blocks? {
      BlocksConvert(dumps, content.blocks);
    }
  }

  lemma MessageConverts(dumps: Json -> string, m: Message)
    ensures var os := ConvertMessage(dumps)(m);
            CallIds(os) == UsesIn(m) && ResultIds(os) == UserRefsIn(m) && PassedIds(os) == ResponseOf(m)
  {
    if HasRole(m, "assistant") {
      AssistantConverts(dumps, m.content);
    } else if HasRole(m, "user") {
      UserConverts(dumps, m.content);
    } else if m.Message? {
      IdsOfOne(Unchanged(m));
    }
  }

  /** The conversion emits the calls of the assistant messages, the results of the user messages and the tool messages
      that are there already, each in order and each once. */
  lemma {:induction false} ConversionKeepsIds(dumps: Json -> string, ms: seq<Message>)
    ensures CallIds(ConvertMessages(dumps, ms)) == UseIds(ms)
    ensures ResultIds(ConvertMessages(dumps, ms)) == UserRefs(ms)
    ensures PassedIds(ConvertMessages(dumps, ms)) == Responses(ms)
  {
    if ms != [] {
      ConversionKeepsIds(dumps, ms[1..]);
      MessageConverts(dumps, ms[0]);
      IdsConcat(ConvertMessage(dumps)(ms[0]), ConvertMessages(dumps, ms[1..]));
    }
  }

  // ---------- repair, then convert ----------

  lemma RenamedUserRefs(renaming: map<string, string>, m: Message)
    ensures UserRefsIn(RenameRefsIn(renaming, m)) == Map(RenameWith(renaming), UserRefsIn(m))
  {
    if HasBlocks(m) {
      RenameRefsBlocksIds(renaming, m.content.blocks);
    }
  }

  lemma SplitUserRefs(m: Message)
    ensures FlatMap(UserRefsIn, SplitMessage(m)) == UserRefsIn(m)
  {
    SplitMessageIds(m);
    if IsMixed(m) {
      FlatMapFew(UserRefsIn, SplitMessage(m)[0], SplitMessage(m)[1]);
      FlatMapFew(RefsIn, SplitMessage(m)[0], SplitMessage(m)[1]);
    } else {
      FlatMapFew(UserRefsIn, m, m);
    }
  }

  /** The repair renames the references of user messages, and moves none in or out. */
  lemma RepairUserRefs(ms: seq<Message>)
    ensures UserRefs(Repair(ms)) == RenamedRefs(ToolIds(), Surviving(ms), UserRefs(ms))
  {
    var renaming := Renaming(ToolIds(), Surviving(ms));
    forall m ensures UserRefsIn(RenameRefsIn(renaming, m)) == Map(RenameWith(renaming), UserRefsIn(m)) {
      RenamedUserRefs(renaming, m);
    }
    forall m ensures FlatMap(UserRefsIn, SplitMessage(m)) == UserRefsIn(m) {
      SplitUserRefs(m);
    }
    RepairKeepsOthers(UserRefsIn, RenameWith(renaming), ms);
  }

  lemma PromptHasNoIds(dumps: Json -> string, system: ToolOutput, ms: seq<Message>)
    ensures var os, converted := RequestMessages(dumps, system, ms), ConvertMessages(dumps, ms);
            CallIds(os) == CallIds(converted) && ResultIds(os) == ResultIds(converted)
            && PassedIds(os) == PassedIds(converted)
  {
    var prompt, rest := System(OutputText(system)), ConvertMessages(dumps, ms);
    IdsConcat([prompt], rest);
    IdsOfOne(prompt);
    assert [] + rest == rest;
  }

  /** The new id of surviving call `k` stands in a user's result or in a tool message already, or is what the id of such
      a result is renamed to. */
  predicate HasAnswer(ms: seq<Message>, k: nat)
    requires k < |Surviving(ms)|
  {
    var id := NewIds(ToolIds(), Surviving(ms))[k];
    id in UserRefs(ms) || id in Responses(ms) || RenamedTo(ToolIds(), Surviving(ms), UserRefs(ms), id)
  }

  /** Of surviving calls that share an id that gets renamed, all but the last have a result or a tool message already
      under their new name. */
  predicate SharedHaveAnswers(ms: seq<Message>) {
    SharedAreCovered(ToolIds(), Surviving(ms), RefIds(ms) + Responses(ms))
  }

  /** Neither a result nor a tool message already bears one of the names that the repair hands out. */
  predicate NewNamesAreUnused(ms: seq<Message>) { Untaken(ToolIds(), Surviving(ms), RefIds(ms) + Responses(ms)) }

  /** The ids of the request that a repaired conversation converts to. */
  lemma RepairedRequestIds(dumps: Json -> string, system: ToolOutput, ms: seq<Message>)
    ensures var os := RequestMessages(dumps, system, Repair(ms));
            && CallIds(os) == NewIds(ToolIds(), Surviving(ms))
            && ResultIds(os) == RenamedRefs(ToolIds(), Surviving(ms), UserRefs(ms))
            && PassedIds(os) == Responses(ms)
  {
    RepairIds(ms);
    RepairUserRefs(ms);
    RepairKeepsAnsweredCalls(ms);
    ConversionKeepsIds(dumps, Repair(ms));
    PromptHasNoIds(dumps, system, Repair(ms));
  }

  lemma AnsweredAt(ms: seq<Message>, k: nat)
    requires k < |Surviving(ms)|
    ensures IsBorne(ToolIds(), Surviving(ms), UserRefs(ms), Responses(ms), NewIds(ToolIds(), Surviving(ms))[k]) <==>
            HasAnswer(ms, k)
  {
    var ids := Surviving(ms);
    ToolIdsAreFresh();
    NewIdsAreNative(ToolIds(), ids, NewIds(ToolIds(), ids)[k]);
    NativeReferred(ToolIds(), ids, UserRefs(ms), NewIds(ToolIds(), ids)[k]);
  }

  /** Repaired and converted, any conversation makes its surviving calls and gives its results and tool messages, each
      in order; every call has a tool message exactly when each surviving call has an answer. Where every result stands
      in a user message, that is when the calls that share a renamed id have answers under their new names; and where
      no result and no tool message bears such a name, when none share one. */
  lemma RepairedRequestIsWellPaired(dumps: Json -> string, system: ToolOutput, ms: seq<Message>)
    ensures var os := RequestMessages(dumps, system, Repair(ms));
            && CallIds(os) == UseIds(Repair(ms)) && ResultIds(os) == UserRefs(Repair(ms))
            && PassedIds(os) == Responses(ms)
            && (WellPaired(os) <==> forall k :: 0 <= k < |Surviving(ms)| ==> HasAnswer(ms, k))
            && (UserRefs(ms) == RefIds(ms) ==> (WellPaired(os) <==> SharedHaveAnswers(ms)))
            && (UserRefs(ms) == RefIds(ms) && NewNamesAreUnused(ms) ==> (WellPaired(os) <==> RenamedAreDistinct(ms)))
  {
    RepairedRequestIds(dumps, system, ms);
    RepairIds(ms);
    RepairUserRefs(ms);
    PairedWhenBorne(dumps, system, ms);
    var s, ids, refs, others := ToolIds(), Surviving(ms), UserRefs(ms), Responses(ms);
    forall k | 0 <= k < |ids| ensures IsBorne(s, ids, refs, others, NewIds(s, ids)[k]) <==> HasAnswer(ms, k) {
      AnsweredAt(ms, k);
    }
    if refs == RefIds(ms) {
      ToolIdsAreFresh();
      SurvivingAreReferred(ms);
      ReferredUnlessShared(s, ids, refs, others);
    }
  }

  lemma PairedWhenBorne(dumps: Json -> string, system: ToolOutput, ms: seq<Message>)
    ensures var s, ids := ToolIds(), Surviving(ms);
            WellPaired(RequestMessages(dumps, system, Repair(ms))) <==>
            forall id :: id in NewIds(s, ids) ==> IsBorne(s, ids, UserRefs(ms), Responses(ms), id)
  {
    RepairedRequestIds(dumps, system, ms);
  }

  /** Two calls under one id that gets renamed, one result for both, and a tool message that bears the first name. */
  function SharedAndStray(id: string): seq<Message> {
    var call := ToolUse(id, "f", JNull);
    [Message("assistant", Blocks([call, call]), None, ""), UserMessage([ToolResult(id, Plain(""))]),
     Message("tool", Str(""), None, ProxyId(1))]
  }

  lemma SharedAndStrayIds(id: string)
    ensures var ms := SharedAndStray(id);
            UseIds(ms) == [id, id] && RefIds(ms) == [id] && UserRefs(ms) == [id] && Responses(ms) == [ProxyId(1)]
  {
    var ms := SharedAndStray(id);
    var call, result := ms[0].content.blocks[0], ms[1].content.blocks[0];
    assert ms == [ms[0], ms[1]] + [ms[2]];
    FlatMapFew(UseOf, call, call);
    FlatMapFew(RefOf, call, call);
    FlatMapFew(RefOf, result, result);
    FlatMapSnoc(UsesIn, [ms[0], ms[1]], ms[2]);
    FlatMapFew(UsesIn, ms[0], ms[1]);
    FlatMapSnoc(RefsIn, [ms[0], ms[1]], ms[2]);
    FlatMapFew(RefsIn, ms[0], ms[1]);
    FlatMapSnoc(UserRefsIn, [ms[0], ms[1]], ms[2]);
    FlatMapFew(UserRefsIn, ms[0], ms[1]);
    FlatMapSnoc(ResponseOf, [ms[0], ms[1]], ms[2]);
    FlatMapFew(ResponseOf, ms[0], ms[1]);
  }

  lemma NewIdsOfPair(s: Scheme, id: string)
    requires s.foreign(id)
    ensures NewIds(s, [id, id]) == [s.newId(1), s.newId(2)] && LastIndex([id, id], id) == 1
  {
    CountSnoc(s, [], id);
    CountSnoc(s, [id], id);
    assert [] + [id] == [id] && [id] + [id] == [id, id];
  }

  lemma PairIsAnswered(s: Scheme, id: string)
    requires s.foreign(id)
    ensures NewIds(s, [id, id])[0] in [s.newId(1)] && RenamedTo(s, [id, id], [id], NewIds(s, [id, id])[1])
  {
    NewIdsOfPair(s, id);
    assert [id, id][1] in [id];
  }

  /** The repair leaves one of the two calls without its result; yet in the request every call has a tool message. */
  lemma StrayToolMessageAnswers(dumps: Json -> string, system: ToolOutput, id: string)
    requires Foreign(id)
    ensures !AllAnswered(Repair(SharedAndStray(id)))
    ensures WellPaired(RequestMessages(dumps, system, Repair(SharedAndStray(id))))
  {
    var ms := SharedAndStray(id);
    SharedAndStrayIds(id);
    FilterAll(Answered(RefIds(ms)), UseIds(ms));
    SharedIdLosesAnAnswer(ms, id);
    PairIsAnswered(ToolIds(), id);
    BothAnswered(ms, id);
    RepairedRequestIsWellPaired(dumps, system, ms);
  }

  lemma BothAnswered(ms: seq<Message>, id: string)
    requires Surviving(ms) == [id, id] && UserRefs(ms) == [id] && Responses(ms) == [ProxyId(1)]
    requires NewIds(ToolIds(), [id, id])[0] in [ProxyId(1)]
    requires RenamedTo(ToolIds(), [id, id], [id], NewIds(ToolIds(), [id, id])[1])
    ensures forall k :: 0 <= k < |Surviving(ms)| ==> HasAnswer(ms, k)
  {
    assert HasAnswer(ms, 0) && HasAnswer(ms, 1);
  }

  // ---------- splitting is invisible to the converter ----------

  /** A mixed message without any text: splitting it leaves a second part that converts to an empty user message. */
  predicate Textless(m: Message) { IsMixed(m) && FlatMap(TextOf, m.content.blocks) == [] }

  function ConvertSplit(dumps: Json -> string): Message -> seq<OutMessage> {
    (m: Message) => ConvertMessage(dumps)(m) + if Textless(m) then [User("")] else []
  }

  lemma {:induction false} PartsOf(bs: seq<Block>)
    ensures FlatMap(TextOf, Filter(IsResult, bs)) == [] && FlatMap(ToolOf, Filter(IsOther, bs)) == []
    ensures Filter(IsResult, bs) != [] ==> FlatMap(ToolOf, bs) != []
  {
    if bs != [] {
      PartsOf(bs[1..]);
      var r, o := if IsResult(bs[0]) then [bs[0]] else [], if IsOther(bs[0]) then [bs[0]] else [];
      FlatMapConcat(TextOf, r, Filter(IsResult, bs[1..]));
      FlatMapConcat(ToolOf, o, Filter(IsOther, bs[1..]));
    }
  }

  lemma ResultsConvert(bs: seq<Block>)
    requires Filter(IsResult, bs) != []
    ensures UserOf(Blocks(Filter(IsResult, bs))) == FlatMap(ToolOf, bs)
  {
    PartsOf(bs);
    FlatMapFilter(ToolOf, IsResult, bs);
  }

  lemma OthersConvert(bs: seq<Block>)
    ensures UserOf(Blocks(Filter(IsOther, bs)))
         == [User(if FlatMap(TextOf, bs) == [] then "" else Join("\n", FlatMap(TextOf, bs)))]
  {
    PartsOf(bs);
    FlatMapFilter(TextOf, IsOther, bs);
  }

  lemma WithToolsConverts(bs: seq<Block>)
    requires FlatMap(ToolOf, bs) != []
    ensures UserOf(Blocks(bs))
         == FlatMap(ToolOf, bs) + if FlatMap(TextOf, bs) != [] then [User(Join("\n", FlatMap(TextOf, bs)))] else []
  {
  }

  lemma PartsConvert(bs: seq<Block>)
    requires Filter(IsResult, bs) != []
    ensures UserOf(Blocks(Filter(IsResult, bs))) + UserOf(Blocks(Filter(IsOther, bs)))
         == UserOf(Blocks(bs)) + if FlatMap(TextOf, bs) == [] then [User("")] else []
  {
    PartsOf(bs);
    ResultsConvert(bs);
    OthersConvert(bs);
    WithToolsConverts(bs);
    assert FlatMap(ToolOf, bs) + [] == FlatMap(ToolOf, bs);
  }

  lemma SplitMessageConverts(dumps: Json -> string, m: Message)
    ensures FlatMap(ConvertMessage(dumps), SplitMessage(m)) == ConvertSplit(dumps)(m)
  {
    var convert := ConvertMessage(dumps);
    if IsMixed(m) {
      var bs := m.content.blocks;
      PartsConvert(bs);
      FlatMapFew(convert, UserMessage(Filter(IsResult, bs)), UserMessage(Filter(IsOther, bs)));
    } else {
      FlatMapFew(convert, m, m);
    }
  }

  /** Converting after the split is converting before it, except for one empty user message after each textless one. */
  lemma SplitThenConvert(dumps: Json -> string, ms: seq<Message>)
    ensures ConvertMessages(dumps, Split(ms)) == FlatMap(ConvertSplit(dumps), ms)
  {
    forall m ensures FlatMap(ConvertMessage(dumps), SplitMessage(m)) == ConvertSplit(dumps)(m) {
      SplitMessageConverts(dumps, m);
    }
    FlatMapTwice(ConvertMessage(dumps), SplitMessage, ConvertSplit(dumps), ms);
  }

  lemma {:induction false} ExtraMessages(f: Message -> seq<OutMessage>, g: Message -> seq<OutMessage>,
                                         p: Message -> bool, ms: seq<Message>)
    requires forall m :: |g(m)| == |f(m)| + (if p(m) then 1 else 0) && (!p(m) ==> g(m) == f(m))
    ensures |FlatMap(g, ms)| == |FlatMap(f, ms)| + |Filter(p, ms)|
    ensures Filter(p, ms) == [] ==> FlatMap(g, ms) == FlatMap(f, ms)
  {
    if ms != [] {
      ExtraMessages(f, g, p, ms[1..]);
    }
  }

  /** The split is invisible to the converter exactly when no message is textless; otherwise the request grows by one
      message for each that is. */
  lemma SplitIsInvisible(dumps: Json -> string, ms: seq<Message>)
    ensures ConvertMessages(dumps, Split(ms)) == ConvertMessages(dumps, ms) <==> forall m :: m in ms ==> !Textless(m)
    ensures |ConvertMessages(dumps, Split(ms))| == |ConvertMessages(dumps, ms)| + |Filter(Textless, ms)|
  {
    SplitThenConvert(dumps, ms);
    ExtraMessages(ConvertMessage(dumps), ConvertSplit(dumps), Textless, ms);
    if Filter(Textless, ms) != [] {
      assert Filter(Textless, ms)[0] in Filter(Textless, ms);
    }
  }

  // ---------- an assistant turn there and back ----------

  datatype Choice = Choice(content: Option<string>, calls: seq<ToolCall>, finishReason: string)

  /** `loads` is the JSON decoder; arguments it rejects become an empty object. */
  function UseOfCall(loads: string -> Option<Json>): ToolCall -> seq<Block> {
    (tc: ToolCall) =>
      [ToolUse(tc.id, tc.name, if loads(tc.arguments).Some? then loads(tc.arguments).value else JObject([]))]
  }

  function BlocksOfChoice(loads: string -> Option<Json>): Choice -> seq<Block> {
    (c: Choice) =>
      (if c.content.Some? && c.content.value != "" then [Text(c.content.value)] else [])
      + FlatMap(UseOfCall(loads), c.calls)
  }

  function ResponseBlocks(loads: string -> Option<Json>, choices: seq<Choice>): seq<Block> {
    var blocks := FlatMap(BlocksOfChoice(loads), choices);
    if blocks != [] then blocks else [Text("")]
  }

  function StopReason(choices: seq<Choice>): string {
    if choices == [] then "end_turn"
    else
      var last := choices[|choices| - 1].finishReason;
      if last == "tool_calls" then "tool_use"
      else if last == "length" then "max_tokens"
      else if last == "stop" then "end_turn"
      else StopReason(choices[..|choices| - 1])
  }

  /** An assistant turn sent to OpenAI and read back as if the model had said it. */
  function RoundTrip(dumps: Json -> string, loads: string -> Option<Json>, bs: seq<Block>): seq<Block> {
    var out := AssistantOf(dumps, Blocks(bs));
    ResponseBlocks(loads, [Choice(out.content, out.calls, "")])
  }

  ghost predicate Inverse(dumps: Json -> string, loads: string -> Option<Json>) {
    forall j :: loads(dumps(j)) == Some(j)
  }

  predicate IsUse(b: Block) { b.ToolUse? }

  /** All text in front, as one block unless empty, then the calls. */
  function Tidied(bs: seq<Block>): seq<Block> {
    var text, uses := Join("\n", FlatMap(TextOf, bs)), Filter(IsUse, bs);
    if text == "" && uses == [] then [Text("")] else (if text != "" then [Text(text)] else []) + uses
  }

  /** Already in that form. */
  predicate IsTidy(bs: seq<Block>) {
    || bs == [Text("")]
    || (bs != [] && forall i :: 0 <= i < |bs| ==> bs[i].ToolUse? || (i == 0 && bs[i].Text? && bs[i].text != ""))
  }

  lemma {:induction false} CallsRoundTrip(dumps: Json -> string, loads: string -> Option<Json>, bs: seq<Block>)
    requires Inverse(dumps, loads)
    ensures FlatMap(UseOfCall(loads), FlatMap(CallOf(dumps), bs)) == Filter(IsUse, bs)
  {
    if bs != [] {
      CallsRoundTrip(dumps, loads, bs[1..]);
      FlatMapConcat(UseOfCall(loads), CallOf(dumps)(bs[0]), FlatMap(CallOf(dumps), bs[1..]));
      if bs[0].ToolUse? {
        FlatMapFew(UseOfCall(loads), CallOf(dumps)(bs[0])[0], CallOf(dumps)(bs[0])[0]);
      }
    }
  }

  /** The round trip keeps every call exactly and in order, joins the text in front of them and drops the rest. */
  lemma RoundTripTidies(dumps: Json -> string, loads: string -> Option<Json>, bs: seq<Block>)
    requires Inverse(dumps, loads)
    ensures RoundTrip(dumps, loads, bs) == Tidied(bs)
  {
    CallsRoundTrip(dumps, loads, bs);
    var out := AssistantOf(dumps, Blocks(bs));
    var choice := Choice(out.content, out.calls, "");
    FlatMapFew(BlocksOfChoice(loads), choice, choice);
  }

  lemma {:induction false} UsesOnly(bs: seq<Block>)
    requires forall b :: b in bs ==> b.ToolUse?
    ensures FlatMap(TextOf, bs) == [] && Filter(IsUse, bs) == bs
  {
    if bs != [] {
      assert bs[0].ToolUse?;
      UsesOnly(bs[1..]);
    }
  }

  /** The round trip is the identity exactly on turns that are already tidy, and so is idempotent. */
  lemma RoundTripFixesTidyTurns(dumps: Json -> string, loads: string -> Option<Json>, bs: seq<Block>)
    requires Inverse(dumps, loads)
    ensures RoundTrip(dumps, loads, bs) == bs <==> IsTidy(bs)
    ensures RoundTrip(dumps, loads, RoundTrip(dumps, loads, bs)) == RoundTrip(dumps, loads, bs)
  {
    RoundTripTidies(dumps, loads, bs);
    RoundTripTidies(dumps, loads, Tidied(bs));
    TidiedIsTidy(bs);
    TidyIsFixed(Tidied(bs));
    if IsTidy(bs) {
      TidyIsFixed(bs);
    }
  }

  lemma TidiedIsTidy(bs: seq<Block>)
    ensures IsTidy(Tidied(bs))
  {
    var r, uses := Tidied(bs), Filter(IsUse, bs);
    forall i | 0 <= i < |r| && r != [Text("")] ensures r[i].ToolUse? || (i == 0 && r[i].Text? && r[i].text != "") {
      if r[i] in uses {
        assert IsUse(r[i]);
      }
    }
  }

  lemma TidyIsFixed(bs: seq<Block>)
    requires IsTidy(bs)
    ensures Tidied(bs) == bs
  {
    if bs == [Text("")] {
      FlatMapFew(TextOf, bs[0], bs[0]);
    } else {
      UsesOnly(bs[1..]);
      SplitFirst(bs);
      if bs[0].Text? {
        assert FlatMap(TextOf, bs) == [bs[0].text] && Filter(IsUse, bs) == bs[1..];
      } else {
        UsesOnly(bs);
      }
    }
  }
}
