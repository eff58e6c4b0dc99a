/** The calls and results themselves, with their names, inputs and outputs, through repair and conversion
    (routing/sanitize.py, routing/convert.py). */
module Exchanges {
  import opened Options
  import opened Sequences
  import opened Conversations
  import opened Renamings
  import opened ProxyIds
  import opened Sanitize
  import opened Convert

  function UseBlock(b: Block): seq<Block> { if b.ToolUse? then [b] else [] }

  function ResultBlock(b: Block): seq<Block> { if b.ToolResult? then [b] else [] }

  /** The tool_use blocks of the assistant messages, in order; one for each id of `UseIds`. */
  function UseBlocks(ms: seq<Message>): seq<Block> { FlatMap(UseBlocksIn, ms) }

  function UseBlocksIn(m: Message): seq<Block> {
    if HasRole(m, "assistant") && HasBlocks(m) then FlatMap(UseBlock, m.content.blocks) else []
  }

  /** The tool_result blocks, in order; one for each id of `RefIds`. */
  function ResultBlocks(ms: seq<Message>): seq<Block> { FlatMap(ResultBlocksIn, ms) }

  function ResultBlocksIn(m: Message): seq<Block> {
    if HasBlocks(m) then FlatMap(ResultBlock, m.content.blocks) else []
  }

  /** Every other block, with the role of its message. */
  function OtherBlocks(ms: seq<Message>): seq<(string, Block)> { FlatMap(OtherBlocksIn, ms) }

  function OtherBlocksIn(m: Message): seq<(string, Block)> {
    if HasBlocks(m) then FlatMap(OtherBlock(m.role), m.content.blocks) else []
  }

  function OtherBlock(role: string): Block -> seq<(string, Block)> {
    (b: Block) => if b.ToolResult? || (role == "assistant" && b.ToolUse?) then [] else [(role, b)]
  }

  lemma {:induction false} UseBlocksHaveIds(bs: seq<Block>)
    ensures FlatMap(UseOf, FlatMap(UseBlock, bs)) == FlatMap(UseOf, bs)
    ensures |FlatMap(UseBlock, bs)| == |FlatMap(UseOf, bs)|
    ensures forall b :: b in FlatMap(UseBlock, bs) ==> b.ToolUse?
  {
    if bs != [] {
      UseBlocksHaveIds(bs[1..]);
      FlatMapConcat(UseOf, UseBlock(bs[0]), FlatMap(UseBlock, bs[1..]));
      FlatMapFew(UseOf, bs[0], bs[0]);
    }
  }

  // ---------- pass 2 ----------

  predicate IsAnswered(refs: seq<string>, b: Block) { b.ToolUse? && b.id != "" && b.id in refs }

  function AnsweredUse(refs: seq<string>): Block -> bool { (b: Block) => IsAnswered(refs, b) }

  lemma {:induction false} KeptBlocks(refs: seq<string>, role: string, bs: seq<Block>)
    ensures FlatMap(UseBlock, Filter(Keep(refs), bs)) == Filter(AnsweredUse(refs), FlatMap(UseBlock, bs))
    ensures FlatMap(ResultBlock, Filter(Keep(refs), bs)) == FlatMap(ResultBlock, bs)
    ensures role == "assistant" ==>
              FlatMap(OtherBlock(role), Filter(Keep(refs), bs)) == FlatMap(OtherBlock(role), bs)
  {
    FlatMapFilter(ResultBlock, Keep(refs), bs);
    if role == "assistant" {
      FlatMapFilter(OtherBlock(role), Keep(refs), bs);
    }
    if bs != [] {
      KeptBlocks(refs, role, bs[1..]);
      FlatMapConcat(UseBlock, if Keep(refs)(bs[0]) then [bs[0]] else [], Filter(Keep(refs), bs[1..]));
      FilterConcat(AnsweredUse(refs), UseBlock(bs[0]), FlatMap(UseBlock, bs[1..]));
      FlatMapFew(UseBlock, bs[0], bs[0]);
      KeptBlock(refs, bs[0]);
    }
  }

  lemma KeptBlock(refs: seq<string>, b: Block)
    ensures Filter(AnsweredUse(refs), UseBlock(b)) == if Keep(refs)(b) then UseBlock(b) else []
  {
    FilterSnoc(AnsweredUse(refs), [], b);
    assert [] + [b] == [b];
  }

  lemma PrunedContent(refs: seq<string>, m: Message)
    requires HasRole(m, "assistant") && HasBlocks(m)
    ensures var kept, m' := Filter(Keep(refs), m.content.blocks), PruneUsesIn(refs, m);
            && UseBlocksIn(m') == FlatMap(UseBlock, kept) && ResultBlocksIn(m') == FlatMap(ResultBlock, kept)
            && OtherBlocksIn(m') == FlatMap(OtherBlock("assistant"), kept)
  {
  }

  lemma PruneUsesInBlocks(refs: seq<string>, m: Message)
    ensures UseBlocksIn(PruneUsesIn(refs, m)) == Filter(AnsweredUse(refs), UseBlocksIn(m))
    ensures ResultBlocksIn(PruneUsesIn(refs, m)) == ResultBlocksIn(m)
    ensures OtherBlocksIn(PruneUsesIn(refs, m)) == OtherBlocksIn(m)
  {
    if HasRole(m, "assistant") && HasBlocks(m) {
      PrunedContent(refs, m);
      KeptBlocks(refs, "assistant", m.content.blocks);
    }
  }

  function AnsweredUsesIn(refs: seq<string>): Message -> seq<Block> {
    (m: Message) => Filter(AnsweredUse(refs), UseBlocksIn(m))
  }

  lemma PruneUsesBlocks(ms: seq<Message>)
    ensures UseBlocks(PruneUses(ms)) == Filter(AnsweredUse(RefIds(ms)), UseBlocks(ms))
    ensures ResultBlocks(PruneUses(ms)) == ResultBlocks(ms) && OtherBlocks(PruneUses(ms)) == OtherBlocks(ms)
  {
    var refs := RefIds(ms);
    forall i | 0 <= i < |ms|
      ensures UseBlocksIn(PruneUses(ms)[i]) == AnsweredUsesIn(refs)(ms[i])
      ensures ResultBlocksIn(PruneUses(ms)[i]) == ResultBlocksIn(ms[i])
      ensures OtherBlocksIn(PruneUses(ms)[i]) == OtherBlocksIn(ms[i])
    {
      PruneUsesInBlocks(refs, ms[i]);
    }
    FlatMapAgrees(UseBlocksIn, AnsweredUsesIn(refs), PruneUses(ms), ms);
    FlatMapAgrees(ResultBlocksIn, ResultBlocksIn, PruneUses(ms), ms);
    FlatMapAgrees(OtherBlocksIn, OtherBlocksIn, PruneUses(ms), ms);
    FilterFlatMap(AnsweredUse(refs), UseBlocksIn, AnsweredUsesIn(refs), ms);
  }

  // ---------- pass 3 ----------

  /** The blocks with these ids, and otherwise as they were. */
  predicate Relabeled(bs: seq<Block>, ids: seq<string>, bs': seq<Block>) {
    && |bs| == |ids| == |bs'|
    && forall i :: 0 <= i < |bs| ==> bs[i].ToolUse? && bs'[i] == bs[i].(id := ids[i])
  }

  lemma {:induction false} WithIdsBlocksBlocks(role: string, bs: seq<Block>, ids: seq<string>)
    requires |ids| == |FlatMap(UseOf, bs)|
    ensures Relabeled(FlatMap(UseBlock, bs), ids, FlatMap(UseBlock, WithIdsBlocks(bs, ids)))
    ensures FlatMap(ResultBlock, WithIdsBlocks(bs, ids)) == FlatMap(ResultBlock, bs)
    ensures role == "assistant" ==> FlatMap(OtherBlock(role), WithIdsBlocks(bs, ids)) == FlatMap(OtherBlock(role), bs)
  {
    if bs != [] {
      var rest := if bs[0].ToolUse? then ids[1..] else ids;
      WithIdsBlocksBlocks(role, bs[1..], rest);
      if bs[0].ToolUse? {
        RelabeledConcat([bs[0]], [ids[0]], [bs[0].(id := ids[0])], FlatMap(UseBlock, bs[1..]), rest,
                        FlatMap(UseBlock, WithIdsBlocks(bs[1..], rest)));
        SplitFirst(ids);
      }
    }
  }

  lemma RelabeledConcat(a: seq<Block>, ids: seq<string>, a': seq<Block>, b: seq<Block>, more: seq<string>,
                        b': seq<Block>)
    requires Relabeled(a, ids, a') && Relabeled(b, more, b')
    ensures Relabeled(a + b, ids + more, a' + b')
  {
  }

  lemma WithIdsInBlocks(m: Message, ids: seq<string>)
    requires |ids| == |UsesIn(m)|
    ensures Relabeled(UseBlocksIn(m), ids, UseBlocksIn(WithIdsIn(m, ids)))
    ensures ResultBlocksIn(WithIdsIn(m, ids)) == ResultBlocksIn(m)
    ensures OtherBlocksIn(WithIdsIn(m, ids)) == OtherBlocksIn(m)
  {
    if HasRole(m, "assistant") && HasBlocks(m) {
      WithIdsBlocksBlocks(m.role, m.content.blocks, ids);
    }
  }

  lemma {:induction false} WithIdsKeepsBlocks(ms: seq<Message>, ids: seq<string>)
    requires |ids| == |UseIds(ms)|
    ensures Relabeled(UseBlocks(ms), ids, UseBlocks(WithIds(ms, ids)))
    ensures ResultBlocks(WithIds(ms, ids)) == ResultBlocks(ms) && OtherBlocks(WithIds(ms, ids)) == OtherBlocks(ms)
  {
    if ms != [] {
      var n := |UsesIn(ms[0])|;
      WithIdsKeepsBlocks(ms[1..], ids[n..]);
      WithIdsInBlocks(ms[0], ids[..n]);
      RelabeledConcat(UseBlocksIn(ms[0]), ids[..n], UseBlocksIn(WithIdsIn(ms[0], ids[..n])),
                      UseBlocks(ms[1..]), ids[n..], UseBlocks(WithIds(ms[1..], ids[n..])));
      assert ids == ids[..n] + ids[n..];
    }
  }

  function RenameIn(renaming: map<string, string>): Block -> Block { (b: Block) => RenameRefIn(renaming, b) }

  lemma {:induction false} RenamedBlocks(renaming: map<string, string>, role: string, bs: seq<Block>)
    ensures var r := Map((b: Block) => RenameRefIn(renaming, b), bs);
            && FlatMap(UseBlock, r) == FlatMap(UseBlock, bs)
            && FlatMap(ResultBlock, r) == Map(RenameIn(renaming), FlatMap(ResultBlock, bs))
            && FlatMap(OtherBlock(role), r) == FlatMap(OtherBlock(role), bs)
  {
    if bs != [] {
      RenamedBlocks(renaming, role, bs[1..]);
      MapConcat(RenameIn(renaming), ResultBlock(bs[0]), FlatMap(ResultBlock, bs[1..]));
    }
  }

  lemma RenameRefsInBlocks(renaming: map<string, string>, m: Message)
    ensures UseBlocksIn(RenameRefsIn(renaming, m)) == UseBlocksIn(m)
    ensures ResultBlocksIn(RenameRefsIn(renaming, m)) == Map(RenameIn(renaming), ResultBlocksIn(m))
    ensures OtherBlocksIn(RenameRefsIn(renaming, m)) == OtherBlocksIn(m)
  {
    if HasBlocks(m) {
      RenamedBlocks(renaming, m.role, m.content.blocks);
    }
  }

  lemma {:induction false} RenameRefsKeepsBlocks(renaming: map<string, string>, ms: seq<Message>)
    ensures UseBlocks(RenameRefs(renaming, ms)) == UseBlocks(ms)
    ensures ResultBlocks(RenameRefs(renaming, ms)) == Map(RenameIn(renaming), ResultBlocks(ms))
    ensures OtherBlocks(RenameRefs(renaming, ms)) == OtherBlocks(ms)
  {
    if ms != [] {
      RenameRefsKeepsBlocks(renaming, ms[1..]);
      RenameRefsInBlocks(renaming, ms[0]);
      MapConcat(RenameIn(renaming), ResultBlocksIn(ms[0]), ResultBlocks(ms[1..]));
    }
  }

  // ---------- pass 4 ----------

  lemma {:induction false} PartsOfBlocks(bs: seq<Block>)
    ensures FlatMap(ResultBlock, Filter(IsResult, bs)) == FlatMap(ResultBlock, bs)
    ensures FlatMap(ResultBlock, Filter(IsOther, bs)) == []
    ensures FlatMap(OtherBlock("user"), Filter(IsResult, bs)) == []
    ensures FlatMap(OtherBlock("user"), Filter(IsOther, bs)) == FlatMap(OtherBlock("user"), bs)
  {
    FlatMapFilter(ResultBlock, IsResult, bs);
    FlatMapFilter(OtherBlock("user"), IsOther, bs);
    NothingIn(ResultBlock, Filter(IsOther, bs));
    NothingIn(OtherBlock("user"), Filter(IsResult, bs));
  }

  lemma {:induction false} NothingIn<A>(f: Block -> seq<A>, bs: seq<Block>)
    requires forall b :: b in bs ==> f(b) == []
    ensures FlatMap(f, bs) == []
  {
    if bs != [] {
      NothingIn(f, bs[1..]);
    }
  }

  lemma SplitMessageBlocks(m: Message)
    ensures FlatMap(UseBlocksIn, SplitMessage(m)) == UseBlocksIn(m)
    ensures FlatMap(ResultBlocksIn, SplitMessage(m)) == ResultBlocksIn(m)
    ensures FlatMap(OtherBlocksIn, SplitMessage(m)) == OtherBlocksIn(m)
  {
    FlatMapFew(UseBlocksIn, m, m);
    FlatMapFew(ResultBlocksIn, m, m);
    FlatMapFew(OtherBlocksIn, m, m);
    if IsMixed(m) {
      var bs := m.content.blocks;
      var first, second := UserMessage(Filter(IsResult, bs)), UserMessage(Filter(IsOther, bs));
      FlatMapFew(UseBlocksIn, first, second);
      FlatMapFew(ResultBlocksIn, first, second);
      FlatMapFew(OtherBlocksIn, first, second);
      PartsOfBlocks(bs);
    }
  }

  lemma SplitKeepsBlocks(ms: seq<Message>)
    ensures UseBlocks(Split(ms)) == UseBlocks(ms) && ResultBlocks(Split(ms)) == ResultBlocks(ms)
    ensures OtherBlocks(Split(ms)) == OtherBlocks(ms)
  {
    forall m
      ensures FlatMap(UseBlocksIn, SplitMessage(m)) == UseBlocksIn(m)
      ensures FlatMap(ResultBlocksIn, SplitMessage(m)) == ResultBlocksIn(m)
      ensures FlatMap(OtherBlocksIn, SplitMessage(m)) == OtherBlocksIn(m)
    {
      SplitMessageBlocks(m);
    }
    FlatMapTwice(UseBlocksIn, SplitMessage, UseBlocksIn, ms);
    FlatMapTwice(ResultBlocksIn, SplitMessage, ResultBlocksIn, ms);
    FlatMapTwice(OtherBlocksIn, SplitMessage, OtherBlocksIn, ms);
  }

  // ---------- the whole repair ----------

  lemma PruneCallsKeepsBlocks(ms: seq<Message>)
    ensures UseBlocks(PruneCalls(ms)) == UseBlocks(ms) && ResultBlocks(PruneCalls(ms)) == ResultBlocks(ms)
    ensures OtherBlocks(PruneCalls(ms)) == OtherBlocks(ms)
  {
    FlatMapAgrees(UseBlocksIn, UseBlocksIn, PruneCalls(ms), ms);
    FlatMapAgrees(ResultBlocksIn, ResultBlocksIn, PruneCalls(ms), ms);
    FlatMapAgrees(OtherBlocksIn, OtherBlocksIn, PruneCalls(ms), ms);
  }

  /** The calls that have a result. */
  function SurvivingUses(ms: seq<Message>): seq<Block> { Filter(AnsweredUse(RefIds(ms)), UseBlocks(ms)) }

  lemma {:induction false} UseBlocksIds(ms: seq<Message>)
    ensures FlatMap(UseOf, UseBlocks(ms)) == UseIds(ms)
  {
    forall m ensures FlatMap(UseOf, UseBlocksIn(m)) == UsesIn(m) {
      if HasRole(m, "assistant") && HasBlocks(m) {
        UseBlocksHaveIds(m.content.blocks);
      }
    }
    FlatMapTwice(UseOf, UseBlocksIn, UsesIn, ms);
  }

  lemma {:induction false} AnsweredUsesIds(refs: seq<string>, us: seq<Block>)
    ensures FlatMap(UseOf, Filter(AnsweredUse(refs), us)) == Filter(Answered(refs), FlatMap(UseOf, us))
  {
    if us != [] {
      AnsweredUsesIds(refs, us[1..]);
      FlatMapConcat(UseOf, if AnsweredUse(refs)(us[0]) then [us[0]] else [], Filter(AnsweredUse(refs), us[1..]));
      FilterConcat(Answered(refs), UseOf(us[0]), FlatMap(UseOf, us[1..]));
    }
  }

  /** They bear the surviving ids, in order. */
  lemma SurvivingUsesIds(ms: seq<Message>)
    ensures FlatMap(UseOf, SurvivingUses(ms)) == Surviving(ms)
  {
    UseBlocksIds(ms);
    AnsweredUsesIds(RefIds(ms), UseBlocks(ms));
  }

  /** The repair keeps every answered call with its name and input and every result with its output, in order, and
      changes nothing but their ids; every other block it leaves alone. */
  lemma RepairKeepsBlocks(ms: seq<Message>)
    ensures FlatMap(UseOf, SurvivingUses(ms)) == Surviving(ms)
    ensures Relabeled(SurvivingUses(ms), NewIds(ToolIds(), Surviving(ms)), UseBlocks(Repair(ms)))
    ensures ResultBlocks(Repair(ms)) == Map(RenameIn(Renaming(ToolIds(), Surviving(ms))), ResultBlocks(ms))
    ensures OtherBlocks(Repair(ms)) == OtherBlocks(ms)
  {
    var a := PruneCalls(ms);
    var b := PruneUses(a);
    PruneCallsKeepsIds(ms);
    PruneUsesIds(a);
    PruneCallsKeepsBlocks(ms);
    PruneUsesBlocks(a);
    var ids := NewIds(ToolIds(), UseIds(b));
    WithIdsKeepsBlocks(b, ids);
    RenameRefsKeepsBlocks(Renaming(ToolIds(), UseIds(b)), WithIds(b, ids));
    SplitKeepsBlocks(Normalize(b));
    SurvivingUsesIds(ms);
  }

  // ---------- where they stand ----------

  /** A block and what the repair makes of it: a call gets the next of the new ids, a result the renamed reference. */
  predicate SameButId(renaming: map<string, string>, inAssistant: bool, b: Block, b': Block) {
    if inAssistant && b.ToolUse? then b'.ToolUse? && b' == b.(id := b'.id)
    else b' == RenameRefIn(renaming, b)
  }

  predicate SameButIds(renaming: map<string, string>, inAssistant: bool, bs: seq<Block>, bs': seq<Block>) {
    |bs| == |bs'| && forall j :: 0 <= j < |bs| ==> SameButId(renaming, inAssistant, bs[j], bs'[j])
  }

  /** The blocks of a message that the repair keeps. */
  function KeptIn(refs: seq<string>, m: Message): seq<Block>
    requires HasBlocks(m)
  {
    if m.role == "assistant" then Filter(Keep(refs), m.content.blocks) else m.content.blocks
  }

  function WithResponse(responded: seq<string>): ToolCall -> bool { (tc: ToolCall) => tc.id in responded }

  /** Of an assistant's OpenAI-style calls those with a tool message stay; when none does, the message has none left. */
  predicate KeepsCalls(responded: seq<string>, m: Message, m': Message)
    requires m.Message? && m'.Message?
  {
    if m.role == "assistant" && m.toolCalls.Some? then
      var kept := Filter(WithResponse(responded), m.toolCalls.value);
      m'.toolCalls == if kept == [] && m.toolCalls.value != [] then None else Some(kept)
    else m'.toolCalls == m.toolCalls
  }

  /** A message in its place: its kept blocks in their order, with nothing new but ids, and its kept calls; the rest
      as it was. Content that loses all its blocks becomes the empty string. */
  predicate SamePlace(ms: seq<Message>, m: Message, m': Message) {
    if !m.Message? then m' == m
    else
      && m'.Message? && m'.role == m.role && m'.toolCallId == m.toolCallId && KeepsCalls(Responses(ms), m, m')
      && if !HasBlocks(m) then m'.content == m.content
         else
           var kept := KeptIn(RefIds(ms), m);
           if kept == [] && m.content.blocks != [] then m'.content == Str("")
           else
             && HasBlocks(m')
             && SameButIds(Renaming(ToolIds(), Surviving(ms)), m.role == "assistant", kept, m'.content.blocks)
  }

  lemma PrunedCallsAreKept(responded: seq<string>, m: Message)
    requires m.Message?
    ensures PruneCallsIn(responded, m).Message? && KeepsCalls(responded, m, PruneCallsIn(responded, m))
  {
    if m.role == "assistant" && m.toolCalls.Some? {
      FilterSame((tc: ToolCall) => tc.id in responded, WithResponse(responded), m.toolCalls.value);
      FilterFull(WithResponse(responded), m.toolCalls.value);
    }
  }

  lemma {:induction false} WithIdsBlocksPlaces(renaming: map<string, string>, bs: seq<Block>, ids: seq<string>)
    requires |ids| == |FlatMap(UseOf, bs)|
    ensures SameButIds(renaming, true, bs, Map(RenameIn(renaming), WithIdsBlocks(bs, ids)))
  {
    if bs != [] {
      WithIdsBlocksPlaces(renaming, bs[1..], if bs[0].ToolUse? then ids[1..] else ids);
    }
  }

  /** Handing out ids and renaming references leaves everything else of a message in its place. */
  predicate Renewed(renaming: map<string, string>, m: Message, m': Message) {
    if !HasBlocks(m) then m' == m
    else
      && HasBlocks(m') && m' == m.(content := m'.content)
      && SameButIds(renaming, m.role == "assistant", m.content.blocks, m'.content.blocks)
  }

  lemma RenewedOne(renaming: map<string, string>, m: Message, ids: seq<string>)
    requires |ids| == |UsesIn(m)|
    ensures Renewed(renaming, m, RenameRefsIn(renaming, WithIdsIn(m, ids)))
  {
    if HasRole(m, "assistant") && HasBlocks(m) {
      WithIdsBlocksPlaces(renaming, m.content.blocks, ids);
    }
  }

  lemma {:induction false} RenewedAll(renaming: map<string, string>, ms: seq<Message>, ids: seq<string>)
    requires |ids| == |UseIds(ms)|
    ensures forall i :: 0 <= i < |ms| ==> Renewed(renaming, ms[i], RenameRefs(renaming, WithIds(ms, ids))[i])
  {
    if ms != [] {
      var n := |UsesIn(ms[0])|;
      RenewedAll(renaming, ms[1..], ids[n..]);
      RenewedOne(renaming, ms[0], ids[..n]);
    }
  }

  lemma PrunedThenRenewed(ms: seq<Message>, m: Message, m': Message)
    requires Renewed(Renaming(ToolIds(), Surviving(ms)), PruneUsesIn(RefIds(ms), PruneCallsIn(Responses(ms), m)), m')
    ensures SamePlace(ms, m, m')
  {
    if m.Message? {
      PrunedCallsAreKept(Responses(ms), m);
    }
  }

  /** Every message stays in its place with its kept blocks in their order; only then is each user message that mixes
      results with other blocks replaced by two, the results first, again in their order. */
  lemma RepairKeepsPlaces(ms: seq<Message>)
    ensures |Unsplit(ms)| == |ms| && forall i :: 0 <= i < |ms| ==> SamePlace(ms, ms[i], Unsplit(ms)[i])
    ensures Repair(ms) == FlatMap(SplitMessage, Unsplit(ms))
  {
    var b := PruneUses(PruneCalls(ms));
    PruneCallsKeepsIds(ms);
    PruneUsesIds(PruneCalls(ms));
    RenewedAll(Renaming(ToolIds(), Surviving(ms)), b, NewIds(ToolIds(), Surviving(ms)));
    forall i | 0 <= i < |ms| ensures SamePlace(ms, ms[i], Unsplit(ms)[i]) {
      assert b[i] == PruneUsesIn(RefIds(ms), PruneCallsIn(Responses(ms), ms[i]));
      PrunedThenRenewed(ms, ms[i], Unsplit(ms)[i]);
    }
  }

  // ---------- the converter ----------

  function CallsOut(o: OutMessage): seq<ToolCall> { if o.Assistant? then o.calls else [] }

  /** The tool messages made from results. */
  function ToolsOut(o: OutMessage): seq<(string, string)> { if o.Tool? then [(o.callId, o.output)] else [] }

  /** The messages passed on as they were. */
  function PassedOut(o: OutMessage): seq<Message> { if o.Unchanged? then [o.message] else [] }

  lemma OutOfOne(o: OutMessage)
    ensures FlatMap(CallsOut, [o]) == CallsOut(o) && FlatMap(ToolsOut, [o]) == ToolsOut(o)
    ensures FlatMap(PassedOut, [o]) == PassedOut(o)
  {
    FlatMapFew(CallsOut, o, o);
    FlatMapFew(ToolsOut, o, o);
    FlatMapFew(PassedOut, o, o);
  }

  lemma OutConcat(a: seq<OutMessage>, b: seq<OutMessage>)
    ensures FlatMap(CallsOut, a + b) == FlatMap(CallsOut, a) + FlatMap(CallsOut, b)
    ensures FlatMap(ToolsOut, a + b) == FlatMap(ToolsOut, a) + FlatMap(ToolsOut, b)
    ensures FlatMap(PassedOut, a + b) == FlatMap(PassedOut, a) + FlatMap(PassedOut, b)
  {
    FlatMapConcat(CallsOut, a, b);
    FlatMapConcat(ToolsOut, a, b);
    FlatMapConcat(PassedOut, a, b);
  }

  function ResultPair(b: Block): seq<(string, string)> {
    if b.ToolResult? then [(b.toolUseId, OutputText(b.output))] else []
  }

  lemma {:induction false} ToolsOfBlocks(bs: seq<Block>)
    ensures FlatMap(CallsOut, FlatMap(ToolOf, bs)) == [] && FlatMap(PassedOut, FlatMap(ToolOf, bs)) == []
    ensures FlatMap(ToolsOut, FlatMap(ToolOf, bs)) == FlatMap(ResultPair, FlatMap(ResultBlock, bs))
  {
    if bs != [] {
      var b := bs[0];
      ToolsOfBlocks(bs[1..]);
      OutConcat(ToolOf(b), FlatMap(ToolOf, bs[1..]));
      FlatMapConcat(ResultPair, ResultBlock(b), FlatMap(ResultBlock, bs[1..]));
      ToolOfBlock(b);
    }
  }

  lemma ToolOfBlock(b: Block)
    ensures FlatMap(CallsOut, ToolOf(b)) == [] && FlatMap(PassedOut, ToolOf(b)) == []
    ensures FlatMap(ToolsOut, ToolOf(b)) == FlatMap(ResultPair, ResultBlock(b))
  {
    if b.ToolResult? {
      OutOfOne(ToolOf(b)[0]);
      FlatMapFew(ResultPair, b, b);
    }
  }

  lemma {:induction false} CallsOfBlocks(dumps: Json -> string, bs: seq<Block>)
    ensures FlatMap(CallOf(dumps), FlatMap(UseBlock, bs)) == FlatMap(CallOf(dumps), bs)
  {
    if bs != [] {
      CallsOfBlocks(dumps, bs[1..]);
      FlatMapConcat(CallOf(dumps), UseBlock(bs[0]), FlatMap(UseBlock, bs[1..]));
      FlatMapFew(CallOf(dumps), bs[0], bs[0]);
    }
  }

  lemma UserExchanges(content: Content)
    ensures FlatMap(CallsOut, UserOf(content)) == [] && FlatMap(PassedOut, UserOf(content)) == []
    ensures FlatMap(ToolsOut, UserOf(content))
         == if content.Blocks? then FlatMap(ResultPair, FlatMap(ResultBlock, content.blocks)) else []
  {
    if content.Blocks? {
      var bs := content.blocks;
      var tools := FlatMap(ToolOf, bs);
      var text := User(if FlatMap(TextOf, bs) != [] then Join("\n", FlatMap(TextOf, bs)) else "");
      ToolsOfBlocks(bs);
      OutConcat(tools, [text]);
      OutOfOne(text);
      assert UserOf(content) == tools || UserOf(content) == tools + [text];
    } else {
      OutOfOne(User(content.text));
    }
  }

  lemma AssistantExchanges(dumps: Json -> string, content: Content)
    ensures FlatMap(CallsOut, [AssistantOf(dumps, content)])
         == if content.Blocks? then FlatMap(CallOf(dumps), FlatMap(UseBlock, content.blocks)) else []
    ensures FlatMap(ToolsOut, [AssistantOf(dumps, content)]) == []
    ensures FlatMap(PassedOut, [AssistantOf(dumps, content)]) == []
  {
    OutOfOne(AssistantOf(dumps, content));
    if content.Blocks? {
      CallsOfBlocks(dumps, content.blocks);
    }
  }

  function UserResultsIn(m: Message): seq<Block> { if HasRole(m, "user") then ResultBlocksIn(m) else [] }

  /** The results in user messages; the converter reads no others. */
  function UserResults(ms: seq<Message>): seq<Block> { FlatMap(UserResultsIn, ms) }

  function OfOtherRole(m: Message): seq<Message> {
    if m.Message? && m.role != "assistant" && m.role != "user" then [m] else []
  }

  lemma MessageExchanges(dumps: Json -> string, m: Message)
    ensures FlatMap(CallsOut, ConvertMessage(dumps)(m)) == FlatMap(CallOf(dumps), UseBlocksIn(m))
    ensures FlatMap(ToolsOut, ConvertMessage(dumps)(m)) == FlatMap(ResultPair, UserResultsIn(m))
    ensures FlatMap(PassedOut, ConvertMessage(dumps)(m)) == OfOtherRole(m)
  {
    if HasRole(m, "assistant") {
      AssistantExchanges(dumps, m.content);
    } else if HasRole(m, "user") {
      UserExchanges(m.content);
    } else if m.Message? {
      OutOfOne(Unchanged(m));
    }
  }

  /** The converter emits one tool call for each tool_use block, with its name and encoded input, one tool message for
      each tool_result block of a user, with its output as text, and every message of another role as it is, all in
      order. */
  lemma {:induction false} ConversionKeepsExchanges(dumps: Json -> string, ms: seq<Message>)
    ensures FlatMap(CallsOut, ConvertMessages(dumps, ms)) == FlatMap(CallOf(dumps), UseBlocks(ms))
    ensures FlatMap(ToolsOut, ConvertMessages(dumps, ms)) == FlatMap(ResultPair, UserResults(ms))
    ensures FlatMap(PassedOut, ConvertMessages(dumps, ms)) == FlatMap(OfOtherRole, ms)
  {
    if ms != [] {
      ConversionKeepsExchanges(dumps, ms[1..]);
      MessageExchanges(dumps, ms[0]);
      OutConcat(ConvertMessage(dumps)(ms[0]), ConvertMessages(dumps, ms[1..]));
      FlatMapConcat(CallOf(dumps), UseBlocksIn(ms[0]), UseBlocks(ms[1..]));
      FlatMapConcat(ResultPair, UserResultsIn(ms[0]), UserResults(ms[1..]));
    }
  }

  // ---------- repair, then convert ----------

  lemma RenamedUserResults(renaming: map<string, string>, m: Message)
    ensures UserResultsIn(RenameRefsIn(renaming, m)) == Map(RenameIn(renaming), UserResultsIn(m))
  {
    RenameRefsInBlocks(renaming, m);
  }

  lemma SplitUserResults(m: Message)
    ensures FlatMap(UserResultsIn, SplitMessage(m)) == UserResultsIn(m)
  {
    SplitMessageBlocks(m);
    if IsMixed(m) {
      FlatMapFew(UserResultsIn, SplitMessage(m)[0], SplitMessage(m)[1]);
      FlatMapFew(ResultBlocksIn, SplitMessage(m)[0], SplitMessage(m)[1]);
    } else {
      FlatMapFew(UserResultsIn, m, m);
    }
  }

  lemma RepairKeepsUserResults(ms: seq<Message>)
    ensures UserResults(Repair(ms)) == Map(RenameIn(Renaming(ToolIds(), Surviving(ms))), UserResults(ms))
  {
    var renaming := Renaming(ToolIds(), Surviving(ms));
    forall m ensures UserResultsIn(RenameRefsIn(renaming, m)) == Map(RenameIn(renaming), UserResultsIn(m)) {
      RenamedUserResults(renaming, m);
    }
    forall m ensures FlatMap(UserResultsIn, SplitMessage(m)) == UserResultsIn(m) {
      SplitUserResults(m);
    }
    RepairKeepsOthers(UserResultsIn, RenameIn(renaming), ms);
  }

  function RenameMessage(renaming: map<string, string>): Message -> Message {
    (m: Message) => RenameRefsIn(renaming, m)
  }

  lemma SplitOfOtherRole(m: Message)
    ensures FlatMap(OfOtherRole, SplitMessage(m)) == OfOtherRole(m)
  {
    if IsMixed(m) {
      FlatMapFew(OfOtherRole, SplitMessage(m)[0], SplitMessage(m)[1]);
    } else {
      FlatMapFew(OfOtherRole, m, m);
    }
  }

  lemma RepairKeepsOtherRoles(ms: seq<Message>)
    ensures FlatMap(OfOtherRole, Repair(ms))
         == Map(RenameMessage(Renaming(ToolIds(), Surviving(ms))), FlatMap(OfOtherRole, ms))
  {
    forall m ensures FlatMap(OfOtherRole, SplitMessage(m)) == OfOtherRole(m) {
      SplitOfOtherRole(m);
    }
    RepairKeepsOthers(OfOtherRole, RenameMessage(Renaming(ToolIds(), Surviving(ms))), ms);
  }

  /** What a surviving call becomes in the request. */
  function CallWith(dumps: Json -> string, b: Block, id: string): ToolCall
    requires b.ToolUse?
  {
    ToolCall(id, b.name, dumps(b.input))
  }

  lemma {:induction false} RelabeledCalls(dumps: Json -> string, bs: seq<Block>, ids: seq<string>, bs': seq<Block>)
    requires Relabeled(bs, ids, bs')
    ensures |FlatMap(CallOf(dumps), bs')| == |bs|
    ensures forall i :: 0 <= i < |bs| ==> FlatMap(CallOf(dumps), bs')[i] == CallWith(dumps, bs[i], ids[i])
  {
    if bs != [] {
      RelabeledCalls(dumps, bs[1..], ids[1..], bs'[1..]);
    }
  }

  lemma {:induction false} RenamedPairs(renaming: map<string, string>, bs: seq<Block>)
    requires forall b :: b in bs ==> b.ToolResult?
    ensures |FlatMap(ResultPair, Map(RenameIn(renaming), bs))| == |bs|
    ensures forall j :: 0 <= j < |bs| ==>
              FlatMap(ResultPair, Map(RenameIn(renaming), bs))[j]
              == (Rename(renaming, bs[j].toolUseId), OutputText(bs[j].output))
  {
    if bs != [] {
      assert bs[0].ToolResult?;
      RenamedPairs(renaming, bs[1..]);
    }
  }

  lemma {:induction false} OnlyResults(ms: seq<Message>)
    ensures forall b :: b in UserResults(ms) ==> b.ToolResult?
  {
    if ms != [] {
      OnlyResults(ms[1..]);
      if HasBlocks(ms[0]) {
        OnlyResultsIn(ms[0].content.blocks);
      }
    }
  }

  lemma {:induction false} OnlyResultsIn(bs: seq<Block>)
    ensures forall b :: b in FlatMap(ResultBlock, bs) ==> b.ToolResult?
  {
    if bs != [] {
      OnlyResultsIn(bs[1..]);
    }
  }

  lemma RepairedCalls(dumps: Json -> string, ms: seq<Message>)
    ensures var calls := FlatMap(CallsOut, ConvertMessages(dumps, Repair(ms)));
            var uses, ids := SurvivingUses(ms), NewIds(ToolIds(), Surviving(ms));
            && |calls| == |uses| == |ids|
            && forall k :: 0 <= k < |uses| ==> uses[k].ToolUse? && calls[k] == CallWith(dumps, uses[k], ids[k])
  {
    RepairKeepsBlocks(ms);
    ConversionKeepsExchanges(dumps, Repair(ms));
    RelabeledCalls(dumps, SurvivingUses(ms), NewIds(ToolIds(), Surviving(ms)), UseBlocks(Repair(ms)));
  }

  lemma RepairedResults(dumps: Json -> string, ms: seq<Message>)
    ensures var tools := FlatMap(ToolsOut, ConvertMessages(dumps, Repair(ms)));
            var results, renaming := UserResults(ms), Renaming(ToolIds(), Surviving(ms));
            && |tools| == |results|
            && forall j :: 0 <= j < |results| ==>
                 results[j].ToolResult?
                 && tools[j] == (Rename(renaming, results[j].toolUseId), OutputText(results[j].output))
  {
    RepairKeepsUserResults(ms);
    ConversionKeepsExchanges(dumps, Repair(ms));
    OnlyResults(ms);
    RenamedPairs(Renaming(ToolIds(), Surviving(ms)), UserResults(ms));
  }

  /** Repaired and converted, any conversation makes exactly its answered calls, the k-th under its new id with its own
      name and input, answers with exactly its users' results, the j-th under its renamed id with its own output, and
      passes on its messages of other roles with only the references in them renamed. */
  lemma RepairedRequestCarriesExchanges(dumps: Json -> string, ms: seq<Message>)
    ensures var calls := FlatMap(CallsOut, ConvertMessages(dumps, Repair(ms)));
            var uses, ids := SurvivingUses(ms), NewIds(ToolIds(), Surviving(ms));
            && |calls| == |uses| == |ids|
            && forall k :: 0 <= k < |uses| ==> uses[k].ToolUse? && calls[k] == CallWith(dumps, uses[k], ids[k])
    ensures var tools := FlatMap(ToolsOut, ConvertMessages(dumps, Repair(ms)));
            var results, renaming := UserResults(ms), Renaming(ToolIds(), Surviving(ms));
            && |tools| == |results|
            && forall j :: 0 <= j < |results| ==>
                 results[j].ToolResult?
                 && tools[j] == (Rename(renaming, results[j].toolUseId), OutputText(results[j].output))
    ensures FlatMap(PassedOut, ConvertMessages(dumps, Repair(ms)))
         == Map(RenameMessage(Renaming(ToolIds(), Surviving(ms))), FlatMap(OfOtherRole, ms))
  {
    RepairedCalls(dumps, ms);
    RepairedResults(dumps, ms);
    RepairKeepsOtherRoles(ms);
    ConversionKeepsExchanges(dumps, Repair(ms));
  }
}
