/** The four passes of `repair_tool_pairing` and what they keep (routing/sanitize.py). */
module Sanitize {
  import opened Options
  import opened Sequences
  import opened Conversations
  import opened Renamings
  import opened ProxyIds

  // ---------- pass 1: OpenAI-style calls without a tool message ----------

  function ResponseOf(m: Message): seq<string> {
    if HasRole(m, "tool") && m.toolCallId != "" then [m.toolCallId] else []
  }

  function Responses(ms: seq<Message>): seq<string> { FlatMap(ResponseOf, ms) }

  function PruneCallsIn(responded: seq<string>, m: Message): Message {
    if !HasRole(m, "assistant") || m.toolCalls.None? || m.toolCalls.value == [] then m
    else
      var pruned := Filter((tc: ToolCall) => tc.id in responded, m.toolCalls.value);
      if |pruned| == |m.toolCalls.value| then m
      else m.(toolCalls := if pruned != [] then Some(pruned) else None)
  }

  function PruneCalls(ms: seq<Message>): seq<Message> {
    var responded := Responses(ms);
    Map((m: Message) => PruneCallsIn(responded, m), ms)
  }

  // ---------- pass 2: tool_use blocks without a result ----------

  predicate KeepBlock(refs: seq<string>, b: Block) {
    !(b.ToolUse? && !(b.id != "" && b.id in refs))
  }

  function Keep(refs: seq<string>): Block -> bool { (b: Block) => KeepBlock(refs, b) }

  function PruneUsesIn(refs: seq<string>, m: Message): Message {
    if !HasRole(m, "assistant") || !HasBlocks(m) then m
    else
      var kept := Filter(Keep(refs), m.content.blocks);
      m.(content := if kept == [] && m.content.blocks != [] then Str("") else Blocks(kept))
  }

  function PruneUses(ms: seq<Message>): seq<Message> {
    var refs := RefIds(ms);
    Map((m: Message) => PruneUsesIn(refs, m), ms)
  }

  // ---------- pass 3: ids that are not Anthropic's ----------

  /** The blocks with their tool_use ids replaced, in order. */
  function WithIdsBlocks(bs: seq<Block>, ids: seq<string>): (r: seq<Block>)
    requires |ids| == |FlatMap(UseOf, bs)|
    ensures |r| == |bs|
  {
    if bs == [] then []
    else if bs[0].ToolUse? then [bs[0].(id := ids[0])] + WithIdsBlocks(bs[1..], ids[1..])
    else [bs[0]] + WithIdsBlocks(bs[1..], ids)
  }

  function WithIdsIn(m: Message, ids: seq<string>): Message
    requires |ids| == |UsesIn(m)|
  {
    if HasRole(m, "assistant") && HasBlocks(m) then m.(content := Blocks(WithIdsBlocks(m.content.blocks, ids))) else m
  }

  function WithIds(ms: seq<Message>, ids: seq<string>): (r: seq<Message>)
    requires |ids| == |UseIds(ms)|
    ensures |r| == |ms|
  {
    if ms == [] then []
    else [WithIdsIn(ms[0], ids[..|UsesIn(ms[0])|])] + WithIds(ms[1..], ids[|UsesIn(ms[0])|..])
  }

  function RenameRefIn(renaming: map<string, string>, b: Block): Block {
    if b.ToolResult? then b.(toolUseId := Rename(renaming, b.toolUseId)) else b
  }

  function RenameRefsIn(renaming: map<string, string>, m: Message): Message {
    if HasBlocks(m) then m.(content := Blocks(Map((b: Block) => RenameRefIn(renaming, b), m.content.blocks))) else m
  }

  function RenameRefs(renaming: map<string, string>, ms: seq<Message>): seq<Message> {
    Map((m: Message) => RenameRefsIn(renaming, m), ms)
  }

  function Normalize(ms: seq<Message>): seq<Message> {
    var uses := UseIds(ms);
    RenameRefs(Renaming(ToolIds(), uses), WithIds(ms, NewIds(ToolIds(), uses)))
  }

  // ---------- pass 4: user messages that mix results with other blocks ----------

  predicate IsResult(b: Block) { b.ToolResult? }

  predicate IsOther(b: Block) { !b.ToolResult? }

  predicate IsMixed(m: Message) {
    && HasRole(m, "user") && HasBlocks(m)
    && Filter(IsResult, m.content.blocks) != [] && Filter(IsOther, m.content.blocks) != []
  }

  function UserMessage(bs: seq<Block>): Message { Message("user", Blocks(bs), None, "") }

  function SplitMessage(m: Message): seq<Message> {
    if IsMixed(m) then
      [UserMessage(Filter(IsResult, m.content.blocks)), UserMessage(Filter(IsOther, m.content.blocks))]
    else [m]
  }

  function Split(ms: seq<Message>): seq<Message> { FlatMap(SplitMessage, ms) }

  /** The conversation before the last pass, with as many messages as it had. */
  function Unsplit(ms: seq<Message>): (r: seq<Message>)
    ensures |r| == |ms|
  {
    Normalize(PruneUses(PruneCalls(ms)))
  }

  function Repair(ms: seq<Message>): seq<Message> { Split(Unsplit(ms)) }

  // ---------- what each pass does to the two id lists ----------

  lemma PruneCallsKeepsIds(ms: seq<Message>)
    ensures UseIds(PruneCalls(ms)) == UseIds(ms) && RefIds(PruneCalls(ms)) == RefIds(ms)
  {
    FlatMapAgrees(UsesIn, UsesIn, PruneCalls(ms), ms);
    FlatMapAgrees(RefsIn, RefsIn, PruneCalls(ms), ms);
  }

  function Answered(refs: seq<string>): string -> bool { (id: string) => id != "" && id in refs }

  lemma PruneUsesInIds(refs: seq<string>, m: Message)
    ensures UsesIn(PruneUsesIn(refs, m)) == Filter(Answered(refs), UsesIn(m))
    ensures RefsIn(PruneUsesIn(refs, m)) == RefsIn(m)
  {
    if HasRole(m, "assistant") && HasBlocks(m) {
      KeptBlocksIds(refs, m.content.blocks);
      PrunedMessageIds(m, PruneUsesIn(refs, m), Filter(Keep(refs), m.content.blocks));
    }
  }

  /** A message whose content is cleared when no block is left has the ids of the blocks that are left. */
  lemma PrunedMessageIds(m: Message, m': Message, kept: seq<Block>)
    requires HasRole(m, "assistant") && HasBlocks(m)
    requires m' == m.(content := if kept == [] && m.content.blocks != [] then Str("") else Blocks(kept))
    ensures UsesIn(m') == FlatMap(UseOf, kept) && RefsIn(m') == FlatMap(RefOf, kept)
  {
  }

  lemma {:induction false} KeptBlocksIds(refs: seq<string>, bs: seq<Block>)
    ensures FlatMap(UseOf, Filter(Keep(refs), bs))
         == Filter(Answered(refs), FlatMap(UseOf, bs))
    ensures FlatMap(RefOf, Filter(Keep(refs), bs)) == FlatMap(RefOf, bs)
  {
    var keep := Keep(refs);
    var answered := Answered(refs);
    FlatMapFilter(RefOf, keep, bs);
    if bs != [] {
      KeptBlocksIds(refs, bs[1..]);
      FlatMapConcat(UseOf, if keep(bs[0]) then [bs[0]] else [], Filter(keep, bs[1..]));
      FilterConcat(answered, UseOf(bs[0]), FlatMap(UseOf, bs[1..]));
    }
  }

  /** Exactly the unanswered calls go, and no result does. */
  lemma PruneUsesIds(ms: seq<Message>)
    ensures UseIds(PruneUses(ms)) == Filter(Answered(RefIds(ms)), UseIds(ms))
    ensures RefIds(PruneUses(ms)) == RefIds(ms)
  {
    var refs := RefIds(ms);
    var answered := Answered(refs);
    var kept := (m: Message) => Filter(answered, UsesIn(m));
    forall m ensures UsesIn(PruneUsesIn(refs, m)) == kept(m) && RefsIn(PruneUsesIn(refs, m)) == RefsIn(m) {
      PruneUsesInIds(refs, m);
    }
    FlatMapAgrees(UsesIn, kept, PruneUses(ms), ms);
    FlatMapAgrees(RefsIn, RefsIn, PruneUses(ms), ms);
    FilterFlatMap(answered, UsesIn, kept, ms);
  }

  lemma {:induction false} WithIdsBlocksIds(bs: seq<Block>, ids: seq<string>)
    requires |ids| == |FlatMap(UseOf, bs)|
    ensures FlatMap(UseOf, WithIdsBlocks(bs, ids)) == ids
    ensures FlatMap(RefOf, WithIdsBlocks(bs, ids)) == FlatMap(RefOf, bs)
    ensures ids == FlatMap(UseOf, bs) ==> WithIdsBlocks(bs, ids) == bs
  {
    if bs != [] {
      var rest := if bs[0].ToolUse? then ids[1..] else ids;
      WithIdsBlocksIds(bs[1..], rest);
      assert ids == UseOf(WithIdsBlocks(bs, ids)[0]) + rest;
    }
  }

  lemma {:induction false} WithIdsIds(ms: seq<Message>, ids: seq<string>)
    requires |ids| == |UseIds(ms)|
    ensures UseIds(WithIds(ms, ids)) == ids
    ensures RefIds(WithIds(ms, ids)) == RefIds(ms)
    ensures ids == UseIds(ms) ==> WithIds(ms, ids) == ms
  {
    if ms != [] {
      var n := |UsesIn(ms[0])|;
      var mine, rest := ids[..n], ids[n..];
      assert ids == mine + rest;
      WithIdsIds(ms[1..], rest);
      if HasRole(ms[0], "assistant") && HasBlocks(ms[0]) {
        WithIdsBlocksIds(ms[0].content.blocks, mine);
      }
      assert UsesIn(WithIdsIn(ms[0], mine)) == mine;
      if ids == UseIds(ms) {
        assert mine == UsesIn(ms[0]) && rest == UseIds(ms[1..]);
      }
    }
  }

  function RenameWith(renaming: map<string, string>): string -> string { (ref: string) => Rename(renaming, ref) }

  lemma {:induction false} RenameRefsBlocksIds(renaming: map<string, string>, bs: seq<Block>)
    ensures var r := Map((b: Block) => RenameRefIn(renaming, b), bs);
            && FlatMap(UseOf, r) == FlatMap(UseOf, bs)
            && FlatMap(RefOf, r) == Map(RenameWith(renaming), FlatMap(RefOf, bs))
            && (renaming == map[] ==> r == bs)
  {
    if bs != [] {
      RenameRefsBlocksIds(renaming, bs[1..]);
      MapConcat(RenameWith(renaming), RefOf(bs[0]), FlatMap(RefOf, bs[1..]));
      SplitFirst(bs);
    }
  }

  lemma {:induction false} RenameRefsIds(renaming: map<string, string>, ms: seq<Message>)
    ensures UseIds(RenameRefs(renaming, ms)) == UseIds(ms)
    ensures RefIds(RenameRefs(renaming, ms)) == Map(RenameWith(renaming), RefIds(ms))
    ensures renaming == map[] ==> RenameRefs(renaming, ms) == ms
  {
    if ms != [] {
      RenameRefsIds(renaming, ms[1..]);
      var rename := RenameWith(renaming);
      MapConcat(rename, RefsIn(ms[0]), RefIds(ms[1..]));
      if HasBlocks(ms[0]) {
        RenameRefsBlocksIds(renaming, ms[0].content.blocks);
      }
    }
  }

  lemma NormalizeIds(ms: seq<Message>)
    ensures UseIds(Normalize(ms)) == NewIds(ToolIds(), UseIds(ms))
    ensures RefIds(Normalize(ms)) == RenamedRefs(ToolIds(), UseIds(ms), RefIds(ms))
  {
    var uses := UseIds(ms);
    WithIdsIds(ms, NewIds(ToolIds(), uses));
    RenameRefsIds(Renaming(ToolIds(), uses), WithIds(ms, NewIds(ToolIds(), uses)));
  }

  lemma SplitMessageIds(m: Message)
    ensures FlatMap(UsesIn, SplitMessage(m)) == UsesIn(m)
    ensures FlatMap(RefsIn, SplitMessage(m)) == RefsIn(m)
  {
    FlatMapFew(UsesIn, m, m);
    FlatMapFew(RefsIn, m, m);
    if IsMixed(m) {
      var bs := m.content.blocks;
      FlatMapFew(UsesIn, UserMessage(Filter(IsResult, bs)), UserMessage(Filter(IsOther, bs)));
      FlatMapFew(RefsIn, UserMessage(Filter(IsResult, bs)), UserMessage(Filter(IsOther, bs)));
      FlatMapFilter(RefOf, IsResult, bs);
      NoRefs(Filter(IsOther, bs));
    }
  }

  lemma {:induction false} NoRefs(bs: seq<Block>)
    requires forall b :: b in bs ==> IsOther(b)
    ensures FlatMap(RefOf, bs) == []
  {
    if bs != [] {
      assert IsOther(bs[0]);
      NoRefs(bs[1..]);
    }
  }

  lemma SplitIds(ms: seq<Message>)
    ensures UseIds(Split(ms)) == UseIds(ms) && RefIds(Split(ms)) == RefIds(ms)
  {
    forall m ensures FlatMap(UsesIn, SplitMessage(m)) == UsesIn(m) && FlatMap(RefsIn, SplitMessage(m)) == RefsIn(m) {
      SplitMessageIds(m);
    }
    FlatMapTwice(UsesIn, SplitMessage, UsesIn, ms);
    FlatMapTwice(RefsIn, SplitMessage, RefsIn, ms);
  }

  /** The calls that survive: those with a result. */
  function Surviving(ms: seq<Message>): seq<string> {
    Filter(Answered(RefIds(ms)), UseIds(ms))
  }

  /** The two id lists of a repaired conversation, from those of the original. */
  lemma RepairIds(ms: seq<Message>)
    ensures UseIds(Repair(ms)) == NewIds(ToolIds(), Surviving(ms))
    ensures RefIds(Repair(ms)) == RenamedRefs(ToolIds(), Surviving(ms), RefIds(ms))
  {
    PruneCallsKeepsIds(ms);
    PruneUsesIds(PruneCalls(ms));
    NormalizeIds(PruneUses(PruneCalls(ms)));
    SplitIds(Normalize(PruneUses(PruneCalls(ms))));
  }

  // ---------- main results ----------

  /** No result already refers to one of the names that the repair of this conversation hands out. */
  predicate NamesAreUntaken(ms: seq<Message>) { Untaken(ToolIds(), Surviving(ms), RefIds(ms)) }

  /** No two surviving calls share an id that gets renamed. */
  predicate RenamedAreDistinct(ms: seq<Message>) { ForeignDistinct(ToolIds(), Surviving(ms)) }

  lemma SurvivingAreReferred(ms: seq<Message>)
    ensures forall id :: id in Surviving(ms) ==> id in RefIds(ms)
  {
    forall id | id in Surviving(ms) ensures id in RefIds(ms) {
      assert Answered(RefIds(ms))(id);
    }
  }

  /** Result `j` answers surviving call `k` after the repair exactly when it did before. */
  predicate KeepsAnswer(ms: seq<Message>, k: nat, j: nat)
    requires k < |Surviving(ms)| == |UseIds(Repair(ms))| && j < |RefIds(ms)| == |RefIds(Repair(ms))|
  {
    UseIds(Repair(ms))[k] == RefIds(Repair(ms))[j] <==> Surviving(ms)[k] == RefIds(ms)[j]
  }

  /** Only calls without a result are dropped and no result is; and the repair keeps which result answers which
      surviving call if and only if no two of them share an id that gets renamed and no result bears one of the names
      handed out. */
  lemma RepairKeepsAnswers(ms: seq<Message>)
    ensures |UseIds(Repair(ms))| == |Surviving(ms)| && |RefIds(Repair(ms))| == |RefIds(ms)|
    ensures (forall k, j :: 0 <= k < |Surviving(ms)| && 0 <= j < |RefIds(ms)| ==> KeepsAnswer(ms, k, j)) <==>
            RenamedAreDistinct(ms) && NamesAreUntaken(ms)
  {
    var s, ids, refs := ToolIds(), Surviving(ms), RefIds(ms);
    RepairIds(ms);
    ToolIdsAreFresh();
    SurvivingAreReferred(ms);
    RenamingKeepsReferences(s, ids, refs);
    if forall k, j :: 0 <= k < |ids| && 0 <= j < |refs| ==> KeepsAnswer(ms, k, j) {
      forall k, j | 0 <= k < |ids| && 0 <= j < |refs| ensures Keeps(s, ids, refs, k, j) {
        assert KeepsAnswer(ms, k, j);
      }
    }
    if forall k, j :: 0 <= k < |ids| && 0 <= j < |refs| ==> Keeps(s, ids, refs, k, j) {
      forall k, j | 0 <= k < |ids| && 0 <= j < |refs| ensures KeepsAnswer(ms, k, j) {
        assert Keeps(s, ids, refs, k, j);
      }
    }
  }

  /** Every call of a repaired conversation carries an Anthropic id. */
  lemma RepairedIdsAreNative(ms: seq<Message>, id: string)
    requires id in UseIds(Repair(ms))
    ensures id != "" && PREFIX <= id
  {
    RepairIds(ms);
    ToolIdsAreFresh();
    NewIdsAreNative(ToolIds(), Surviving(ms), id);
    assert "" !in Surviving(ms);
  }

  /** Of surviving calls that share an id that gets renamed, all but the last are answered already under their new
      name. */
  predicate SharedAreAnswered(ms: seq<Message>) { SharedAreCovered(ToolIds(), Surviving(ms), RefIds(ms)) }

  /** Every call has a result after the repair exactly when the surviving calls that share a renamed id happen to be
      answered under their new names; where no result bears such a name, exactly when none share one. */
  lemma RepairAnswersAll(ms: seq<Message>)
    ensures AllAnswered(Repair(ms)) <==> SharedAreAnswered(ms)
    ensures NamesAreUntaken(ms) ==> (AllAnswered(Repair(ms)) <==> RenamedAreDistinct(ms))
  {
    RepairIds(ms);
    ToolIdsAreFresh();
    SurvivingAreReferred(ms);
    ReferredUnlessShared(ToolIds(), Surviving(ms), RefIds(ms), []);
    assert RefIds(ms) + [] == RefIds(ms);
    forall id | id in UseIds(Repair(ms))
      ensures id != "" && (IsBorne(ToolIds(), Surviving(ms), RefIds(ms), [], id) <==> id in RefIds(Repair(ms)))
    {
      RepairedIdsAreNative(ms, id);
    }
  }

  // ---------- repairing twice ----------

  /** What pass 1 looks at and the other passes leave alone. */
  predicate SameHeader(m: Message, m': Message) {
    && m.Message? == m'.Message?
    && (m.Message? ==> m'.role == m.role && m'.toolCalls == m.toolCalls && m'.toolCallId == m.toolCallId)
  }

  predicate SameHeaders(ms: seq<Message>, ms': seq<Message>) {
    |ms| == |ms'| && forall i :: 0 <= i < |ms| ==> SameHeader(ms[i], ms'[i])
  }

  /** Pass 1 has nothing to do. */
  predicate CallsSettled(responded: seq<string>, ms: seq<Message>) {
    forall m :: m in ms ==> PruneCallsIn(responded, m) == m
  }

  lemma PruneCallsSettles(ms: seq<Message>)
    ensures Responses(PruneCalls(ms)) == Responses(ms) && CallsSettled(Responses(ms), PruneCalls(ms))
  {
    var responded := Responses(ms);
    FlatMapAgrees(ResponseOf, ResponseOf, PruneCalls(ms), ms);
    forall m | m in PruneCalls(ms) ensures PruneCallsIn(responded, m) == m {
      var i :| 0 <= i < |ms| && m == PruneCallsIn(responded, ms[i]);
      PruneCallsInTwice(responded, ms[i]);
    }
  }

  lemma PruneCallsInTwice(responded: seq<string>, m: Message)
    ensures PruneCallsIn(responded, PruneCallsIn(responded, m)) == PruneCallsIn(responded, m)
  {
    if HasRole(m, "assistant") && m.toolCalls.Some? {
      var p := (tc: ToolCall) => tc.id in responded;
      FilterAll(p, Filter(p, m.toolCalls.value));
    }
  }

  lemma HeadersDecide(responded: seq<string>, ms: seq<Message>, ms': seq<Message>)
    requires SameHeaders(ms, ms') && CallsSettled(responded, ms)
    ensures Responses(ms') == Responses(ms) && CallsSettled(responded, ms')
  {
    FlatMapAgrees(ResponseOf, ResponseOf, ms', ms);
    forall m' | m' in ms' ensures PruneCallsIn(responded, m') == m' {
      var i :| 0 <= i < |ms'| && m' == ms'[i];
      assert ms[i] in ms && SameHeader(ms[i], m');
    }
  }

  lemma {:induction false} WithIdsHeaders(ms: seq<Message>, ids: seq<string>)
    requires |ids| == |UseIds(ms)|
    ensures SameHeaders(ms, WithIds(ms, ids))
  {
    if ms != [] {
      WithIdsHeaders(ms[1..], ids[|UsesIn(ms[0])|..]);
    }
  }

  lemma NormalizeHeaders(ms: seq<Message>)
    ensures SameHeaders(ms, Normalize(ms))
  {
    WithIdsHeaders(ms, NewIds(ToolIds(), UseIds(ms)));
  }

  lemma SplitSettled(responded: seq<string>, ms: seq<Message>)
    requires CallsSettled(responded, ms)
    ensures Responses(Split(ms)) == Responses(ms) && CallsSettled(responded, Split(ms))
  {
    forall m ensures FlatMap(ResponseOf, SplitMessage(m)) == ResponseOf(m) {
      FlatMapFew(ResponseOf, m, m);
      if IsMixed(m) {
        FlatMapFew(ResponseOf, SplitMessage(m)[0], SplitMessage(m)[1]);
      }
    }
    FlatMapTwice(ResponseOf, SplitMessage, ResponseOf, ms);
    forall m' | m' in Split(ms) ensures PruneCallsIn(responded, m') == m' {
      FlatMapMember(SplitMessage, ms, m');
    }
  }

  lemma RepairedCallsSettled(ms: seq<Message>)
    ensures PruneCalls(Repair(ms)) == Repair(ms)
  {
    var responded := Responses(ms);
    var a := PruneCalls(ms);
    PruneCallsSettles(ms);
    HeadersDecide(responded, a, PruneUses(a));
    NormalizeHeaders(PruneUses(a));
    HeadersDecide(responded, PruneUses(a), Normalize(PruneUses(a)));
    SplitSettled(responded, Normalize(PruneUses(a)));
    var r := Repair(ms);
    assert Responses(r) == responded;
    forall i | 0 <= i < |r| ensures PruneCalls(r)[i] == r[i] {
      assert r[i] in r;
    }
  }

  // ---------- what stands outside the assistant messages ----------

  /** The conversation once the new ids are handed out, before the references follow. */
  function Labelled(ms: seq<Message>): (r: seq<Message>)
    ensures |r| == |ms|
  {
    var b := PruneUses(PruneCalls(ms));
    WithIds(b, NewIds(ToolIds(), UseIds(b)))
  }

  lemma {:induction false} WithIdsOthers(ms: seq<Message>, ids: seq<string>)
    requires |ids| == |UseIds(ms)|
    ensures forall i :: 0 <= i < |ms| && !HasRole(ms[i], "assistant") ==> WithIds(ms, ids)[i] == ms[i]
  {
    if ms != [] {
      WithIdsOthers(ms[1..], ids[|UsesIn(ms[0])|..]);
    }
  }

  /** Up to there, assistant messages stay assistant messages, and no other changes. */
  lemma LabelledOthers(ms: seq<Message>, i: nat)
    requires i < |ms|
    ensures HasRole(Labelled(ms)[i], "assistant") <==> HasRole(ms[i], "assistant")
    ensures !HasRole(ms[i], "assistant") ==> Labelled(ms)[i] == ms[i]
  {
    var b := PruneUses(PruneCalls(ms));
    WithIdsHeaders(b, NewIds(ToolIds(), UseIds(b)));
    WithIdsOthers(b, NewIds(ToolIds(), UseIds(b)));
    assert SameHeader(b[i], Labelled(ms)[i]);
  }

  lemma UnsplitRenames(ms: seq<Message>)
    ensures Unsplit(ms) == RenameRefs(Renaming(ToolIds(), Surviving(ms)), Labelled(ms))
  {
    PruneCallsKeepsIds(ms);
    PruneUsesIds(PruneCalls(ms));
  }

  /** Whatever is read from other messages only, and from the parts of a split message as from the whole, comes through
      the repair as the renaming of references leaves it. */
  lemma RepairKeepsOthers<A>(f: Message -> seq<A>, h: A -> A, ms: seq<Message>)
    requires forall m :: HasRole(m, "assistant") ==> f(m) == []
    requires forall m :: f(RenameRefsIn(Renaming(ToolIds(), Surviving(ms)), m)) == Map(h, f(m))
    requires forall m :: FlatMap(f, SplitMessage(m)) == f(m)
    ensures FlatMap(f, Repair(ms)) == Map(h, FlatMap(f, ms))
  {
    UnsplitRenames(ms);
    forall i | 0 <= i < |ms| ensures f(Unsplit(ms)[i]) == Map(h, f(ms[i])) {
      LabelledOthers(ms, i);
      assert f(Labelled(ms)[i]) == f(ms[i]);
    }
    FlatMapMapped(f, h, ms, Unsplit(ms));
    FlatMapTwice(f, SplitMessage, f, Unsplit(ms));
  }

  // ---------- what pass 1 keeps ----------

  function Responded(responded: seq<string>): string -> bool { (id: string) => id in responded }

  lemma {:induction false} KeptCallsIds(responded: seq<string>, tcs: seq<ToolCall>)
    ensures FlatMap(IdOf, Filter((tc: ToolCall) => tc.id in responded, tcs))
         == Filter(Responded(responded), FlatMap(IdOf, tcs))
  {
    if tcs != [] {
      KeptCallsIds(responded, tcs[1..]);
      var keep := (tc: ToolCall) => tc.id in responded;
      FlatMapConcat(IdOf, if keep(tcs[0]) then [tcs[0]] else [], Filter(keep, tcs[1..]));
      FilterConcat(Responded(responded), IdOf(tcs[0]), FlatMap(IdOf, tcs[1..]));
    }
  }

  lemma PruneCallsInIds(responded: seq<string>, m: Message)
    ensures CallsIn(PruneCallsIn(responded, m)) == Filter(Responded(responded), CallsIn(m))
  {
    if HasRole(m, "assistant") && m.toolCalls.Some? {
      KeptCallsIds(responded, m.toolCalls.value);
      FilterFull((tc: ToolCall) => tc.id in responded, m.toolCalls.value);
    }
  }

  lemma {:induction false} SameCalls(ms: seq<Message>, ms': seq<Message>)
    requires SameHeaders(ms, ms')
    ensures FlatMap(CallsIn, ms') == FlatMap(CallsIn, ms)
  {
    FlatMapAgrees(CallsIn, CallsIn, ms', ms);
  }

  lemma SplitKeepsCalls(ms: seq<Message>)
    ensures FlatMap(CallsIn, Split(ms)) == FlatMap(CallsIn, ms)
  {
    forall m ensures FlatMap(CallsIn, SplitMessage(m)) == CallsIn(m) {
      FlatMapFew(CallsIn, m, m);
      if IsMixed(m) {
        FlatMapFew(CallsIn, SplitMessage(m)[0], SplitMessage(m)[1]);
      }
    }
    FlatMapTwice(CallsIn, SplitMessage, CallsIn, ms);
  }

  lemma PruneCallsIds(ms: seq<Message>)
    ensures FlatMap(CallsIn, PruneCalls(ms)) == Filter(Responded(Responses(ms)), FlatMap(CallsIn, ms))
  {
    var responded := Responses(ms);
    var kept := (m: Message) => Filter(Responded(responded), CallsIn(m));
    forall m ensures CallsIn(PruneCallsIn(responded, m)) == kept(m) {
      PruneCallsInIds(responded, m);
    }
    FlatMapAgrees(CallsIn, kept, PruneCalls(ms), ms);
    FilterFlatMap(Responded(responded), CallsIn, kept, ms);
  }

  /** Of the OpenAI-style calls, the repair drops exactly those without a tool message, and no tool message. */
  lemma RepairKeepsAnsweredCalls(ms: seq<Message>)
    ensures FlatMap(CallsIn, Repair(ms)) == Filter(Responded(Responses(ms)), FlatMap(CallsIn, ms))
    ensures Responses(Repair(ms)) == Responses(ms)
  {
    var a := PruneCalls(ms);
    PruneCallsIds(ms);
    PruneCallsSettles(ms);
    SameCalls(a, PruneUses(a));
    HeadersDecide(Responses(ms), a, PruneUses(a));
    NormalizeHeaders(PruneUses(a));
    SameCalls(PruneUses(a), Normalize(PruneUses(a)));
    HeadersDecide(Responses(ms), PruneUses(a), Normalize(PruneUses(a)));
    SplitKeepsCalls(Normalize(PruneUses(a)));
    SplitSettled(Responses(ms), Normalize(PruneUses(a)));
  }

  lemma NothingToPrune(ms: seq<Message>)
    requires AllAnswered(ms)
    ensures PruneUses(ms) == ms
  {
    var refs := RefIds(ms);
    forall i | 0 <= i < |ms| ensures PruneUsesIn(refs, ms[i]) == ms[i] {
      forall id | id in UsesIn(ms[i]) ensures id != "" && id in refs {
        FlatMapHas(UsesIn, ms, i, id);
        assert id in UseIds(ms);
      }
      NothingToPruneIn(refs, ms[i]);
    }
  }

  lemma NothingToPruneIn(refs: seq<string>, m: Message)
    requires forall id :: id in UsesIn(m) ==> id != "" && id in refs
    ensures PruneUsesIn(refs, m) == m
  {
    if HasRole(m, "assistant") && HasBlocks(m) {
      var bs := m.content.blocks;
      forall b | b in bs ensures Keep(refs)(b) {
        if b.ToolUse? {
          var n :| 0 <= n < |bs| && bs[n] == b;
          FlatMapHas(UseOf, bs, n, b.id);
          assert b.id in UsesIn(m);
          assert KeepBlock(refs, b);
        }
      }
      FilterAll(Keep(refs), bs);
    }
  }

  lemma SplitTwice(ms: seq<Message>)
    ensures Split(Split(ms)) == Split(ms)
  {
    forall m ensures FlatMap(SplitMessage, SplitMessage(m)) == SplitMessage(m) {
      FlatMapFew(SplitMessage, m, m);
      if IsMixed(m) {
        var bs := m.content.blocks;
        assert Filter(IsOther, Filter(IsResult, bs)) == [] by {
          NoneLeft(IsOther, Filter(IsResult, bs));
        }
        assert Filter(IsResult, Filter(IsOther, bs)) == [] by {
          NoneLeft(IsResult, Filter(IsOther, bs));
        }
        FlatMapFew(SplitMessage, SplitMessage(m)[0], SplitMessage(m)[1]);
      }
    }
    FlatMapTwice(SplitMessage, SplitMessage, SplitMessage, ms);
  }

  lemma NoneLeft(p: Block -> bool, bs: seq<Block>)
    requires forall b :: b in bs ==> !p(b)
    ensures Filter(p, bs) == []
  {
  }

  lemma NormalizeSettled(ms: seq<Message>)
    requires forall id :: id in UseIds(ms) ==> !Foreign(id)
    ensures Normalize(ms) == ms
  {
    NothingToRename(ToolIds(), UseIds(ms));
    WithIdsIds(ms, UseIds(ms));
    RenameRefsIds(map[], ms);
  }

  lemma SettledWhenAnswered(ms: seq<Message>)
    ensures Repair(Repair(ms)) == Repair(ms) <==> AllAnswered(Repair(ms))
  {
    var r := Repair(ms);
    if AllAnswered(r) {
      RepairedCallsSettled(ms);
      NothingToPrune(r);
      forall id | id in UseIds(r) ensures !Foreign(id) {
        RepairedIdsAreNative(ms, id);
      }
      NormalizeSettled(r);
      SplitTwice(Normalize(PruneUses(PruneCalls(ms))));
    } else {
      RepairIds(r);
      FilterFull(Answered(RefIds(r)), UseIds(r));
      FilterAll(Answered(RefIds(r)), UseIds(r));
    }
  }

  /** Repairing again changes nothing exactly when the surviving calls that share a renamed id are answered under their
      new names; where no result bears such a name, exactly when none share one. */
  lemma RepairIdempotent(ms: seq<Message>)
    ensures Repair(Repair(ms)) == Repair(ms) <==> SharedAreAnswered(ms)
    ensures NamesAreUntaken(ms) ==> (Repair(Repair(ms)) == Repair(ms) <==> RenamedAreDistinct(ms))
  {
    SettledWhenAnswered(ms);
    RepairAnswersAll(ms);
  }

  /** A renamed id used by two calls, both answered by the one result that carries it. */
  lemma DuplicateIdsLoseAnAnswer(id: string)
    requires Foreign(id)
    ensures var call, result := ToolUse(id, "f", JNull), ToolResult(id, Plain(""));
            var ms := [Message("assistant", Blocks([call, call]), None, ""), UserMessage([result])];
            AllAnswered(ms) && !AllAnswered(Repair(ms))
  {
    var call, result := ToolUse(id, "f", JNull), ToolResult(id, Plain(""));
    var ms := [Message("assistant", Blocks([call, call]), None, ""), UserMessage([result])];
    FlatMapFew(UseOf, call, call);
    FlatMapFew(RefOf, call, call);
    FlatMapFew(RefOf, result, result);
    FlatMapFew(UsesIn, ms[0], ms[1]);
    FlatMapFew(RefsIn, ms[0], ms[1]);
    assert UseIds(ms) == [id, id] && RefIds(ms) == [id];
    FilterAll(Answered(RefIds(ms)), UseIds(ms));
    SharedIdLosesAnAnswer(ms, id);
  }

  lemma SharedIdLosesAnAnswer(ms: seq<Message>, id: string)
    requires Foreign(id) && Surviving(ms) == [id, id] && RefIds(ms) == [id]
    ensures !AllAnswered(Repair(ms))
  {
    assert Surviving(ms)[0] == Surviving(ms)[1] && ToolIds().foreign(Surviving(ms)[0]);
    OutsideProxyNamespace(Surviving(ms), RefIds(ms));
    RepairAnswersAll(ms);
  }

  /** Two calls in one message, and both their results in the next. */
  function TwoCalls(a: string, b: string): seq<Message> {
    [Message("assistant", Blocks([ToolUse(a, "f", JNull), ToolUse(b, "g", JNull)]), None, ""),
     UserMessage([ToolResult(a, Plain("")), ToolResult(b, Plain(""))])]
  }

  lemma TwoCallsIds(a: string, b: string)
    ensures UseIds(TwoCalls(a, b)) == [a, b]
    ensures RefIds(TwoCalls(a, b)) == [a, b]
  {
    var ms := TwoCalls(a, b);
    var uses, results := ms[0].content.blocks, ms[1].content.blocks;
    FlatMapFew(UseOf, uses[0], uses[1]);
    FlatMapFew(RefOf, uses[0], uses[1]);
    FlatMapFew(RefOf, results[0], results[1]);
    FlatMapFew(UsesIn, ms[0], ms[1]);
    FlatMapFew(RefsIn, ms[0], ms[1]);
  }

  /** Next to a call that already bears the first name handed out, a renamed call takes the same name, and the two can
      no longer be told apart. */
  lemma PriorProxyIdClashes(id: string)
    requires Foreign(id)
    ensures var ms := TwoCalls(ProxyId(1), id);
            && UseIds(ms) == RefIds(ms) == [ProxyId(1), id]
            && UseIds(Repair(ms)) == [ProxyId(1), ProxyId(1)]
  {
    var ms := TwoCalls(ProxyId(1), id);
    TwoCallsIds(ProxyId(1), id);
    FilterAll(Answered(RefIds(ms)), UseIds(ms));
    RepairIds(ms);
    NewIdsOfTwo(ToolIds(), ProxyId(1), id);
  }

  lemma NewIdsOfTwo(s: Scheme, native: string, id: string)
    requires !s.foreign(native) && s.foreign(id)
    ensures NewIds(s, [native, id]) == [native, s.newId(1)]
  {
    CountSnoc(s, [], native);
    CountSnoc(s, [native], id);
    assert [] + [native] == [native] && [native] + [id] == [native, id];
  }
}
