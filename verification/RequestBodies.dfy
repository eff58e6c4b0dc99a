/** The request body that `repair_tool_pairing` rewrites in place (routing/sanitize.py). */
module RequestBodies {
  import opened Options
  import opened Sequences
  import opened Conversations
  import opened Renamings
  import opened ProxyIds
  import opened Sanitize

  // ---------- walking over the ids with a counter and a rename map ----------

  /** The counter and the rename map after the first `n` ids. */
  predicate Walked(uses: seq<string>, n: nat, counter: nat, rename: map<string, string>) {
    n <= |uses| && counter == Count(ToolIds(), uses[..n]) && rename == Renaming(ToolIds(), uses[..n])
  }

  lemma WalkOne(uses: seq<string>, n: nat, counter: nat, rename: map<string, string>)
    requires n < |uses| && Walked(uses, n, counter, rename)
    ensures var id := uses[n];
            if Foreign(id) then
              && NewIds(ToolIds(), uses)[n] == ProxyId(counter + 1)
              && Walked(uses, n + 1, counter + 1, rename[id := ProxyId(counter + 1)])
            else NewIds(ToolIds(), uses)[n] == id && Walked(uses, n + 1, counter, rename)
  {
    var s, before := ToolIds(), uses[..n];
    assert s.foreign(uses[n]) == Foreign(uses[n]) && s.newId(counter + 1) == ProxyId(counter + 1);
    NextId(s, uses, n);
  }

  lemma NextId(s: Scheme, uses: seq<string>, n: nat)
    requires n < |uses|
    ensures var id, c := uses[n], Count(s, uses[..n]) + 1;
            && NewIds(s, uses)[n] == (if s.foreign(id) then s.newId(c) else id)
            && Count(s, uses[..n + 1]) == (if s.foreign(id) then c else c - 1)
            && Renaming(s, uses[..n + 1])
               == (if s.foreign(id) then Renaming(s, uses[..n])[id := s.newId(c)] else Renaming(s, uses[..n]))
  {
    NewIdAt(s, uses, n);
    assert uses[..n + 1] == uses[..n] + [uses[n]];
    CountSnoc(s, uses[..n], uses[n]);
  }

  /** How many ids stand before block `j`. */
  function Before(bs: seq<Block>, j: nat): nat
    requires j <= |bs|
  {
    |FlatMap(UseOf, bs[..j])|
  }

  lemma BeforeStep(bs: seq<Block>, j: nat)
    requires j < |bs|
    ensures Before(bs, j + 1) == Before(bs, j) + |UseOf(bs[j])| <= |FlatMap(UseOf, bs)|
    ensures bs[j].ToolUse? ==> FlatMap(UseOf, bs)[Before(bs, j)] == bs[j].id
  {
    FlatMapUpTo(UseOf, bs, j);
    FlatMapConcat(UseOf, bs[..j + 1], bs[j + 1..]);
    assert bs == bs[..j + 1] + bs[j + 1..];
  }

  /** Block `j` with its new id. */
  function WithItsId(bs: seq<Block>, ids: seq<string>, j: nat): Block
    requires j < |bs| && |ids| == |FlatMap(UseOf, bs)|
  {
    BeforeStep(bs, j);
    if bs[j].ToolUse? then bs[j].(id := ids[Before(bs, j)]) else bs[j]
  }

  lemma BeforeInRest(bs: seq<Block>, j: nat)
    requires 0 < j <= |bs|
    ensures Before(bs, j) == |UseOf(bs[0])| + Before(bs[1..], j - 1)
  {
    assert bs[..j][1..] == bs[1..][..j - 1];
  }

  lemma {:induction false} WithIdsBlocksAt(bs: seq<Block>, ids: seq<string>, j: nat)
    requires j < |bs| && |ids| == |FlatMap(UseOf, bs)|
    ensures WithIdsBlocks(bs, ids)[j] == WithItsId(bs, ids, j)
  {
    if j > 0 {
      var rest := if bs[0].ToolUse? then ids[1..] else ids;
      WithIdsBlocksAt(bs[1..], rest, j - 1);
      WithItsIdInRest(bs, ids, rest, j);
    }
  }

  lemma WithItsIdInRest(bs: seq<Block>, ids: seq<string>, rest: seq<string>, j: nat)
    requires 0 < j < |bs| && |ids| == |FlatMap(UseOf, bs)| && rest == if bs[0].ToolUse? then ids[1..] else ids
    ensures |rest| == |FlatMap(UseOf, bs[1..])| && WithItsId(bs, ids, j) == WithItsId(bs[1..], rest, j - 1)
  {
    BeforeStep(bs, j);
    BeforeInRest(bs, j);
    BeforeStep(bs[1..], j - 1);
  }

  /** How many ids stand before message `k`. */
  function Start(ms: seq<Message>, k: nat): nat
    requires k <= |ms|
  {
    |UseIds(ms[..k])|
  }

  lemma StartStep(ms: seq<Message>, k: nat)
    requires k < |ms|
    ensures Start(ms, k + 1) == Start(ms, k) + |UsesIn(ms[k])| <= |UseIds(ms)|
    ensures UseIds(ms)[Start(ms, k)..Start(ms, k + 1)] == UsesIn(ms[k])
  {
    FlatMapUpTo(UsesIn, ms, k);
    FlatMapConcat(UsesIn, ms[..k + 1], ms[k + 1..]);
    assert ms == ms[..k + 1] + ms[k + 1..];
  }

  /** Message `k` with its new ids. */
  function WithItsIds(ms: seq<Message>, ids: seq<string>, k: nat): Message
    requires k < |ms| && |ids| == |UseIds(ms)|
  {
    StartStep(ms, k);
    WithIdsIn(ms[k], ids[Start(ms, k)..Start(ms, k + 1)])
  }

  lemma StartInRest(ms: seq<Message>, k: nat)
    requires 0 < k <= |ms|
    ensures Start(ms, k) == |UsesIn(ms[0])| + Start(ms[1..], k - 1)
  {
    assert ms[..k][1..] == ms[1..][..k - 1];
  }

  lemma SliceOfRest<T>(xs: seq<T>, u: nat, a: nat, b: nat)
    requires a <= b && u + b <= |xs|
    ensures xs[u..][a..b] == xs[u + a..u + b]
  {
  }

  lemma {:induction false} WithIdsAt(ms: seq<Message>, ids: seq<string>, k: nat)
    requires k < |ms| && |ids| == |UseIds(ms)|
    ensures WithIds(ms, ids)[k] == WithItsIds(ms, ids, k)
  {
    if k > 0 {
      WithIdsAt(ms[1..], ids[|UsesIn(ms[0])|..], k - 1);
      WithItsIdsInRest(ms, ids, k);
    } else {
      StartStep(ms, 0);
    }
  }

  lemma WithItsIdsInRest(ms: seq<Message>, ids: seq<string>, k: nat)
    requires 0 < k < |ms| && |ids| == |UseIds(ms)|
    ensures WithItsIds(ms, ids, k) == WithItsIds(ms[1..], ids[|UsesIn(ms[0])|..], k - 1)
  {
    StartInRest(ms, k);
    StartInRest(ms, k + 1);
    StartStep(ms[1..], k - 1);
    SliceOfRest(ids, |UsesIn(ms[0])|, Start(ms[1..], k - 1), Start(ms[1..], k));
  }

  /** The blocks at hand are those whose ids stand at `n` and after in `uses`. */
  predicate UsesAt(uses: seq<string>, n: nat, bs: seq<Block>) {
    n + |FlatMap(UseOf, bs)| <= |uses| && uses[n..n + |FlatMap(UseOf, bs)|] == FlatMap(UseOf, bs)
  }

  function IdsAt(uses: seq<string>, n: nat, bs: seq<Block>): seq<string>
    requires UsesAt(uses, n, bs)
  {
    NewIds(ToolIds(), uses)[n..n + |FlatMap(UseOf, bs)|]
  }

  /** One block of a message whose ids stand at `n` and after. */
  lemma BlockStep(uses: seq<string>, n: nat, bs: seq<Block>, j: nat, counter: nat, rename: map<string, string>)
    requires UsesAt(uses, n, bs) && j < |bs| && Walked(uses, n + Before(bs, j), counter, rename)
    ensures if bs[j].ToolUse? && Foreign(bs[j].id) then
              && WithItsId(bs, IdsAt(uses, n, bs), j) == bs[j].(id := ProxyId(counter + 1))
              && Walked(uses, n + Before(bs, j + 1), counter + 1, rename[bs[j].id := ProxyId(counter + 1)])
            else
              && WithItsId(bs, IdsAt(uses, n, bs), j) == bs[j]
              && Walked(uses, n + Before(bs, j + 1), counter, rename)
  {
    BeforeStep(bs, j);
    if bs[j].ToolUse? {
      IdAt(uses, n, bs, Before(bs, j));
      WalkOne(uses, n + Before(bs, j), counter, rename);
    }
  }

  lemma IdAt(uses: seq<string>, n: nat, bs: seq<Block>, k: nat)
    requires UsesAt(uses, n, bs) && k < |FlatMap(UseOf, bs)|
    ensures n + k < |uses| && uses[n + k] == FlatMap(UseOf, bs)[k]
    ensures IdsAt(uses, n, bs)[k] == NewIds(ToolIds(), uses)[n + k]
  {
    assert uses[n..n + |FlatMap(UseOf, bs)|][k] == uses[n + k];
  }

  predicate BlockDone(bs: seq<Block>, ids: seq<string>, blocks: seq<Block>, i: nat) {
    i < |blocks| && i < |bs| && |ids| == |FlatMap(UseOf, bs)| && blocks[i] == WithItsId(bs, ids, i)
  }

  /** The walk over the blocks has come to block `j`. */
  predicate WalkingBlocks(uses: seq<string>, n: nat, bs: seq<Block>, blocks: seq<Block>, j: nat, counter: nat,
                          rename: map<string, string>)
  {
    && UsesAt(uses, n, bs) && j == |blocks| <= |bs|
    && (forall i {:trigger BlockDone(bs, IdsAt(uses, n, bs), blocks, i)} :: 0 <= i < j ==>
          BlockDone(bs, IdsAt(uses, n, bs), blocks, i))
    && Walked(uses, n + Before(bs, j), counter, rename)
  }

  lemma WalkBlock(uses: seq<string>, n: nat, bs: seq<Block>, blocks: seq<Block>, j: nat, c: nat,
                  r: map<string, string>, b: Block, counter: nat, rename: map<string, string>)
    requires WalkingBlocks(uses, n, bs, blocks, j, c, r) && j < |bs|
    requires b == WithItsId(bs, IdsAt(uses, n, bs), j) && Walked(uses, n + Before(bs, j + 1), counter, rename)
    ensures WalkingBlocks(uses, n, bs, blocks + [b], j + 1, counter, rename)
  {
    var ids, after := IdsAt(uses, n, bs), blocks + [b];
    forall i | 0 <= i < j + 1 ensures BlockDone(bs, ids, after, i) {
      assert i < j ==> BlockDone(bs, ids, blocks, i);
    }
  }

  lemma BlocksWalked(uses: seq<string>, n: nat, bs: seq<Block>, blocks: seq<Block>, counter: nat,
                     rename: map<string, string>)
    requires WalkingBlocks(uses, n, bs, blocks, |bs|, counter, rename)
    ensures Walked(uses, n + |FlatMap(UseOf, bs)|, counter, rename)
    ensures blocks == WithIdsBlocks(bs, IdsAt(uses, n, bs))
  {
    AllBlocksDone(bs, IdsAt(uses, n, bs), blocks);
    BeforeEnd(bs);
  }

  lemma BeforeEnd(bs: seq<Block>)
    ensures Before(bs, |bs|) == |FlatMap(UseOf, bs)|
  {
    assert bs[..|bs|] == bs;
  }

  lemma AllBlocksDone(bs: seq<Block>, ids: seq<string>, blocks: seq<Block>)
    requires |blocks| == |bs| && |ids| == |FlatMap(UseOf, bs)|
    requires forall i {:trigger BlockDone(bs, ids, blocks, i)} :: 0 <= i < |bs| ==> BlockDone(bs, ids, blocks, i)
    ensures blocks == WithIdsBlocks(bs, ids)
  {
    forall i | 0 <= i < |bs| ensures blocks[i] == WithIdsBlocks(bs, ids)[i] {
      assert BlockDone(bs, ids, blocks, i);
      WithIdsBlocksAt(bs, ids, i);
    }
  }

  /** Renames the tool_use ids of one message. */
  method NormalizeUses(bs: seq<Block>, c: nat, r: map<string, string>, ghost uses: seq<string>, ghost n: nat)
    returns (blocks: seq<Block>, counter: nat, rename: map<string, string>)
    requires WalkingBlocks(uses, n, bs, [], 0, c, r)
    ensures WalkingBlocks(uses, n, bs, blocks, |bs|, counter, rename)
  {
    blocks, counter, rename := [], c, r;
    for j := 0 to |bs|
      invariant WalkingBlocks(uses, n, bs, blocks, j, counter, rename)
    {
      BlockStep(uses, n, bs, j, counter, rename);
      var b := bs[j];
      ghost var was, before := counter, rename;
      if b.ToolUse? && Foreign(b.id) {
        counter := counter + 1;
        rename := rename[b.id := ProxyId(counter)];
        b := b.(id := ProxyId(counter));
      }
      WalkBlock(uses, n, bs, blocks, j, was, before, b, counter, rename);
      blocks := blocks + [b];
    }
  }

  function NewMessage(ms: seq<Message>, k: nat): Message
    requires k < |ms|
  {
    WithItsIds(ms, NewIds(ToolIds(), UseIds(ms)), k)
  }

  predicate IsDone(ms: seq<Message>, now: seq<Message>, k: nat) { k < |ms| && k < |now| && now[k] == NewMessage(ms, k) }

  /** The walk over the messages has come to message `i`. */
  predicate WalkingMessages(ms: seq<Message>, now: seq<Message>, i: nat, counter: nat, rename: map<string, string>) {
    && i <= |ms| == |now|
    && (forall k :: i <= k < |ms| ==> now[k] == ms[k])
    && (forall k {:trigger IsDone(ms, now, k)} :: 0 <= k < i ==> IsDone(ms, now, k))
    && Walked(UseIds(ms), Start(ms, i), counter, rename)
  }

  lemma MessageStep(ms: seq<Message>, now: seq<Message>, i: nat, c: nat, r: map<string, string>,
                    m: Message, counter: nat, rename: map<string, string>)
    requires i < |ms| && WalkingMessages(ms, now, i, c, r) && m == NewMessage(ms, i)
    requires Walked(UseIds(ms), Start(ms, i + 1), counter, rename)
    ensures WalkingMessages(ms, now[i := m], i + 1, counter, rename)
  {
    var after := now[i := m];
    forall k | 0 <= k < i + 1 ensures IsDone(ms, after, k) {
      assert k < i ==> IsDone(ms, now, k);
    }
  }

  lemma MessagesWalked(ms: seq<Message>, now: seq<Message>, counter: nat, rename: map<string, string>)
    requires WalkingMessages(ms, now, |ms|, counter, rename)
    ensures now == WithIds(ms, NewIds(ToolIds(), UseIds(ms))) && rename == Renaming(ToolIds(), UseIds(ms))
  {
    var ids := NewIds(ToolIds(), UseIds(ms));
    forall k | 0 <= k < |ms| ensures now[k] == WithIds(ms, ids)[k] {
      assert IsDone(ms, now, k);
      WithIdsAt(ms, ids, k);
    }
    assert ms[..|ms|] == ms && UseIds(ms)[..|UseIds(ms)|] == UseIds(ms);
  }

  lemma MessageUses(ms: seq<Message>, i: nat, c: nat, r: map<string, string>)
    requires i < |ms| && Walked(UseIds(ms), Start(ms, i), c, r)
    ensures if HasRole(ms[i], "assistant") && HasBlocks(ms[i]) then
              WalkingBlocks(UseIds(ms), Start(ms, i), ms[i].content.blocks, [], 0, c, r)
            else NewMessage(ms, i) == ms[i] && Walked(UseIds(ms), Start(ms, i + 1), c, r)
  {
    StartStep(ms, i);
    if HasRole(ms[i], "assistant") && HasBlocks(ms[i]) {
      assert ms[i].content.blocks[..0] == [];
    }
  }

  lemma MessageWalked(ms: seq<Message>, i: nat, blocks: seq<Block>, counter: nat, rename: map<string, string>)
    requires i < |ms| && HasRole(ms[i], "assistant") && HasBlocks(ms[i])
    requires var bs := ms[i].content.blocks;
             WalkingBlocks(UseIds(ms), Start(ms, i), bs, blocks, |bs|, counter, rename)
    ensures ms[i].(content := Blocks(blocks)) == NewMessage(ms, i)
    ensures Walked(UseIds(ms), Start(ms, i + 1), counter, rename)
  {
    var bs := ms[i].content.blocks;
    BlocksWalked(UseIds(ms), Start(ms, i), bs, blocks, counter, rename);
    MessageEnd(ms, i);
    MessageDone(ms, i, blocks);
  }

  lemma MessageEnd(ms: seq<Message>, i: nat)
    requires i < |ms| && HasRole(ms[i], "assistant") && HasBlocks(ms[i])
    ensures Start(ms, i + 1) == Start(ms, i) + |FlatMap(UseOf, ms[i].content.blocks)|
  {
    StartStep(ms, i);
  }

  lemma MessageDone(ms: seq<Message>, i: nat, blocks: seq<Block>)
    requires i < |ms| && HasRole(ms[i], "assistant") && HasBlocks(ms[i])
    requires UsesAt(UseIds(ms), Start(ms, i), ms[i].content.blocks)
    requires blocks == WithIdsBlocks(ms[i].content.blocks, IdsAt(UseIds(ms), Start(ms, i), ms[i].content.blocks))
    ensures ms[i].(content := Blocks(blocks)) == NewMessage(ms, i)
  {
    MessageEnd(ms, i);
  }

  /** Renames the tool_use ids of the message at `i`. */
  method NormalizeMessage(ghost given: seq<Message>, m: Message, ghost i: nat, c: nat, r: map<string, string>)
    returns (after: Message, counter: nat, rename: map<string, string>)
    requires i < |given| && m == given[i] && Walked(UseIds(given), Start(given, i), c, r)
    ensures after == NewMessage(given, i) && Walked(UseIds(given), Start(given, i + 1), counter, rename)
  {
    MessageUses(given, i, c, r);
    after, counter, rename := m, c, r;
    if HasRole(m, "assistant") && HasBlocks(m) {
      var blocks;
      blocks, counter, rename := NormalizeUses(m.content.blocks, c, r, UseIds(given), Start(given, i));
      MessageWalked(given, i, blocks, counter, rename);
      after := m.(content := Blocks(blocks));
    }
  }

  /** Redirects the references of one message. */
  method RenameReferencesIn(rename: map<string, string>, bs: seq<Block>) returns (blocks: seq<Block>)
    ensures blocks == Map((b: Block) => RenameRefIn(rename, b), bs)
  {
    blocks := bs;
    for j := 0 to |bs|
      invariant |blocks| == |bs| && forall k :: j <= k < |bs| ==> blocks[k] == bs[k]
      invariant forall k :: 0 <= k < j ==> blocks[k] == RenameRefIn(rename, bs[k])
    {
      var b := bs[j];
      if b.ToolResult? && b.toolUseId in rename {
        blocks := blocks[j := b.(toolUseId := rename[b.toolUseId])];
      }
    }
  }

  method CollectResponses(messages: seq<Message>) returns (responded: set<string>)
    ensures forall id :: id in responded <==> id in Responses(messages)
  {
    responded := {};
    for i := 0 to |messages|
      invariant forall id :: id in responded <==> id in Responses(messages[..i])
    {
      FlatMapUpTo(ResponseOf, messages, i);
      if HasRole(messages[i], "tool") && messages[i].toolCallId != "" {
        responded := responded + {messages[i].toolCallId};
      }
    }
    assert messages[..|messages|] == messages;
  }

  method CollectReferences(messages: seq<Message>) returns (responded: set<string>)
    ensures forall id :: id in responded <==> id != "" && id in RefIds(messages)
  {
    responded := {};
    for i := 0 to |messages|
      invariant forall id :: id in responded <==> id != "" && id in RefIds(messages[..i])
    {
      FlatMapUpTo(RefsIn, messages, i);
      if HasBlocks(messages[i]) {
        var bs := messages[i].content.blocks;
        ghost var before := RefIds(messages[..i]);
        for j := 0 to |bs|
          invariant forall id :: id in responded <==> id != "" && (id in before || id in FlatMap(RefOf, bs[..j]))
        {
          FlatMapUpTo(RefOf, bs, j);
          if bs[j].ToolResult? && bs[j].toolUseId != "" {
            responded := responded + {bs[j].toolUseId};
          }
        }
        assert bs[..|bs|] == bs;
      }
    }
    assert messages[..|messages|] == messages;
  }

  class RequestBody {
    var messages: seq<Message>

    constructor (messages: seq<Message>)
      ensures this.messages == messages
    {
      this.messages := messages;
    }

    method RepairToolPairing()
      modifies this
      ensures messages == Repair(old(messages))
    {
      RepairToolCallPairing();
      RepairAnthropicToolPairing();
      NormalizeToolUseIds();
      SplitMixedToolResultMessages();
    }

    method RepairToolCallPairing()
      modifies this
      ensures messages == PruneCalls(old(messages))
    {
      var responded := CollectResponses(messages);
      ghost var ids := Responses(messages);
      for i := 0 to |messages|
        invariant |messages| == |old(messages)| && messages[i..] == old(messages)[i..]
        invariant forall k :: 0 <= k < i ==> messages[k] == PruneCallsIn(ids, old(messages)[k])
      {
        var m := messages[i];
        if HasRole(m, "assistant") && m.toolCalls.Some? && m.toolCalls.value != [] {
          var calls := m.toolCalls.value;
          var pruned := Filter((tc: ToolCall) => tc.id in responded, calls);
          FilterSame((tc: ToolCall) => tc.id in responded, (tc: ToolCall) => tc.id in ids, calls);
          if |pruned| != |calls| {
            messages := messages[i := m.(toolCalls := if pruned != [] then Some(pruned) else None)];
          }
        }
      }
    }

    method RepairAnthropicToolPairing()
      modifies this
      ensures messages == PruneUses(old(messages))
    {
      var responded := CollectReferences(messages);
      ghost var refs := RefIds(messages);
      for i := 0 to |messages|
        invariant |messages| == |old(messages)| && messages[i..] == old(messages)[i..]
        invariant forall k :: 0 <= k < i ==> messages[k] == PruneUsesIn(refs, old(messages)[k])
      {
        var m := messages[i];
        if HasRole(m, "assistant") && HasBlocks(m) {
          var bs := m.content.blocks;
          var kept := Filter((b: Block) => !(b.ToolUse? && b.id !in responded), bs);
          FilterSame((b: Block) => !(b.ToolUse? && b.id !in responded), Keep(refs), bs);
          messages := messages[i := m.(content := if kept == [] && |bs| > 0 then Str("") else Blocks(kept))];
        }
      }
    }

    method NormalizeToolUseIds()
      modifies this
      ensures messages == Normalize(old(messages))
    {
      var rename: map<string, string> := map[];
      var counter := 0;
      ghost var given := messages;
      for i := 0 to |messages|
        invariant WalkingMessages(given, messages, i, counter, rename)
      {
        var m;
        ghost var c, r := counter, rename;
        m, counter, rename := NormalizeMessage(given, messages[i], i, counter, rename);
        MessageStep(given, messages, i, c, r, m, counter, rename);
        messages := messages[i := m];
      }
      MessagesWalked(given, messages, counter, rename);
      if rename == map[] {
        RenameRefsIds(map[], messages);
        return;
      }
      RenameReferences(rename);
    }

    method RenameReferences(rename: map<string, string>)
      modifies this
      ensures messages == RenameRefs(rename, old(messages))
    {
      for i := 0 to |messages|
        invariant |messages| == |old(messages)| && messages[i..] == old(messages)[i..]
        invariant forall k :: 0 <= k < i ==> messages[k] == RenameRefsIn(rename, old(messages)[k])
      {
        var m := messages[i];
        if HasBlocks(m) {
          var blocks := RenameReferencesIn(rename, m.content.blocks);
          messages := messages[i := m.(content := Blocks(blocks))];
        }
      }
    }

    method SplitMixedToolResultMessages()
      modifies this
      ensures messages == Split(old(messages))
    {
      var newMessages: seq<Message> := [];
      var changed := false;
      for i := 0 to |messages|
        invariant messages == old(messages)
        invariant newMessages == Split(messages[..i])
        invariant !changed ==> newMessages == messages[..i]
      {
        FlatMapUpTo(SplitMessage, messages, i);
        var m := messages[i];
        if !HasRole(m, "user") || !HasBlocks(m) {
          newMessages := newMessages + [m];
        } else {
          var results, others := Filter(IsResult, m.content.blocks), Filter(IsOther, m.content.blocks);
          if results == [] || others == [] {
            newMessages := newMessages + [m];
          } else {
            changed := true;
            newMessages := newMessages + [UserMessage(results), UserMessage(others)];
          }
        }
      }
      assert messages[..|messages|] == messages;
      if changed {
        messages := newMessages;
      }
    }
  }
}
