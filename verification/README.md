# Verified model of Blockthrough's attestation, conversation, routing and payment cores

This project models the parts of Blockthrough whose correctness spans several functions or a whole run, and proves what
they keep. Every module is named after the thing it models; the comment at its head names the source file.

- **Attestation** (`Records`, `Ledgers`, `LocalProvider`, `Scheduler`, `Trees`, `Merkle`, `MerkleTree`, `Consensus`,
  `ConsensusProvider`). Records are packed and hash-linked per organisation; a scheduler reads the tip and submits with
  awaits in between; traces go into a padded Merkle tree with sorted pairs; a consensus provider gates writes behind
  stake-weighted votes. Awaits are step boundaries: the scheduler and the consensus provider are also state machines in
  which any number of calls interleave.
- **Conversations** (`Conversations`, `Renamings`, `ProxyIds`, `Sanitize`, `RequestBodies`, `Convert`, `Exchanges`,
  `Texts`, `Converters`). Four passes repair, rename and split tool-call messages in place, and a converter maps them to
  OpenAI messages and responses back. What survives is every answered call and every result with its content, everything
  that is said, in order, and, under an exact condition, which result answers which call.
- **Router and worker** (`StableSorts`, `Dictionaries`, `Policies`, `Routing`, `FitnessCaches`, `Workers`). The router's
  index, stable sorts and constraint scan refine an optimum over the raw entries. The queue worker is a state machine
  whose events are the ways its awaits can end, cancellation and shutdown included.
- **Payments** (`Signing`, `Channels`, `ChannelManagers`, `Replicas`, `Rounding`, `Sums`, `Shares`, `Settlements`,
  `Earnings`, `SettlementEngines`, `Reconciliation`). Channels with nonces and deposits, a payer and a payee over an
  unreliable network, revenue shares with a rounding bound, first-fit settlement, and invoice reconciliation.

Code that changes state is a class or a method with loops, proved against a function; what the source promises is then
proved about that function. Hash functions, the MAC and the JSON codec are function parameters. Collision-freeness is
asked only of the finitely many inputs that were really hashed, since no function into 32 bytes is injective on all
strings; unforgeability is asked only of the updates that were delivered. Instants are whole microseconds, money is
exact (`real`), and amounts in wei are truncated integers with their 64-bit limbs written out. Fresh identifiers, clocks,
database answers, the validator registry and the outcomes of flushes are parameters.

## Where the code and its documentation part

- `batch_submit` promises to roll back if any submission fails. It does so for `AttestationError` only: when the tip a
  record must link to cannot be packed (a hash that is not hexadecimal, a time before 1970), the exception is another one
  and the records before it stay. `BatchAtomicUnlessUnpackable` says exactly when, `UnpackableBatchIsNotRolledBack` shows one.
- The first record of an organisation is said to need an empty `prev_hash`, and later ones a SHA-256 of the record before;
  64 zeros are accepted as well, and the link is the Keccak hash of the packed fields.
- A refused first record can leave its organisation listed by `get_org_hashes` (`ListingStaysExact`).
- Proofs shorter than the tree is deep verify inner nodes; `verify_proof` does not know the depth. Nor does it look at
  the leaf it is given: strings that do not decode to 32 bytes can verify without being leaves, the empty one in every
  tree of more than one leaf, and one that does is a leaf up to its spelling only (`InclusionProofsSound`,
  `EmptyLeafVerifies`). Longer proofs verify what lies below a leaf: leaves and nodes are hashed alike
  (`LongProofsReachLeaf`, `LeafDataActsAsNode`).
- `repair_tool_pairing` is meant to leave every call answered. Two surviving calls that share an id outside `toolu_`
  get different new ids, and all their results follow the later one; and the names handed out may already be in use
  (`RepairAnswersAll`, `RepairKeepsAnswers`, `DuplicateIdsLoseAnAnswer`, `PriorProxyIdClashes`). A result that does not
  stand in a user message keeps its call alive, but the converter does not read it, and a message of role `tool` is
  passed on and may answer a call by its new name (`RepairedRequestIsWellPaired`, `StrayToolMessageAnswers`).
- A worker cancelled between single inserts writes the items it had already inserted again
  (`StoppedRepeats`, `InterruptedItemIsRewritten`), and an item that cannot be named takes the rest of its batch with it.
- The worker makes its pool before it does anything else and outside every handler: if that fails, it dies with every
  item still queued (`DiesWhenKilled`, `DeadLeaveQueued`).
- `reconcile` keeps only the last of several usages under one key when matching by model, and shows a usage once for
  each invoice line that matches it (`CoverageWithRepeatedKeys`, `ConservedUnlessMatchedTwice`).
- `calculate_shares` does not check the burn percentage: above one hundred, more than the fee can be burned
  (`BurnWithinFee`, `BurnBeyondFee`).
- `settle` catches `ChannelError` only. A nonce that no longer fits 64 bits raises another exception, which ends the
  settlement after earlier shares were paid and credited (`Orphans` in `Earnings`).

## Model

| member | source | states |
|---|---|---|
| `Records.PackInjective` | src/blockthrough/attestation/hashing.py:35-55 | two well-formed records pack to the same bytes exactly when they agree on every field the hash covers: all but `timestamp` and sub-second parts, the empty first link and 64 hex digits told apart |
| `Records.PackLayout` | src/blockthrough/attestation/hashing.py:35-55 | which bytes of the 146 stand for which field: organisation, start and end of the period, the three digests, the link (none, if it is empty) and the nonce |
| `Records.SecondsTruncate` | src/blockthrough/attestation/hashing.py:48-49 | times are cut to whole seconds, toward the epoch |
| `Bytes.DecodedByte` | src/blockthrough/attestation/hashing.py:47-53 | byte `k` of a decoded text stands in its digits `2k` and `2k + 1`, the high one first |
| `Bytes.NibblesInOrder` | src/blockthrough/attestation/hashing.py:47-53 | the digits are the sixteen of either case, in their order, and nothing else |
| `Records.TimesPackFaithfully` | src/blockthrough/attestation/hashing.py:48-49 | for every time a datetime can hold, packing fails exactly for those a second or more before the epoch, and two times pack alike exactly when they agree to the second |
| `Records.TimesWrapAt40Bits` | src/blockthrough/attestation/hashing.py:48-49 | the general function wraps: 2^40 seconds later packs to the same five bytes, which only times beyond a datetime's range can reach |
| `Ledgers.SubmitExtendsOneChain` | src/blockthrough/attestation/local_provider.py:41-67 | one submission keeps the ledger valid; it appends exactly the accepted record to exactly its org's chain and changes no other chain, and counts one transaction or none |
| `Ledgers.SubmitRefusals` | src/blockthrough/attestation/local_provider.py:41-67 | for every record and every valid ledger, exactly when each error is raised; two of the errors never are |
| `Ledgers.SubmitAllExtendsChains` | src/blockthrough/attestation/local_provider.py:84-86 | submitting in order appends to each org exactly its own records, or stops at the first refusal with valid chains |
| `Ledgers.BatchAtomicUnlessUnpackable` | src/blockthrough/attestation/local_provider.py:69-94 | a failed batch leaves a changed state if and only if some record, not the first, would follow a tip that cannot be packed, while every record before it extends the chain it finds |
| `Ledgers.BatchAllOrNothing` | src/blockthrough/attestation/local_provider.py:69-94 | when every tip can be packed, a batch is accepted as a whole or restores the state, listed orgs included |
| `Ledgers.UnpackableBatchIsNotRolledBack` | src/blockthrough/attestation/local_provider.py:87-92 | for every hash function, a concrete batch whose first record has a metrics hash that is not hexadecimal: the second raises something other than AttestationError, and the first one stays |
| `Ledgers.ListingStaysExact` | src/blockthrough/attestation/local_provider.py:55-61 | the listed orgs stop being exactly the attested ones if and only if the first record of a new org is refused for its link |
| `Ledgers.RunsAppendOnly` | src/blockthrough/attestation/local_provider.py:41-94 | over any run of single and batch submissions the nonces of each org stay 1 to latest, each record links to the one before, the counter is the sum of the latest nonces, and chains only grow |
| `Ledgers.EqualHashesBindHistory` | src/blockthrough/attestation/local_provider.py:133-159 | equal chain hashes at two places of two valid chains mean the same place and the same history up to it |
| `Ledgers.TipBindsHistory` | src/blockthrough/attestation/hashing.py:35-55 | with a collision-free hash on the packings involved, two valid well-formed chains have tips with equal hashes exactly when they agree in length and, record by record, on every covered field |
| `LocalProvider.LocalProvider.Submit` | src/blockthrough/attestation/local_provider.py:41-67 | the new fields and the receipt are those of the specification, and validity is kept |
| `LocalProvider.LocalProvider.BatchSubmit` | src/blockthrough/attestation/local_provider.py:69-94 | the loop with snapshot and restore computes the specified batch; when the state changes despite failure is stated exactly |
| `LocalProvider.LocalProvider.Verify` | src/blockthrough/attestation/local_provider.py:96-119 | finds the latest record of exactly the given period, or reports that there is none |
| `LocalProvider.LocalProvider.GetLatest` | src/blockthrough/attestation/local_provider.py:121-125 | returns the end of the chain, if any |
| `LocalProvider.LocalProvider.ValidateChainLinkage` | src/blockthrough/attestation/local_provider.py:133-159 | which of the linkage errors, if any, a record meets; none exactly when the first record has no link or zeros, and a later one the hash of the record before |
| `Scheduler.AcceptedUnlessOvertaken` | src/blockthrough/attestation/scheduler.py:88-117 | a record built from a tip read earlier is accepted exactly when no other took its nonce meanwhile |
| `Scheduler.InterleavedSchedulersTile` | src/blockthrough/attestation/scheduler.py:80-118 | over every interleaving of any number of calls with any clocks: the ledger stays valid, each nonce is won once, a rejected call lost its nonce to another, and the accepted periods of an org tile exactly, five minutes or longer each |
| `Scheduler.OutcomesCarryTheirOwn` | src/blockthrough/attestation/scheduler.py:80-118 | over every interleaving, each record that is accepted or rejected carries the org and the end of period with which its own call began, and the three digests and the time that its own call built it from, whatever other calls did in between |
| `Scheduler.LoneSchedulerNeverRejected` | src/blockthrough/attestation/scheduler.py:80-118 | calls made one after the other are never rejected, also after calls that raised before they submitted |
| `Scheduler.AttestOrg` | src/blockthrough/attestation/scheduler.py:80-118 | an undisturbed call submits exactly when there is a start, five minutes have passed and the tip can be hashed; its record is then the new end of the chain and attests the digests given, from where the last period ended to now, under the next nonce and the hash of the record before, or 64 zeros |
| `Trees.ProofsSound` | src/blockthrough/attestation/merkle.py:94-111 | a climb of full depth that reaches the root starts at a leaf, for any node function that binds its children |
| `Trees.RootOfHalves` | src/blockthrough/attestation/merkle.py:46-52 | building layer by layer gives the node over the roots of the two halves |
| `Trees.SwapsKeepRoot` | src/blockthrough/attestation/merkle.py:121-125 | exchanging subtrees anywhere leaves the root and the multiset of leaves unchanged, for any node function that commutes |
| `Trees.BuildLayers` | src/blockthrough/attestation/merkle.py:43-52 | the loop builds the specified layers, leaf layer first |
| `Trees.BuildProof` | src/blockthrough/attestation/merkle.py:77-92 | the loop collects the sibling of each ancestor, tagged with its side |
| `Trees.RunProof` | src/blockthrough/attestation/merkle.py:101-109 | the loop climbs as specified |
| `Merkle.ChildrenAreBound` | src/blockthrough/attestation/merkle.py:121-125 | a string that decodes to 32 bytes, paired with any string, gives a node's bytes only if the two decode like that node's children |
| `Merkle.PairIsOrdered` | src/blockthrough/attestation/merkle.py:121-125 | a pair is hashed as the decodings of its two strings, the one that comes first in front |
| `Merkle.InclusionProofsComplete` | src/blockthrough/attestation/merkle.py:64-111 | every leaf, padding included, is verified by its own proof |
| `Merkle.InclusionProofsSound` | src/blockthrough/attestation/merkle.py:94-111 | for any string as leaf, with collision-free hashing: a proof of at most the depth that verifies, whatever its siblings and tags say, starts from something that decodes like a member of the layer that far below the root exactly when the string decodes to 32 bytes, and from that member itself exactly when the string is a well-formed hash; of full depth, from a leaf |
| `Merkle.EmptyLeafVerifies` | src/blockthrough/attestation/merkle.py:94-125 | in every tree of depth one or more the empty string, which is no leaf, verifies with a proof of full depth |
| `Merkle.LongProofsReachLeaf` | src/blockthrough/attestation/merkle.py:94-111 | with collision-free hashing, a proof of more steps than the depth that verifies stands at a leaf when as many steps as the depth are left, whatever it started from |
| `Merkle.LeafDataActsAsNode` | src/blockthrough/attestation/merkle.py:113-125 | such proofs exist: a leaf whose data are the 64 bytes of two hashes verifies either of them, one step below the leaves |
| `Merkle.RootBindsLeavesUpToSwaps` | src/blockthrough/attestation/merkle.py:34-52 | two trees of equal depth have equal roots exactly when exchanging subtrees turns one padded leaf layer into the other; then the leaf multisets are equal |
| `MerkleTree.MerkleTree.constructor` | src/blockthrough/attestation/merkle.py:29-52 | hashes the leaves, pads them to the next power of two and builds all layers |
| `MerkleTree.MerkleTree.GetProof` | src/blockthrough/attestation/merkle.py:64-92 | fails exactly for an index outside the padded leaves; otherwise gives, for each layer, what stands beside the ancestor of the leaf there and on which side, and this proof verifies |
| `MerkleTree.MerkleTree.VerifyProof` | src/blockthrough/attestation/merkle.py:94-111 | for any string as leaf: true exactly when the climb ends at the root; raising is kept apart |
| `Consensus.InnerRecordsAreCarried` | src/blockthrough/attestation/consensus_provider.py:63-175 | over every interleaving with finalize split at its await: tallies are the sums of the stakes at voting time with one vote per voter, one proposal per org and nonce, and the inner records are exactly those of finalizes that had, when checked, a quorum of voters and at least the required share of their stake in favour, at most one per proposal |
| `Consensus.FinalizeChecks` | src/blockthrough/attestation/consensus_provider.py:140-167 | a proposal passes the checks exactly when it is known and pending, has a quorum of voters, and the stake in favour is at least the required share of the whole, without any stake only if none is required; otherwise which check reports |
| `Consensus.CreateOutcome` | src/blockthrough/attestation/consensus_provider.py:63-111 | exactly when a proposal is created, what the new one holds, and that nothing else changes |
| `Consensus.VoteOutcome` | src/blockthrough/attestation/consensus_provider.py:113-138 | exactly when a vote counts and what it adds to the whole stake and to the stake in favour |
| `Consensus.ChallengeOutcome` | src/blockthrough/attestation/consensus_provider.py:179-207 | exactly when a challenge is filed, unresolved, and that no proposal changes |
| `Consensus.ResolveOutcome` | src/blockthrough/attestation/consensus_provider.py:209-237 | exactly when a challenge is resolved; its proposal is slashed if and only if the challenger wins |
| `Consensus.StatusOnlyAdvances` | src/blockthrough/attestation/consensus_provider.py:140-237 | in any reachable state a step moves a status only from pending to finalized to slashed |
| `Consensus.FinalizedIsOnLedger` | src/blockthrough/attestation/consensus_provider.py:169-173 | a proposal that is no longer pending has its record on the ledger behind |
| `Consensus.LoggedIsMarkedOrInFlight` | src/blockthrough/attestation/consensus_provider.py:140-175 | over every interleaving, a proposal has its record on the ledger behind exactly when it is past pending or a finalize of it stands between submitting and marking, and never both |
| `Consensus.QuietLedgerIsFinal` | src/blockthrough/attestation/consensus_provider.py:140-175 | when no finalize stands there, the records of an org on the ledger behind are exactly those of its proposals past pending |
| `ConsensusProvider.ConsensusProvider.CreateProposal` | src/blockthrough/attestation/consensus_provider.py:63-111 | creates the proposal with its proposer's vote, or fails without a change |
| `ConsensusProvider.ConsensusProvider.Vote` | src/blockthrough/attestation/consensus_provider.py:113-138 | adds one stake-weighted vote, or fails without a change |
| `ConsensusProvider.ConsensusProvider.FinalizeProposal` | src/blockthrough/attestation/consensus_provider.py:140-175 | a proposal reaches the inner provider exactly when it is known and pending with a quorum of voters and the required share of stake in favour; it is finalized, and nothing else changes, exactly when its record is accepted |
| `ConsensusProvider.ConsensusProvider.ChallengeProposal` | src/blockthrough/attestation/consensus_provider.py:179-207 | files a challenge against a finalized proposal only |
| `ConsensusProvider.ConsensusProvider.ResolveChallenge` | src/blockthrough/attestation/consensus_provider.py:209-237 | resolves a challenge once; a won challenge slashes the proposal |
| `Renamings.RenamingKeepsReferences` | src/blockthrough/routing/sanitize.py:230-265 | when every call is referred to, a renamed reference points to a call exactly when it did before, for all of them, if and only if no renamed id is used twice and no reference already bears a name handed out |
| `Renamings.ReferredUnlessShared` | src/blockthrough/routing/sanitize.py:230-265 | if every call is referred to before the renaming, every one is afterwards, or is found in a list that the renaming leaves alone, exactly when the calls that share a renamed id have their new names in either already; where neither bears such a name, exactly when none share one |
| `ProxyIds.ProxyIdsDiffer` | src/blockthrough/routing/sanitize.py:246 | `toolu_proxy_` ids with at least four digits differ exactly when their counters do |
| `ProxyIds.ProxyIdShape` | src/blockthrough/routing/sanitize.py:246 | a new id is the prefix and its counter in decimal, padded with zeros to four digits and not beyond |
| `ProxyIds.ForeignIds` | src/blockthrough/routing/sanitize.py:243-244 | the ids that are renamed are exactly those that are not empty and do not begin with `toolu_` |
| `Sanitize.PruneUsesIds` | src/blockthrough/routing/sanitize.py:166-212 | the second pass drops exactly the unanswered calls and no result |
| `Sanitize.RepairIds` | src/blockthrough/routing/sanitize.py:105-118 | the call ids and the references of a repaired conversation, in order, in terms of the original's |
| `Sanitize.RepairKeepsAnswers` | src/blockthrough/routing/sanitize.py:105-118 | for any conversation: only calls without a result are dropped and no result is, and which result answers which surviving call stays the same for all of them if and only if no two share an id that gets renamed and no result bears a name handed out |
| `Sanitize.RepairedIdsAreNative` | src/blockthrough/routing/sanitize.py:215-248 | every call of a repaired conversation has a `toolu_` id |
| `Sanitize.RepairAnswersAll` | src/blockthrough/routing/sanitize.py:105-118 | for any conversation: every call of the repaired one is answered exactly when surviving calls that share a renamed id have results under their new names; where no result bears such a name, exactly when none share one |
| `Sanitize.RepairKeepsAnsweredCalls` | src/blockthrough/routing/sanitize.py:121-163 | of the OpenAI-style calls the repair drops exactly those without a tool message, and it drops no tool message |
| `Sanitize.RepairIdempotent` | src/blockthrough/routing/sanitize.py:105-118 | for any conversation: repairing again changes nothing under exactly the same condition on the original |
| `Sanitize.DuplicateIdsLoseAnAnswer` | src/blockthrough/routing/sanitize.py:243-248 | two calls with the same renamed id: one is left without its answer |
| `Sanitize.PriorProxyIdClashes` | src/blockthrough/routing/sanitize.py:243-248 | next to a call that already bears the first name handed out, a renamed call takes the same id |
| `RequestBodies.RequestBody.RepairToolPairing` | src/blockthrough/routing/sanitize.py:105-118 | the four passes in turn, in place, give the specified conversation |
| `RequestBodies.RequestBody.RepairToolCallPairing` | src/blockthrough/routing/sanitize.py:121-163 | the first pass prunes tool_calls without a tool message |
| `RequestBodies.RequestBody.RepairAnthropicToolPairing` | src/blockthrough/routing/sanitize.py:166-212 | the second pass prunes tool_use blocks without a result |
| `RequestBodies.RequestBody.NormalizeToolUseIds` | src/blockthrough/routing/sanitize.py:215-265 | the third pass, with its counter and rename map, gives each foreign id the next proxy id and redirects the references |
| `RequestBodies.RequestBody.SplitMixedToolResultMessages` | src/blockthrough/routing/sanitize.py:268-309 | the fourth pass splits user messages that mix results with other blocks |
| `Convert.ConversionKeepsIds` | src/blockthrough/routing/convert.py:41-56 | for any conversation: the converter emits the calls of assistant messages, the results of user messages, and the tool messages that are there already, each once and in order |
| `Convert.RepairedRequestIsWellPaired` | src/blockthrough/routing/convert.py:17-56 | for any conversation: the repaired one converts to a request with its calls, its users' results and its tool messages in order, in which every call has a tool message exactly when the new id of each surviving call stands in a user's result or a tool message already, or is what the id of such a result is renamed to; if all results stand in user messages, exactly when calls that share a renamed id have results or tool messages under their new names; if neither bears such a name, exactly when none share one |
| `Convert.StrayToolMessageAnswers` | src/blockthrough/routing/convert.py:51-53 | two calls under one renamed id leave one without its result, yet a tool message that happens to bear its new name makes the request well paired |
| `Exchanges.RepairKeepsBlocks` | src/blockthrough/routing/sanitize.py:105-118 | the repaired conversation has exactly the answered calls, each with its own name and input, exactly the original results, each with its own output, and every other block, all in order; only the ids change, to those of the renaming |
| `Exchanges.RepairKeepsPlaces` | src/blockthrough/routing/sanitize.py:105-118 | message by message: the kept blocks stay in their message and in their order with nothing new but ids, content that loses every block becomes the empty string, and of the tool_calls exactly those with a tool message stay, a message whose calls all go having none any more; then each mixed user message is replaced by its results and, after them, its other blocks |
| `Exchanges.ConversionKeepsExchanges` | src/blockthrough/routing/convert.py:41-227 | for any conversation: one tool call for each tool_use block, with its id, name and encoded input, one tool message for each tool_result block of a user, with its id and its output as text, and every message of another role as it is, all in order |
| `Exchanges.RepairedRequestCarriesExchanges` | src/blockthrough/routing/convert.py:17-56 | for any conversation: repaired and converted, the k-th call is the k-th answered call under its new id with its own name and input, the j-th tool message made from a result is the users' j-th result under its renamed id with its own output, and messages of other roles are passed on with only the references in them renamed |
| `Convert.SplitThenConvert` | src/blockthrough/routing/convert.py:179-227 | converting after the split differs only by one empty user message after each mixed message without text |
| `Convert.SplitIsInvisible` | src/blockthrough/routing/convert.py:179-227 | the split is invisible to the converter exactly when every mixed message has a text block; otherwise the request grows by one message for each that has none |
| `Convert.RoundTripTidies` | src/blockthrough/routing/convert.py:79-128 | an assistant turn sent to OpenAI and read back keeps its calls exactly and in order, has its texts joined in front, and loses the rest |
| `Convert.RoundTripFixesTidyTurns` | src/blockthrough/routing/convert.py:135-176 | the round trip is idempotent, and the identity exactly on turns already in that form |
| `Texts.RequestSays` | src/blockthrough/routing/convert.py:28-56 | for any conversation: who says what in the request is, in order, the prompt unless it is empty, and then who says what in each message, a string as it is and text blocks on lines of their own |
| `Texts.UserIsSaid` | src/blockthrough/routing/convert.py:179-227 | a user's text becomes one user message, after the tool messages of its results; without text there is an empty one only if there are no results either |
| `Texts.OutputIsSaid` | src/blockthrough/routing/convert.py:31-36 | a prompt or a tool's output that is a list becomes its text parts with one space between, and a string stays as it is |
| `Texts.ResponseIsContributed` | src/blockthrough/routing/convert.py:79-128 | a response is made of what its choices contribute in order: the text unless empty, then one block for each call with its id, name and decoded arguments; of nothing, one empty text |
| `Texts.LastFinishDecides` | src/blockthrough/routing/convert.py:104-112 | the last choice whose finish reason is known decides the stop reason |
| `Texts.UnknownFinishEndsTurn` | src/blockthrough/routing/convert.py:82 | without a known finish reason the turn has ended |
| `Converters.AnthropicToOpenAIRequest` | src/blockthrough/routing/convert.py:28-56 | the message loop computes the request messages that `Texts.RequestSays` and `Exchanges.ConversionKeepsExchanges` are about |
| `Converters.ConvertAssistantMessage` | src/blockthrough/routing/convert.py:135-176 | the block loop computes the assistant message, whose text and calls the same lemmas state |
| `Converters.ConvertUserMessage` | src/blockthrough/routing/convert.py:179-227 | the block loop computes the messages of `Texts.UserIsSaid`: tool messages first, then the text |
| `Converters.OpenAIToAnthropicResponse` | src/blockthrough/routing/convert.py:79-128 | the loops compute the content blocks of `Texts.ResponseIsContributed` and the stop reason of `Texts.LastFinishDecides` |
| `StableSorts.FilterSortBy` | src/blockthrough/routing/router.py:132-133 | a stable sort commutes with filtering |
| `StableSorts.SmallestOfSort` | src/blockthrough/routing/router.py:184-202 | sorting by quality and then by a key puts the lexicographically smallest entry first |
| `StableSorts.SmallestIsSmallest` | src/blockthrough/routing/router.py:207-215 | the entry found beats every other that passes the filter, earlier entries winning ties; none is found exactly when none passes |
| `Policies.ValidatePolicy` | src/blockthrough/routing/policy.py:60-111 | the errors are exactly the violations; there are none exactly when task types are known and distinct, the wildcard is last, fallbacks are known and limits positive |
| `Policies.FirstMatchIsOwnRule` | src/blockthrough/routing/router.py:163-170 | in a valid policy the first match is the task type's only rule, or the wildcard when it has none |
| `Routing.ScanIsArgmin` | src/blockthrough/routing/router.py:288-305 | index, sort, filters and scan together pick the smallest eligible raw entry |
| `Routing.ResolveIsRight` | src/blockthrough/routing/router.py:218-330 | over the raw entries: the optimum by criterion, quality and input order of the eligible ones after the tier-1 rewrite, the fallback exactly when none is eligible; never outside the allowed models except for the requested one; an override flagged exactly when the model differs; a model without tools for a request with tools only as a fallback |
| `Routing.ResolvePicksBest` | src/blockthrough/routing/router.py:173-330 | in terms of the entries' own fields: by the first rule for the task or for all, the model chosen is that of an entry that may serve and is the cheapest, the fastest, the best, or the best for its money of all that may, quality and then input order breaking ties; exactly if none may serve, the fallback, or the requested model if that is not allowed; the limits, the quality floor and the tier-1 rewrite are written out |
| `Routing.TierOneIsQualityFirst` | src/blockthrough/routing/router.py:253-274 | when the tier is preserved, the optimum has quality 0.85 at least and the best quality of all entries that meet the other conditions, whatever they cost |
| `FitnessCaches.FitnessCache.Update` | src/blockthrough/routing/router.py:122-138 | replaces the entries and rebuilds an index that holds each task type's entries, best first |
| `FitnessCaches.BuildIndex` | src/blockthrough/routing/router.py:129-133 | the loops that build and sort the index |
| `FitnessCaches.ResolveRefinesArgmax` | src/blockthrough/routing/router.py:218-330 | resolving through the cache is right, and the best choice of `Routing.ResolvePicksBest`, for the entries last put into it |
| `FitnessCaches.MergeFitnessEntries` | src/blockthrough/routing/router.py:76-104 | one entry per model and task type: the last measured one with samples, its cost replaced by the catalog price if there is one and nothing else changed, else the last synthetic one; they stand in the order in which their keys first appeared, by which the router breaks ties |
| `Workers.StepKeeps` | src/blockthrough/pipeline/base_worker.py:86-168 | every step keeps, from any state that has it, that settled items, batch and queue make up what was accepted and that the phase fits them, from the wait for the pool to its closing |
| `Workers.BatchFillsUp` | src/blockthrough/pipeline/base_worker.py:124-145 | a batch takes what is queued in order up to its size and leaves the rest queued |
| `Workers.AttemptsAreThree` | src/blockthrough/pipeline/base_worker.py:90-102 | a transient failure leads to the next attempt after a pause, the third one and any other failure to single inserts |
| `Workers.ItemsAreConserved` | src/blockthrough/pipeline/base_worker.py:114-168 | at every moment of every run the settled items, the rest of the batch and the queue are exactly the accepted items, in order |
| `Workers.UncancelledRunsAreFifo` | src/blockthrough/pipeline/base_worker.py:124-145 | without a cancellation the log is a prefix of the accepted items: each at most once, in order |
| `Workers.DrainTakesAll` | src/blockthrough/pipeline/base_worker.py:155-160 | the drain phase takes everything accepted so far |
| `Workers.StoppedLosesNothing` | src/blockthrough/pipeline/base_worker.py:155-168 | a worker that stops has dealt with every item accepted before the drain phase, cancelled or not, and left only later ones queued |
| `Workers.StoppedRepeats` | src/blockthrough/pipeline/base_worker.py:152-168 | a worker that stopped dealt with what it took exactly once and in order if and only if no cancellation interrupted a pass that had got somewhere; otherwise it met again exactly the first items of that batch |
| `Workers.DiesWhenKilled` | src/blockthrough/pipeline/base_worker.py:114-168 | a worker is dead in a place exactly when an event killed it there: a failing pool or a cancellation before the loop, a cancellation or an item it cannot name in the drain phase, a pool that does not close or a cancellation after it |
| `Workers.DeadLeaveQueued` | src/blockthrough/pipeline/base_worker.py:120-167 | what a dead worker leaves: before the loop, every item untouched in the queue; in the drain phase, the unsettled rest of the last batch and what came later; after it, only what came later |
| `Workers.LossNeedsAFailure` | src/blockthrough/pipeline/base_worker.py:104-112 | items are dropped only if an insert fails and discarded only if naming one fails |
| `Workers.BudgetFalls` | src/blockthrough/pipeline/base_worker.py:114-168 | once shut down, every step the worker takes lowers a bound on the steps left, a cancellation included, and items that arrive do not raise it |
| `Workers.SomeStepIsOpen` | src/blockthrough/pipeline/base_worker.py:114-168 | a worker that was shut down and has not ended can always take a step |
| `Workers.ShutdownEnds` | src/blockthrough/pipeline/base_worker.py:67-69 | from its shutdown on, however its awaits end and whatever producers put into the queue meanwhile, a worker takes at most a number of steps that batch size and capacity fix |
| `Workers.InterruptedItemIsRewritten` | src/blockthrough/pipeline/base_worker.py:152-162 | a run, for any two items, in which a cancellation makes one be written twice |
| `Workers.FlushWithRetry` | src/blockthrough/pipeline/base_worker.py:86-112 | up to three attempts; on success all items are written, otherwise each is written or dropped by its own insert, until an exception |
| `Workers.MachineFlushes` | src/blockthrough/pipeline/base_worker.py:90-102 | the machine's attempts end as the method's do |
| `Workers.MachineInserts` | src/blockthrough/pipeline/base_worker.py:106-112 | the machine's single inserts leave the entries the method reports |
| `Signing.MessageDetermines` | src/blockthrough/channels/signing.py:19-33 | two payments have the same message exactly when they agree on channel, nonce and amount in wei modulo 2^256 |
| `Signing.MessageLayout` | src/blockthrough/channels/signing.py:19-33 | the message is the channel, the wei modulo 2^256 in 32 bytes and the nonce in eight, all big-endian; there is none exactly when the nonce does not fit |
| `Signing.WeiTruncates` | src/blockthrough/channels/signing.py:26 | an amount is cut, toward zero, after eighteen decimal places |
| `Signing.LimbsAreUint256` | src/blockthrough/channels/signing.py:26-31 | the four limbs are the amount as an unsigned 256-bit integer |
| `Signing.LargeAmountsWrap` | src/blockthrough/channels/signing.py:28 | adding 2^256 wei leaves the message unchanged |
| `Channels.OpenKeeps` | src/blockthrough/channels/manager.py:46-85 | opening keeps every channel of the book as it was and within its deposit |
| `Channels.OpenOutcome` | src/blockthrough/channels/manager.py:46-85 | a channel opens exactly when the deposit is large enough and both parties are named; it has the sender, receiver, deposit and key given, nothing spent and no nonce used, and stands last; otherwise the book is as it was |
| `Channels.PayOutcome` | src/blockthrough/channels/manager.py:87-124 | exactly when a payment succeeds and which error it meets; the update carries the new total, the next nonce and the payer's signature of both |
| `Channels.ReceiveOutcome` | src/blockthrough/channels/manager.py:126-170 | exactly when an update is taken: the next nonce, an amount between what was spent and the deposit, the payer's signature; and which error it meets |
| `Channels.CloseOutcome` | src/blockthrough/channels/manager.py:172-202 | exactly when a channel closes; the proof carries its state and one signature under each party's key |
| `Channels.BookOutcomes` | src/blockthrough/channels/manager.py:87-202 | each operation acts on the channel and the key stored under its identifier and on nothing else, and a failure changes nothing |
| `Channels.OperationsKeep` | src/blockthrough/channels/manager.py:87-202 | paying, receiving and closing keep 0 <= spent <= deposit, freeze closed channels and change only the channel named |
| `Replicas.AcceptedIsNext` | src/blockthrough/channels/manager.py:136-163 | an update that passes the payee's checks is, as far as it is signed, the payer's next one |
| `Replicas.PayeeFollowsPayer` | src/blockthrough/channels/manager.py:126-170 | whatever the network does short of forging, the payee stands where the payer once stood, to the wei, and took the updates in the order of issue |
| `Replicas.AcceptedOnce` | src/blockthrough/channels/manager.py:136-140 | an update once accepted is refused ever after |
| `Replicas.HonestRunsAreExact` | src/blockthrough/channels/manager.py:126-170 | over a network that loses, repeats and reorders, the payee's amount is exactly one the payer had |
| `Replicas.InOrderDeliveryCatchesUp` | src/blockthrough/channels/manager.py:126-170 | from any state that such a network can lead to with the payee open, delivering what is missing in order makes the copies equal |
| `Replicas.HonestRunsCatchUp` | src/blockthrough/channels/manager.py:126-170 | any run over such a network in which the payee is open is completed by the missing updates in order: the longer run is one over such a network too, and ends with equal copies and everything sent accepted |
| `Replicas.CloseAgrees` | src/blockthrough/channels/manager.py:172-202 | the proofs of the two copies agree in nonce, amount to the wei and payer signature exactly when the copies stand at the same nonce |
| `ChannelManagers.ChannelManager.OpenChannel` | src/blockthrough/channels/manager.py:46-85 | the new fields and the result are those of `Channels.OpenOutcome` |
| `ChannelManagers.ChannelManager.CreatePayment` | src/blockthrough/channels/manager.py:87-124 | likewise; a payment that succeeds is positive, fits the deposit and adds its amount |
| `ChannelManagers.ChannelManager.ReceivePayment` | src/blockthrough/channels/manager.py:126-170 | the new fields and the result are those of `Channels.ReceiveOutcome`; a nonce that cannot be packed and a signature that is not ASCII raise exceptions of their own and change nothing |
| `ChannelManagers.ChannelManager.CloseChannel` | src/blockthrough/channels/manager.py:172-202 | likewise; the channel is closed and the proof carries its amount |
| `ChannelManagers.ChannelManager.GetChannelsFor` | src/blockthrough/channels/manager.py:211-217 | the open channels of an address, in the order they were opened |
| `Shares.CalculateShares` | src/blockthrough/revenue/calculator.py:26-104 | the loops and the zero-cost shortcut compute the specified shares and fee |
| `Shares.SharesRefused` | src/blockthrough/revenue/calculator.py:26-64 | exactly when a negative cost, missing rules or missing weight is reported, and that nothing else is refused while the fee percentage lies between 0 and 100 and the burn percentage is not negative |
| `Shares.SharesOutcome` | src/blockthrough/revenue/calculator.py:56-104 | the fee is its percentage of the cost, the burn a percentage of the fee, and each participant in turn gets the part of one hundred and of the rest of the cost that its weight is of all weights, each the nearest number of eight places |
| `Shares.ExactParts` | src/blockthrough/revenue/calculator.py:57-99 | what the unrounded parts are, by cross-multiplication |
| `Shares.RoundingIsBounded` | src/blockthrough/revenue/calculator.py:56-104 | amounts and fee add up to the cost, and percentages to one hundred, within half a unit in the eighth place per participant |
| `Shares.SharesAreFair` | src/blockthrough/revenue/calculator.py:89-102 | every amount and percentage is acceptable to the share type, even when rounding makes the fee exceed the cost, and a larger weight never earns less |
| `Shares.BurnWithinFee` | src/blockthrough/revenue/calculator.py:63-64 | no more than the fee is burned exactly when the unrounded burn exceeds the fee by less than half a unit in the eighth place, or by half a unit of an even fee; so whenever the burn percentage is at most one hundred, which nothing checks |
| `Shares.BurnBeyondFee` | src/blockthrough/revenue/calculator.py:63-64 | a burn percentage of 200 burns twice the fee, in a fee that passes validation |
| `Settlements.PaymentIsFirstFit` | src/blockthrough/revenue/settlement.py:156-192 | a positive share is paid exactly when some open channel to its participant has room for all of it, and then on the first such channel in the order they were opened; otherwise nothing changes, and a share of nothing counts as paid |
| `Settlements.OpenedChannelPays` | src/blockthrough/revenue/settlement.py:156-192 | right after a channel to it was opened in an empty book, a participant is paid any positive amount within the deposit |
| `Settlements.SettleOutcome` | src/blockthrough/revenue/settlement.py:47-122 | a settlement holds its identifier, execution, fee and total and, in order, every share as it was but for whether it is settled; below the minimum nothing changes |
| `Settlements.BookkeepingSettles` | src/blockthrough/revenue/settlement.py:156-165 | without a channel manager every share counts as settled |
| `Settlements.SettlingConserves` | src/blockthrough/revenue/settlement.py:77-87 | settling raises the total spend by exactly the positive shares it marks as settled |
| `Settlements.RunsKeepBooks` | src/blockthrough/revenue/settlement.py:47-122 | over any run of opening, paying, receiving, closing and settling no channel is overspent, closed ones never change, spending only grows and settlements are only added |
| `Earnings.EarningsAreExact` | src/blockthrough/revenue/settlement.py:84-87 | a participant's earnings are exactly the amounts of its shares in all settlements and in those cut short |
| `Earnings.EarningsAddUp` | src/blockthrough/revenue/settlement.py:84-87 | over all participants the earnings add up to the amounts |
| `Earnings.CalculatedSharesAddUp` | src/blockthrough/revenue/settlement.py:79-87 | a settlement of calculated shares stays within the rounding bound |
| `Earnings.ErrorsAccumulate` | src/blockthrough/revenue/settlement.py:143-147 | rounding errors accumulate additively, half a unit per share, over any number of settlements |
| `Earnings.SettlementsAddUp` | src/blockthrough/revenue/settlement.py:47-122 | over any run in which settlements are of calculated shares, every settlement stays within its own bound |
| `Earnings.EarningsMatchVolume` | src/blockthrough/revenue/settlement.py:128-154 | over any run in which settlements are of calculated shares, all earnings, less those of settlements cut short, and all fees together are the whole volume, within half a unit per share |
| `Earnings.StatsOfOneMore` | src/blockthrough/revenue/settlement.py:136-147 | each settlement adds its fee, its burn and its total to the sums that the statistics round |
| `SettlementEngines.SettlementEngine.Settle` | src/blockthrough/revenue/settlement.py:47-122 | the loop, with its manager, leaves the specified state and result, also when an exception cuts it short |
| `SettlementEngines.SettlementEngine.TryChannelPayment` | src/blockthrough/revenue/settlement.py:156-192 | the scan over channels is the specified first fit |
| `SettlementEngines.SettlementEngine.GetProtocolStats` | src/blockthrough/revenue/settlement.py:136-154 | count, fees, burn and volume are the rounded sums over all settlements |
| `Reconciliation.Reconcile` | src/blockthrough/billing/reconciler.py:20-122 | the loops with their index, totals and matched set compute the specified report |
| `Reconciliation.LineCoversMatches` | src/blockthrough/billing/reconciler.py:52-82 | an invoice line is set against exactly the usages it matches |
| `Reconciliation.LineOutcome` | src/blockthrough/billing/reconciler.py:141-190 | a line names what it is about and shows both sides, billed less observed, and the differences of all tokens and of the cost as parts of what was billed, to six places |
| `Reconciliation.LinesOutcome` | src/blockthrough/billing/reconciler.py:52-122 | before sorting there is one line for each invoice line and then one for each usage kept that none matches, with their own names, periods and amounts |
| `Reconciliation.CoverageIsExact` | src/blockthrough/billing/reconciler.py:37-122 | with one usage per provider and model, the report shows every usage max(1, number of matching invoice lines) times |
| `Reconciliation.BilledIsConserved` | src/blockthrough/billing/reconciler.py:52-122 | every invoiced amount appears once |
| `Reconciliation.ConservedUnlessMatchedTwice` | src/blockthrough/billing/reconciler.py:37-122 | the observed total is conserved exactly when nothing but zero is matched by more than one invoice line |
| `Reconciliation.ReportIsSorted` | src/blockthrough/billing/reconciler.py:122 | the report is a permutation of the lines, largest cost discrepancy first |
| `Reconciliation.DiscrepanciesAddUp` | src/blockthrough/billing/reconciler.py:159-162 | the discrepancies add up to what was invoiced less what the report shows as observed |
| `Reconciliation.FlaggedWhenBeyond` | src/blockthrough/billing/reconciler.py:164-168 | a line is flagged exactly when its tokens or its cost differ by more than the threshold's share of the billed amount, or, where nothing was billed and the threshold is below one, by anything |
| `Reconciliation.CoverageWithRepeatedKeys` | src/blockthrough/billing/reconciler.py:37-122 | whatever keys repeat: the observed total of the report is all usages, once for each invoice line that names only their provider, and of the usages that are last under their key, once for each line that names their model and once where no line matches |
| `Reconciliation.RepeatedKeysLoseUsage` | src/blockthrough/billing/reconciler.py:38-40 | a case of it: of two usages under one key only the later is reported |

## Left out

- Aliasing: messages, blocks, proposals and channels are values held in fields that the methods reassign; that a caller
  still holding one of the original dictionaries or objects sees the update is not captured.
- `run_attestation_scheduler` and `_run_cycle`: the endless loop, the sleep and the database session; each call is an
  event of the interleaved system.
- The remaining fields of attestation records' inputs: building metrics, hashing the fitness matrix and traces only
  produce the digests that records carry.
- `create_proposal` keeps only the fields that voting and finalizing look at; bonds, deadlines and disputed leaves of
  challenges, and the amounts `settle_challenge` returns, are opaque.
- `AsyncQueueWorker.run` is a state machine only, since its awaits let other tasks run; `_flush` is atomic, and an item
  that `wait_for` may lose when it is cancelled at that very moment is not modelled. Only `_flush_with_retry` is also a
  method.
- Cancellation of a consensus call inside its await: a finalize cancelled after its submission, whose proposal stays pending
  for good, is not an event of the interleaved system.
- Queues without a bound: the workers' queues are created with `maxsize` 10,000, and the model's capacity is any number.
- Request parameters other than messages and system prompt, tool definitions, token usage and response metadata of the
  converter: copied field by field.
- Content that is neither a string nor a list appears only as the text `str` gives it, and a missing id only as the empty
  one, which the passes treat alike; blocks that are not dictionaries are opaque.
- `generate_synthetic_fitness`, `bootstrap_policy` and the policy loader: tables and configuration. The catalog, the hard
  task types and the known models are parameters.
- Reason strings, log messages, time stamps of channels and settlements, and the settlement hash.
- Floating-point effects: all amounts, qualities and costs are exact, and `round` is rounding half to even.
- FitnessCaches.FitnessCache.Update: does not model `time.monotonic`; the clock reading is a parameter.
- Shares.CalculateShares: weights are non-negative by their type, as the rule model of the source demands.
- Reconciliation.BuildResult: the per-provider totals are values in a map rather than objects of a class.
- HMAC, Keccak, SHA-256 and JSON internals; validators, governance, dashboards, database and HTTP code.
