/**
 * The proposal, vote, finalize and challenge flow in front of an attestation ledger, with `finalize_proposal`
 * split at its await so that anything may run in between (attestation/consensus_provider.py).
 */
module Consensus {
  import opened Options
  import opened Sequences
  import opened Records
  import opened Ledgers

  datatype Status = Pending | Finalized | Slashed

  datatype Proposal = Proposal(
    orgIdHash: string,
    nonce: int,
    proposer: string,
    totalStake: real,
    yesStake: real,
    voters: seq<string>,
    yesVoters: seq<string>,
    status: Status)

  datatype Challenge = Challenge(proposalId: string, resolved: bool)

  /** The dictionaries of the provider, apart from the ledger behind it. */
  datatype Book = Book(
    proposals: map<string, Proposal>,
    slots: map<(string, int), string>,
    pending: map<string, Record>,
    challenges: map<string, Challenge>)

  const EMPTY_BOOK: Book := Book(map[], map[], map[], map[])

  datatype ConsensusError =
    | NotActive | SlotTaken | NotFound | NotPending | AlreadyVoted | QuorumNotMet | SupermajorityNotMet
    | NotFinalized | AlreadyResolved | SettlementFailed | InnerFailed(inner: SubmitError)

  /** What the validator registry answers when asked: activity and stake at that moment. */
  datatype Validator = Validator(active: bool, stake: real)

  /** The consensus engine's minimum number of voters and the required share of the participating stake. */
  datatype Thresholds = Thresholds(quorum: int, ratio: real)

  // ---------- operations ----------

  predicate Active(info: Option<Validator>) { info.Some? && info.value.active }

  function Create(b: Book, id: string, r: Record, proposer: string, info: Option<Validator>)
    : Result<Book, ConsensusError>
  {
    if !Active(info) then Err(NotActive)
    else if (r.orgIdHash, r.nonce) in b.slots then Err(SlotTaken)
    else
      var stake := info.value.stake;
      Ok(Book(
           b.proposals[id := Proposal(r.orgIdHash, r.nonce, proposer, stake, stake, [proposer], [proposer], Pending)],
           b.slots[(r.orgIdHash, r.nonce) := id],
           b.pending[id := r],
           b.challenges))
  }

  function Vote(b: Book, id: string, voter: string, inFavor: bool, info: Option<Validator>)
    : Result<Book, ConsensusError>
  {
    if id !in b.proposals then Err(NotFound)
    else
      var p := b.proposals[id];
      if p.status != Pending then Err(NotPending)
      else if !Active(info) then Err(NotActive)
      else if voter in p.voters then Err(AlreadyVoted)
      else
        var q := p.(voters := p.voters + [voter], totalStake := p.totalStake + info.value.stake);
        Ok(b.(proposals := b.proposals[id :=
          if inFavor then q.(yesStake := q.yesStake + info.value.stake, yesVoters := q.yesVoters + [voter]) else q]))
  }

  function Ratio(yes: real, total: real): real {
    if total > 0.0 then yes / total else 0.0
  }

  /** The checks of `finalize_proposal`, up to its await. */
  function FinalizeError(b: Book, id: string, t: Thresholds): Option<ConsensusError> {
    if id !in b.proposals then Some(NotFound)
    else
      var p := b.proposals[id];
      if p.status != Pending then Some(NotPending)
      else if |p.voters| < t.quorum then Some(QuorumNotMet)
      else if Ratio(p.yesStake, p.totalStake) < t.ratio then Some(SupermajorityNotMet)
      else None
  }

  function SetStatus(b: Book, id: string, status: Status): Book
    requires id in b.proposals
  {
    b.(proposals := b.proposals[id := b.proposals[id].(status := status)])
  }

  function FileChallenge(b: Book, cid: string, id: string): Result<Book, ConsensusError> {
    if id !in b.proposals then Err(NotFound)
    else if b.proposals[id].status != Finalized then Err(NotFinalized)
    else Ok(b.(challenges := b.challenges[cid := Challenge(id, false)]))
  }

  /** `settled` is whether the economics module accepted the settlement; nothing changes when it raises. */
  function Resolve(b: Book, cid: string, challengerWins: bool, settled: bool): Result<Book, ConsensusError> {
    if cid !in b.challenges then Err(NotFound)
    else if b.challenges[cid].resolved then Err(AlreadyResolved)
    else if b.challenges[cid].proposalId !in b.proposals then Err(NotFound)
    else if !settled then Err(SettlementFailed)
    else
      var b' := b.(challenges := b.challenges[cid := b.challenges[cid].(resolved := true)]);
      Ok(if challengerWins then SetStatus(b', b.challenges[cid].proposalId, Slashed) else b')
  }

  // ---------- what each operation does ----------

  /** At least this share of the whole, which counts as none of it when there is no stake at all. */
  predicate IsSupermajority(yes: real, total: real, share: real) {
    (total > 0.0 && yes >= share * total) || (total <= 0.0 && share <= 0.0)
  }

  lemma RatioIsShare(yes: real, total: real, share: real)
    ensures Ratio(yes, total) >= share <==> IsSupermajority(yes, total, share)
  {
  }

  /** What reaches the await: a known, pending proposal with enough voters and enough of their stake in favour. */
  predicate MayBeFinalized(b: Book, id: string, t: Thresholds) {
    && id in b.proposals && b.proposals[id].status.Pending?
    && |b.proposals[id].voters| >= t.quorum
    && IsSupermajority(b.proposals[id].yesStake, b.proposals[id].totalStake, t.ratio)
  }

  /** A proposal passes the checks exactly when it may be finalized; otherwise the first condition that fails is
      reported. */
  lemma FinalizeChecks(b: Book, id: string, t: Thresholds)
    ensures FinalizeError(b, id, t).None? <==> MayBeFinalized(b, id, t)
    ensures FinalizeError(b, id, t) == Some(NotFound) <==> id !in b.proposals
    ensures FinalizeError(b, id, t) == Some(NotPending) <==> id in b.proposals && !b.proposals[id].status.Pending?
    ensures FinalizeError(b, id, t) == Some(QuorumNotMet) <==>
            id in b.proposals && b.proposals[id].status.Pending? && |b.proposals[id].voters| < t.quorum
  {
    if id in b.proposals {
      RatioIsShare(b.proposals[id].yesStake, b.proposals[id].totalStake, t.ratio);
    }
  }

  /** Nothing but the entry under this key differs. */
  predicate SameExcept<K(==), V(==)>(m: map<K, V>, m': map<K, V>, k: K) {
    m'.Keys == m.Keys + {k} && forall x :: x in m && x != k ==> m'[x] == m[x]
  }

  /** An active validator proposes for a free slot, and has voted for it at once with its whole stake. */
  lemma CreateOutcome(b: Book, id: string, r: Record, proposer: string, info: Option<Validator>)
    ensures var slot, result := (r.orgIdHash, r.nonce), Create(b, id, r, proposer, info);
            && (result.Ok? <==> info.Some? && info.value.active && slot !in b.slots)
            && (result == Err(NotActive) <==> info.None? || !info.value.active)
            && (result.Err? ==> result.error.NotActive? || result.error.SlotTaken?)
    ensures var slot, result := (r.orgIdHash, r.nonce), Create(b, id, r, proposer, info);
            result.Ok? ==>
              var b' := result.value;
              && SameExcept(b.proposals, b'.proposals, id) && SameExcept(b.pending, b'.pending, id)
              && SameExcept(b.slots, b'.slots, slot) && b'.challenges == b.challenges
              && b'.pending[id] == r && b'.slots[slot] == id
              && var p := b'.proposals[id];
                 && p.orgIdHash == r.orgIdHash && p.nonce == r.nonce && p.proposer == proposer && p.status.Pending?
                 && p.voters == p.yesVoters == [proposer] && p.totalStake == p.yesStake == info.value.stake
  {
  }

  /** An active validator that has not voted on a pending proposal adds its stake to the whole, and to the stake in
      favour only with a yes. */
  lemma VoteOutcome(b: Book, id: string, voter: string, inFavor: bool, info: Option<Validator>)
    ensures var result := Vote(b, id, voter, inFavor, info);
            && (result == Err(NotFound) <==> id !in b.proposals)
            && (result == Err(NotPending) <==> id in b.proposals && !b.proposals[id].status.Pending?)
            && (result == Err(NotActive) <==>
                  id in b.proposals && b.proposals[id].status.Pending? && (info.None? || !info.value.active))
            && (result.Ok? <==>
                  && id in b.proposals && b.proposals[id].status.Pending? && info.Some? && info.value.active
                  && voter !in b.proposals[id].voters)
            && (result.Err? ==> result.error in {NotFound, NotPending, NotActive, AlreadyVoted})
    ensures var result := Vote(b, id, voter, inFavor, info);
            result.Ok? ==>
              var b' := result.value;
              && SameExcept(b.proposals, b'.proposals, id)
              && b'.pending == b.pending && b'.slots == b.slots && b'.challenges == b.challenges
              && var p, p', stake := b.proposals[id], b'.proposals[id], info.value.stake;
                 && p'.orgIdHash == p.orgIdHash && p'.nonce == p.nonce && p'.proposer == p.proposer
                 && p'.status.Pending? && p'.voters == p.voters + [voter]
                 && p'.totalStake - p.totalStake == stake
                 && p'.yesStake - p.yesStake == (if inFavor then stake else 0.0)
                 && p'.yesVoters == p.yesVoters + (if inFavor then [voter] else [])
  {
  }

  /** Only finalized proposals are challenged, and a challenge starts unresolved. */
  lemma ChallengeOutcome(b: Book, cid: string, id: string)
    ensures var result := FileChallenge(b, cid, id);
            && (result.Ok? <==> id in b.proposals && b.proposals[id].status.Finalized?)
            && (result == Err(NotFound) <==> id !in b.proposals)
            && (result == Err(NotFinalized) <==> id in b.proposals && !b.proposals[id].status.Finalized?)
    ensures var result := FileChallenge(b, cid, id);
            result.Ok? ==>
              var b' := result.value;
              && b'.proposals == b.proposals && b'.pending == b.pending && b'.slots == b.slots
              && SameExcept(b.challenges, b'.challenges, cid)
              && b'.challenges[cid].proposalId == id && !b'.challenges[cid].resolved
  {
  }

  /** An unresolved challenge is resolved when its settlement goes through; its proposal is slashed if and only if the
      challenger wins. */
  lemma ResolveOutcome(b: Book, cid: string, challengerWins: bool, settled: bool)
    requires cid in b.challenges ==> b.challenges[cid].proposalId in b.proposals
    ensures var result := Resolve(b, cid, challengerWins, settled);
            && (result.Ok? <==> cid in b.challenges && !b.challenges[cid].resolved && settled)
            && (result == Err(NotFound) <==> cid !in b.challenges)
            && (result == Err(AlreadyResolved) <==> cid in b.challenges && b.challenges[cid].resolved)
    ensures var result := Resolve(b, cid, challengerWins, settled);
            result.Ok? ==>
              var b', id := result.value, b.challenges[cid].proposalId;
              && b'.pending == b.pending && b'.slots == b.slots && SameExcept(b.challenges, b'.challenges, cid)
              && b'.challenges[cid].proposalId == id && b'.challenges[cid].resolved
              && SameExcept(b.proposals, b'.proposals, id)
              && b'.proposals[id].status == (if challengerWins then Slashed else b.proposals[id].status)
              && b'.proposals[id].(status := Pending) == b.proposals[id].(status := Pending)
  {
  }

  // ---------- the interleaved system ----------

  /** One vote as it was cast, with the stake the registry reported then. */
  datatype Ballot = Ballot(voter: string, stake: real, inFavor: bool)

  /** A `finalize_proposal` call past its checks, or past the inner submission but not yet marked. */
  datatype Task =
    | Checked(id: string, seen: seq<Ballot>)
    | Submitted(id: string)

  /** An inner record, the proposal it came from, and the ballots its finalize had checked. */
  datatype Entry = Entry(id: string, record: Record, seen: seq<Ballot>)

  datatype System = System(
    ledger: Ledger,
    book: Book,
    ballots: map<string, seq<Ballot>>,
    tasks: map<nat, Task>,
    log: seq<Entry>)

  const START: System := System(EMPTY, EMPTY_BOOK, map[], map[], [])

  /** Fresh proposal and challenge ids stand for uuid4. */
  datatype Event =
    | CreateProposal(id: string, record: Record, proposer: string, info: Option<Validator>)
    | CastVote(id: string, voter: string, inFavor: bool, info: Option<Validator>)
    | Check(task: nat, id: string)
    | SubmitInner(task: nat)
    | Mark(task: nat)
    | OpenChallenge(cid: string, id: string)
    | Settle(cid: string, challengerWins: bool, settled: bool)

  function Step(link: LinkFn, t: Thresholds, s: System, e: Event): System {
    match e
    case CreateProposal(id, r, proposer, info) =>
      if id in s.book.proposals || Create(s.book, id, r, proposer, info).Err? then s
      else s.(book := Create(s.book, id, r, proposer, info).value,
              ballots := s.ballots[id := [Ballot(proposer, info.value.stake, true)]])
    case CastVote(id, voter, inFavor, info) =>
      if Vote(s.book, id, voter, inFavor, info).Err? then s
      else s.(book := Vote(s.book, id, voter, inFavor, info).value,
              ballots := s.ballots[id := BallotsOn(s, id) + [Ballot(voter, info.value.stake, inFavor)]])
    case Check(task, id) =>
      if task in s.tasks || FinalizeError(s.book, id, t).Some? then s
      else s.(tasks := s.tasks[task := Checked(id, BallotsOn(s, id))])
    case SubmitInner(task) =>
      if task !in s.tasks || !s.tasks[task].Checked? || s.tasks[task].id !in s.book.pending then s
      else
        var id, seen := s.tasks[task].id, s.tasks[task].seen;
        var r := s.book.pending[id];
        var (ledger', receipt) := Submit(link, s.ledger, r);
        if receipt.Ok?
        then s.(ledger := ledger', tasks := s.tasks[task := Submitted(id)], log := s.log + [Entry(id, r, seen)])
        else s.(ledger := ledger', tasks := s.tasks - {task})
    case Mark(task) =>
      if task !in s.tasks || !s.tasks[task].Submitted? || s.tasks[task].id !in s.book.proposals then s
      else s.(book := SetStatus(s.book, s.tasks[task].id, Finalized), tasks := s.tasks - {task})
    case OpenChallenge(cid, id) =>
      if cid in s.book.challenges || FileChallenge(s.book, cid, id).Err? then s
      else s.(book := FileChallenge(s.book, cid, id).value)
    case Settle(cid, challengerWins, settled) =>
      if Resolve(s.book, cid, challengerWins, settled).Err? then s
      else s.(book := Resolve(s.book, cid, challengerWins, settled).value)
  }

  function BallotsOn(s: System, id: string): seq<Ballot> {
    if id in s.ballots then s.ballots[id] else []
  }

  function Run(link: LinkFn, t: Thresholds, s: System, es: seq<Event>): System
    decreases |es|
  {
    if es == [] then s else Run(link, t, Step(link, t, s, es[0]), es[1..])
  }

  // ---------- what every interleaving keeps ----------

  function Stake(bs: seq<Ballot>): real {
    if bs == [] then 0.0 else Stake(bs[..|bs| - 1]) + bs[|bs| - 1].stake
  }

  function InFavor(bs: seq<Ballot>): seq<Ballot> {
    if bs == [] then []
    else InFavor(bs[..|bs| - 1]) + if bs[|bs| - 1].inFavor then [bs[|bs| - 1]] else []
  }

  function Voters(bs: seq<Ballot>): (r: seq<string>)
    ensures |r| == |bs|
  {
    if bs == [] then [] else Voters(bs[..|bs| - 1]) + [bs[|bs| - 1].voter]
  }

  /** Enough voters, and enough of their stake in favour, counted ballot by ballot. */
  predicate Carried(t: Thresholds, bs: seq<Ballot>) {
    |bs| >= t.quorum && IsSupermajority(Stake(InFavor(bs)), Stake(bs), t.ratio)
  }

  /** A proposal's running totals are exactly those of the ballots cast on it, one per voter. */
  predicate Tallied(p: Proposal, bs: seq<Ballot>) {
    && p.voters == Voters(bs) && Distinct(p.voters)
    && p.yesVoters == Voters(InFavor(bs))
    && p.totalStake == Stake(bs) && p.yesStake == Stake(InFavor(bs))
  }

  ghost predicate Logged(log: seq<Entry>, id: string) {
    exists i :: 0 <= i < |log| && log[i].id == id
  }

  ghost predicate ProposalOk(s: System, id: string) {
    && id in s.book.proposals && id in s.book.pending && id in s.ballots
    && var p := s.book.proposals[id];
       && Tallied(p, s.ballots[id])
       && p.orgIdHash == s.book.pending[id].orgIdHash && p.nonce == s.book.pending[id].nonce
       && (p.orgIdHash, p.nonce) in s.book.slots && s.book.slots[(p.orgIdHash, p.nonce)] == id
       && (p.status != Pending ==> Logged(s.log, id))
  }

  ghost predicate TaskOk(t: Thresholds, s: System, task: nat) {
    && task in s.tasks
    && s.tasks[task].id in s.book.proposals
    && match s.tasks[task]
       case Checked(id, seen) => Carried(t, seen) && id in s.ballots && seen <= s.ballots[id]
       case Submitted(id) => Logged(s.log, id) && s.book.proposals[id].status == Pending
  }

  ghost predicate EntryOk(t: Thresholds, s: System, i: nat) {
    && i < |s.log|
    && var e := s.log[i];
       && e.id in s.book.proposals && e.id in s.book.pending && s.book.pending[e.id] == e.record
       && Carried(t, e.seen) && e.id in s.ballots && e.seen <= s.ballots[e.id]
       && e.record.nonce <= LatestNonce(s.ledger, e.record.orgIdHash)
  }

  function RecordsOf(log: seq<Entry>, org: string): seq<Record> {
    if log == [] then []
    else
      var last := log[|log| - 1];
      RecordsOf(log[..|log| - 1], org) + if last.record.orgIdHash == org then [last.record] else []
  }

  ghost predicate OrgOk(s: System, org: string) {
    Contiguous(s.ledger, org) && RecordsOf(s.log, org) == Chain(s.ledger, org)
  }

  ghost predicate OneEntryPerProposal(log: seq<Entry>) {
    forall i, j :: 0 <= i < j < |log| ==> log[i].id != log[j].id
  }

  ghost predicate OneMarkPerProposal(s: System) {
    forall i, j :: i in s.tasks && j in s.tasks && i != j && s.tasks[i].Submitted? && s.tasks[j].Submitted?
                   ==> s.tasks[i].id != s.tasks[j].id
  }

  ghost predicate ChallengeOk(s: System, cid: string) {
    && cid in s.book.challenges && s.book.challenges[cid].proposalId in s.book.proposals
    && s.book.proposals[s.book.challenges[cid].proposalId].status != Pending
  }

  ghost predicate LedgerOk(link: LinkFn, s: System) { Valid(link, s.ledger) && forall org :: OrgOk(s, org) }

  ghost predicate ProposalsOk(s: System) { forall id :: id in s.book.proposals ==> ProposalOk(s, id) }

  ghost predicate TasksOk(t: Thresholds, s: System) { forall task :: task in s.tasks ==> TaskOk(t, s, task) }

  ghost predicate EntriesOk(t: Thresholds, s: System) {
    forall i: nat {:trigger EntryOk(t, s, i)} :: i < |s.log| ==> EntryOk(t, s, i)
  }

  ghost predicate ChallengesOk(s: System) { forall cid :: cid in s.book.challenges ==> ChallengeOk(s, cid) }

  ghost predicate Inv(link: LinkFn, t: Thresholds, s: System) {
    && LedgerOk(link, s) && ProposalsOk(s) && TasksOk(t, s) && EntriesOk(t, s) && ChallengesOk(s)
    && OneEntryPerProposal(s.log) && OneMarkPerProposal(s)
  }

  /** The only changes of status are pending to finalized and finalized to slashed. */
  predicate StatusAdvances(before: Status, after: Status) {
    before == after || (before == Pending && after == Finalized) || (before == Finalized && after == Slashed)
  }

  ghost predicate StatusesAdvance(s: System, s': System) {
    forall id :: id in s.book.proposals ==>
      id in s'.book.proposals && StatusAdvances(s.book.proposals[id].status, s'.book.proposals[id].status)
  }

  lemma BallotsAppend(bs: seq<Ballot>, b: Ballot)
    ensures Stake(bs + [b]) == Stake(bs) + b.stake
    ensures Voters(bs + [b]) == Voters(bs) + [b.voter]
    ensures InFavor(bs + [b]) == InFavor(bs) + if b.inFavor then [b] else []
  {
    assert (bs + [b])[..|bs|] == bs;
  }

  lemma TallyOfOne(r: Record, proposer: string, stake: real)
    ensures Tallied(Proposal(r.orgIdHash, r.nonce, proposer, stake, stake, [proposer], [proposer], Pending),
                    [Ballot(proposer, stake, true)])
  {
    var b := Ballot(proposer, stake, true);
    BallotsAppend([], b);
    assert [] + [b] == [b];
    assert InFavor([b]) == [b];
  }

  lemma TallyGrows(p: Proposal, q: Proposal, bs: seq<Ballot>, b: Ballot)
    requires Tallied(p, bs) && b.voter !in p.voters
    requires q.voters == p.voters + [b.voter] && q.totalStake == p.totalStake + b.stake
    requires q.yesStake == (if b.inFavor then p.yesStake + b.stake else p.yesStake)
    requires q.yesVoters == (if b.inFavor then p.yesVoters + [b.voter] else p.yesVoters)
    ensures Tallied(q, bs + [b])
  {
    BallotsAppend(bs, b);
    BallotsAppend(InFavor(bs), b);
    assert InFavor(bs) + [] == InFavor(bs);
  }

  // ---------- step by step ----------

  /** What a step may do to a proposal: keep its record, add ballots, advance its status. */
  ghost predicate Later(s: System, s': System, id: string) {
    && id in s.book.proposals && id in s'.book.proposals
    && StatusAdvances(s.book.proposals[id].status, s'.book.proposals[id].status)
    && id in s.book.pending && id in s'.book.pending && s'.book.pending[id] == s.book.pending[id]
    && id in s.ballots && id in s'.ballots && s.ballots[id] <= s'.ballots[id]
  }

  ghost predicate AllLater(s: System, s': System) {
    && (forall id :: id in s.book.proposals ==> Later(s, s', id))
    && s.log <= s'.log
    && NoncesGrow(s, s')
  }

  ghost predicate NoncesGrow(s: System, s': System) {
    forall org :: LatestNonce(s.ledger, org) <= LatestNonce(s'.ledger, org)
  }

  lemma LoggedLater(s: System, s': System, id: string)
    requires s.log <= s'.log
    ensures Logged(s.log, id) ==> Logged(s'.log, id)
  {
    if i :| 0 <= i < |s.log| && s.log[i].id == id {
      assert s'.log[i].id == id;
    }
  }

  lemma ProposalLater(s: System, s': System, id: string)
    requires ProposalOk(s, id) && s.log <= s'.log
    requires id in s'.book.proposals && s'.book.proposals[id] == s.book.proposals[id]
    requires id in s'.book.pending && s'.book.pending[id] == s.book.pending[id]
    requires id in s'.ballots && s'.ballots[id] == s.ballots[id]
    requires forall slot :: slot in s.book.slots ==> slot in s'.book.slots && s'.book.slots[slot] == s.book.slots[slot]
    ensures ProposalOk(s', id) && Later(s, s', id)
  {
    LoggedLater(s, s', id);
  }

  lemma EntriesLater(t: Thresholds, s: System, s': System)
    requires EntriesOk(t, s) && AllLater(s, s')
    ensures forall i: nat {:trigger EntryOk(t, s', i)} :: i < |s.log| ==> EntryOk(t, s', i)
    ensures s'.log == s.log ==> EntriesOk(t, s')
  {
    forall i: nat {:trigger EntryOk(t, s', i)} | i < |s.log| ensures EntryOk(t, s', i) {
      assert EntryOk(t, s, i);
      assert Later(s, s', s.log[i].id);
    }
  }

  lemma TaskLater(t: Thresholds, s: System, s': System, task: nat)
    requires TaskOk(t, s, task) && AllLater(s, s') && task in s'.tasks && s'.tasks[task] == s.tasks[task]
    requires s.tasks[task].Submitted? ==>
               s'.book.proposals[s.tasks[task].id].status == s.book.proposals[s.tasks[task].id].status
    ensures TaskOk(t, s', task)
  {
    assert Later(s, s', s.tasks[task].id);
    LoggedLater(s, s', s.tasks[task].id);
  }

  lemma ChallengeLater(s: System, s': System, cid: string)
    requires ChallengeOk(s, cid) && AllLater(s, s')
    requires cid in s'.book.challenges && s'.book.challenges[cid].proposalId == s.book.challenges[cid].proposalId
    ensures ChallengeOk(s', cid)
  {
    assert Later(s, s', s.book.challenges[cid].proposalId);
  }

  lemma SameLedger(link: LinkFn, s: System, s': System)
    requires LedgerOk(link, s) && s'.ledger == s.ledger && s'.log == s.log
    ensures LedgerOk(link, s')
  {
    forall org ensures OrgOk(s', org) {
      assert OrgOk(s, org);
    }
  }

  predicate StatusUntouched(s: System, s': System, id: string) {
    id in s.book.proposals && id in s'.book.proposals ==> s'.book.proposals[id].status == s.book.proposals[id].status
  }

  lemma TasksLater(t: Thresholds, s: System, s': System)
    requires TasksOk(t, s) && AllLater(s, s')
    requires forall task :: task in s'.tasks ==> task in s.tasks && s'.tasks[task] == s.tasks[task]
    requires forall task :: task in s'.tasks && s'.tasks[task].Submitted? ==> StatusUntouched(s, s', s'.tasks[task].id)
    ensures TasksOk(t, s')
  {
    forall task | task in s'.tasks ensures TaskOk(t, s', task) {
      assert TaskOk(t, s, task);
      TaskLater(t, s, s', task);
    }
  }

  lemma ChallengesLater(s: System, s': System)
    requires ChallengesOk(s) && AllLater(s, s')
    requires forall c :: c in s'.book.challenges ==>
               c in s.book.challenges && s'.book.challenges[c].proposalId == s.book.challenges[c].proposalId
    ensures ChallengesOk(s')
  {
    forall cid | cid in s'.book.challenges ensures ChallengeOk(s', cid) {
      assert ChallengeOk(s, cid);
      ChallengeLater(s, s', cid);
    }
  }

  /** A step that changes one proposal, and neither its status nor anything else but ballots. */
  lemma BookStepKeepsInv(link: LinkFn, t: Thresholds, s: System, s': System)
    requires Inv(link, t, s) && AllLater(s, s') && ProposalsOk(s')
    requires s'.ledger == s.ledger && s'.log == s.log && s'.tasks == s.tasks && s'.book.challenges == s.book.challenges
    requires forall id :: id in s.book.proposals ==> StatusUntouched(s, s', id)
    ensures Inv(link, t, s')
  {
    SameLedger(link, s, s');
    EntriesLater(t, s, s');
    SameTasksUntouched(t, s, s');
    ChallengesLater(s, s');
  }

  lemma SameTasksUntouched(t: Thresholds, s: System, s': System)
    requires TasksOk(t, s) && AllLater(s, s') && s'.tasks == s.tasks
    requires forall id :: id in s.book.proposals ==> StatusUntouched(s, s', id)
    ensures TasksOk(t, s')
  {
    forall task | task in s'.tasks && s'.tasks[task].Submitted? ensures StatusUntouched(s, s', s'.tasks[task].id) {
      assert TaskOk(t, s, task);
    }
    TasksLater(t, s, s');
  }

  lemma CreatedIsOk(s: System, s': System, id: string, r: Record, proposer: string, info: Option<Validator>)
    requires Create(s.book, id, r, proposer, info).Ok?
    requires s' == s.(book := Create(s.book, id, r, proposer, info).value,
                      ballots := s.ballots[id := [Ballot(proposer, info.value.stake, true)]])
    ensures ProposalOk(s', id)
  {
    TallyOfOne(r, proposer, info.value.stake);
  }

  lemma CreateKeepsInv(link: LinkFn, t: Thresholds, s: System, id: string, r: Record, proposer: string,
                       info: Option<Validator>, s': System)
    requires Inv(link, t, s) && id !in s.book.proposals && Create(s.book, id, r, proposer, info).Ok?
    requires s' == Step(link, t, s, CreateProposal(id, r, proposer, info))
    ensures Inv(link, t, s') && AllLater(s, s')
  {
    CreatedTouchesOne(link, t, s, id, r, proposer, info);
    CreatedIsOk(s, s', id, r, proposer, info);
    OneProposalKeepsInv(link, t, s, s', id);
  }

  /** A step that touches one proposal, new or with one ballot more. */
  lemma OneProposalKeepsInv(link: LinkFn, t: Thresholds, s: System, s': System, id: string)
    requires Inv(link, t, s) && SameBut(s, s', id) && ProposalOk(s', id)
    requires id in s.book.proposals ==> Later(s, s', id) && StatusUntouched(s, s', id)
    requires s' == s.(book := s'.book, ballots := s'.ballots) && s'.book.challenges == s.book.challenges
    ensures Inv(link, t, s') && AllLater(s, s')
  {
    OthersLater(s, s', id);
    BookStepKeepsInv(link, t, s, s');
  }

  ghost predicate SameBut(s: System, s': System, id: string) {
    && (forall k :: k in s'.book.proposals && k != id ==> k in s.book.proposals)
    && (forall k :: k in s.book.proposals && k != id ==>
          k in s'.book.proposals && s'.book.proposals[k] == s.book.proposals[k])
    && (forall k :: k in s.book.pending && k != id ==> k in s'.book.pending && s'.book.pending[k] == s.book.pending[k])
    && (forall k :: k in s.ballots && k != id ==> k in s'.ballots && s'.ballots[k] == s.ballots[k])
    && (forall slot :: slot in s.book.slots ==> slot in s'.book.slots && s'.book.slots[slot] == s.book.slots[slot])
  }

  lemma CreatedTouchesOne(link: LinkFn, t: Thresholds, s: System, id: string, r: Record, proposer: string,
                          info: Option<Validator>)
    requires id !in s.book.proposals && Create(s.book, id, r, proposer, info).Ok?
    ensures var s' := Step(link, t, s, CreateProposal(id, r, proposer, info));
            && SameBut(s, s', id)
            && s' == s.(book := s'.book, ballots := s'.ballots) && s'.book.challenges == s.book.challenges
  {
  }

  /** What a step does not touch stays as it was. */
  lemma OthersLater(s: System, s': System, id: string)
    requires ProposalsOk(s) && s'.log == s.log && s'.ledger == s.ledger && SameBut(s, s', id) && ProposalOk(s', id)
    requires id in s.book.proposals ==> Later(s, s', id) && StatusUntouched(s, s', id)
    ensures ProposalsOk(s') && AllLater(s, s')
    ensures forall other :: other in s.book.proposals ==> StatusUntouched(s, s', other)
  {
    forall other | other in s.book.proposals && other != id ensures ProposalOk(s', other) && Later(s, s', other) {
      assert ProposalOk(s, other);
      ProposalLater(s, s', other);
    }
  }

  lemma VotedIsOk(link: LinkFn, t: Thresholds, s: System, id: string, voter: string, inFavor: bool,
                  info: Option<Validator>)
    requires ProposalOk(s, id) && Vote(s.book, id, voter, inFavor, info).Ok?
    ensures var s' := Step(link, t, s, CastVote(id, voter, inFavor, info));
            ProposalOk(s', id) && Later(s, s', id) && StatusUntouched(s, s', id)
  {
    var s' := Step(link, t, s, CastVote(id, voter, inFavor, info));
    TallyGrows(s.book.proposals[id], s'.book.proposals[id], s.ballots[id], Ballot(voter, info.value.stake, inFavor));
  }

  lemma VotedTouchesOne(link: LinkFn, t: Thresholds, s: System, id: string, voter: string, inFavor: bool,
                        info: Option<Validator>)
    requires ProposalOk(s, id) && Vote(s.book, id, voter, inFavor, info).Ok?
    ensures var s' := Step(link, t, s, CastVote(id, voter, inFavor, info));
            && SameBut(s, s', id)
            && s' == s.(book := s'.book, ballots := s'.ballots) && s'.book.challenges == s.book.challenges
  {
  }

  lemma VoteKeepsInv(link: LinkFn, t: Thresholds, s: System, id: string, voter: string, inFavor: bool,
                     info: Option<Validator>)
    requires Inv(link, t, s) && Vote(s.book, id, voter, inFavor, info).Ok?
    ensures Inv(link, t, Step(link, t, s, CastVote(id, voter, inFavor, info)))
    ensures AllLater(s, Step(link, t, s, CastVote(id, voter, inFavor, info)))
  {
    assert ProposalOk(s, id);
    VotedIsOk(link, t, s, id, voter, inFavor, info);
    VotedTouchesOne(link, t, s, id, voter, inFavor, info);
    OneProposalKeepsInv(link, t, s, Step(link, t, s, CastVote(id, voter, inFavor, info)), id);
  }

  lemma UnchangedIsLater(s: System, s': System)
    requires ProposalsOk(s) && ChallengesOk(s) && s'.book == s.book && s'.ballots == s.ballots && s.log <= s'.log
    requires NoncesGrow(s, s')
    ensures AllLater(s, s') && ProposalsOk(s') && ChallengesOk(s')
  {
    forall id | id in s.book.proposals ensures Later(s, s', id) && ProposalOk(s', id) {
      assert ProposalOk(s, id);
      ProposalLater(s, s', id);
    }
    ChallengesLater(s, s');
  }

  lemma NothingHappens(link: LinkFn, t: Thresholds, s: System)
    requires Inv(link, t, s)
    ensures AllLater(s, s)
  {
    UnchangedIsLater(s, s);
  }

  lemma CheckedIsCarried(t: Thresholds, s: System, id: string)
    requires ProposalOk(s, id) && FinalizeError(s.book, id, t).None?
    ensures Carried(t, s.ballots[id])
  {
  }

  lemma CheckedTaskOk(link: LinkFn, t: Thresholds, s: System, task: nat, id: string)
    requires ProposalsOk(s) && TasksOk(t, s) && AllLater(s, Step(link, t, s, Check(task, id)))
    requires task !in s.tasks && FinalizeError(s.book, id, t).None?
    ensures TasksOk(t, Step(link, t, s, Check(task, id)))
  {
    var s' := Step(link, t, s, Check(task, id));
    forall other | other in s'.tasks ensures TaskOk(t, s', other) {
      if other != task {
        assert TaskOk(t, s, other);
        TaskLater(t, s, s', other);
      } else if s' != s {
        assert ProposalOk(s, id);
        CheckedIsCarried(t, s, id);
      }
    }
  }

  lemma CheckKeepsInv(link: LinkFn, t: Thresholds, s: System, task: nat, id: string)
    requires Inv(link, t, s)
    ensures Inv(link, t, Step(link, t, s, Check(task, id)))
    ensures AllLater(s, Step(link, t, s, Check(task, id)))
  {
    var s' := Step(link, t, s, Check(task, id));
    UnchangedIsLater(s, s');
    if s' != s {
      SameLedger(link, s, s');
      EntriesLater(t, s, s');
      CheckedTaskOk(link, t, s, task, id);
    }
  }

  lemma LoggedIsPast(t: Thresholds, s: System, id: string)
    requires EntriesOk(t, s) && id in s.book.pending && Logged(s.log, id)
    ensures s.book.pending[id].nonce <= LatestNonce(s.ledger, s.book.pending[id].orgIdHash)
  {
    var i :| 0 <= i < |s.log| && s.log[i].id == id;
    assert EntryOk(t, s, i);
  }

  /** A record the ledger accepts belongs to a proposal that has no entry yet. */
  lemma AcceptedIsNew(link: LinkFn, t: Thresholds, s: System, id: string)
    requires EntriesOk(t, s) && ProposalOk(s, id) && Submit(link, s.ledger, s.book.pending[id]).1.Ok?
    ensures !Logged(s.log, id) && s.book.proposals[id].status == Pending
  {
    assert s.book.pending[id].nonce > LatestNonce(s.ledger, s.book.pending[id].orgIdHash);
    if Logged(s.log, id) {
      LoggedIsPast(t, s, id);
    }
  }

  lemma SubmitKeepsInv(link: LinkFn, t: Thresholds, s: System, task: nat)
    requires Inv(link, t, s)
    ensures Inv(link, t, Step(link, t, s, SubmitInner(task)))
    ensures AllLater(s, Step(link, t, s, SubmitInner(task)))
  {
    if task in s.tasks && s.tasks[task].Checked? && s.tasks[task].id in s.book.pending {
      var s' := Step(link, t, s, SubmitInner(task));
      SubmitExtendsLedger(link, t, s, task);
      UnchangedIsLater(s, s');
      assert TaskOk(t, s, task) && ProposalOk(s, s.tasks[task].id);
      if Submit(link, s.ledger, s.book.pending[s.tasks[task].id]).1.Ok? {
        AcceptedKeepsRest(link, t, s, task);
      } else {
        EntriesLater(t, s, s');
        TasksLater(t, s, s');
      }
    } else {
      NothingHappens(link, t, s);
    }
  }

  lemma AcceptedKeepsRest(link: LinkFn, t: Thresholds, s: System, task: nat)
    requires EntriesOk(t, s) && TasksOk(t, s) && OneEntryPerProposal(s.log) && OneMarkPerProposal(s)
    requires TaskOk(t, s, task) && s.tasks[task].Checked? && ProposalOk(s, s.tasks[task].id)
    requires Submit(link, s.ledger, s.book.pending[s.tasks[task].id]).1.Ok?
    requires AllLater(s, Step(link, t, s, SubmitInner(task)))
    ensures var s' := Step(link, t, s, SubmitInner(task));
            TasksOk(t, s') && EntriesOk(t, s') && OneEntryPerProposal(s'.log) && OneMarkPerProposal(s')
  {
    var s' := Step(link, t, s, SubmitInner(task));
    AcceptedIsNew(link, t, s, s.tasks[task].id);
    AcceptedKeepsTasks(t, s, s', task);
    NewEntryOk(t, s, s', task);
    EntriesLater(t, s, s');
  }

  lemma SubmitExtendsLedger(link: LinkFn, t: Thresholds, s: System, task: nat)
    requires LedgerOk(link, s) && task in s.tasks && s.tasks[task].Checked? && s.tasks[task].id in s.book.pending
    ensures LedgerOk(link, Step(link, t, s, SubmitInner(task))) && NoncesGrow(s, Step(link, t, s, SubmitInner(task)))
  {
    var s' := Step(link, t, s, SubmitInner(task));
    var r := s.book.pending[s.tasks[task].id];
    var (ledger', receipt) := Submit(link, s.ledger, r);
    SubmitExtendsOneChain(link, s.ledger, r);
    forall org ensures OrgOk(s', org) && LatestNonce(s.ledger, org) <= LatestNonce(s'.ledger, org) {
      assert OrgOk(s, org) && AppendsTo(s.ledger, ledger', org, AddedBy(receipt, r, org));
      if receipt.Ok? {
        assert s'.log[..|s.log|] == s.log;
      }
    }
  }

  lemma NewEntryOk(t: Thresholds, s: System, s': System, task: nat)
    requires TaskOk(t, s, task) && s.tasks[task].Checked? && ProposalOk(s, s.tasks[task].id) && AllLater(s, s')
    requires var id, seen := s.tasks[task].id, s.tasks[task].seen;
             && !Logged(s.log, id)
             && s'.log == s.log + [Entry(id, s.book.pending[id], seen)]
             && s.book.pending[id].nonce <= LatestNonce(s'.ledger, s.book.pending[id].orgIdHash)
    requires OneEntryPerProposal(s.log)
    ensures EntryOk(t, s', |s.log|) && OneEntryPerProposal(s'.log)
  {
    assert Later(s, s', s.tasks[task].id);
  }

  lemma AcceptedKeepsTasks(t: Thresholds, s: System, s': System, task: nat)
    requires TaskOk(t, s, task) && s.tasks[task].Checked? && AllLater(s, s') && OneMarkPerProposal(s) && TasksOk(t, s)
    requires var id, seen := s.tasks[task].id, s.tasks[task].seen;
             && s'.book == s.book && s'.tasks == s.tasks[task := Submitted(id)] && s'.log != s.log
             && s'.log[|s'.log| - 1].id == id && !Logged(s.log, id) && s.book.proposals[id].status == Pending
    ensures TasksOk(t, s') && OneMarkPerProposal(s')
  {
    forall other | other in s'.tasks ensures TaskOk(t, s', other) {
      if other != task {
        TaskLater(t, s, s', other);
      }
    }
    forall i, j | i in s'.tasks && j in s'.tasks && i != j && s'.tasks[i].Submitted? && s'.tasks[j].Submitted?
      ensures s'.tasks[i].id != s'.tasks[j].id
    {
      assert TaskOk(t, s, i) && TaskOk(t, s, j);
    }
  }

  /** Setting the status of a proposal that has an entry and no call left to mark it. */
  lemma StatusKeepsInv(link: LinkFn, t: Thresholds, s: System, s': System, id: string, status: Status)
    requires Inv(link, t, s) && id in s.book.proposals && Logged(s.log, id)
    requires status != Pending && StatusAdvances(s.book.proposals[id].status, status)
    requires s' == s.(book := s'.book, tasks := s'.tasks)
    requires s'.book == SetStatus(s.book, id, status).(challenges := s'.book.challenges)
    requires forall task :: task in s'.tasks ==> task in s.tasks && s'.tasks[task] == s.tasks[task]
    requires forall task :: task in s'.tasks && s'.tasks[task].Submitted? ==> s'.tasks[task].id != id
    requires forall c :: c in s'.book.challenges ==>
               c in s.book.challenges && s'.book.challenges[c].proposalId == s.book.challenges[c].proposalId
    ensures Inv(link, t, s') && AllLater(s, s')
  {
    StatusLater(s, s', id, status);
    SameLedger(link, s, s');
    EntriesLater(t, s, s');
    TasksLater(t, s, s');
    ChallengesLater(s, s');
  }

  lemma StatusLater(s: System, s': System, id: string, status: Status)
    requires ProposalsOk(s) && id in s.book.proposals && Logged(s.log, id)
    requires status != Pending && StatusAdvances(s.book.proposals[id].status, status)
    requires s' == s.(book := s'.book, tasks := s'.tasks)
    requires s'.book == SetStatus(s.book, id, status).(challenges := s'.book.challenges)
    ensures AllLater(s, s') && ProposalsOk(s')
    ensures forall other :: other in s.book.proposals && other != id ==> StatusUntouched(s, s', other)
  {
    forall other | other in s'.book.proposals ensures ProposalOk(s', other) && Later(s, s', other) {
      assert ProposalOk(s, other);
    }
  }

  lemma MarkKeepsInv(link: LinkFn, t: Thresholds, s: System, task: nat)
    requires Inv(link, t, s)
    ensures Inv(link, t, Step(link, t, s, Mark(task)))
    ensures AllLater(s, Step(link, t, s, Mark(task)))
  {
    var s' := Step(link, t, s, Mark(task));
    if task in s.tasks && s.tasks[task].Submitted? && s.tasks[task].id in s.book.proposals {
      assert TaskOk(t, s, task);
      StatusKeepsInv(link, t, s, s', s.tasks[task].id, Finalized);
    } else {
      NothingHappens(link, t, s);
    }
  }

  lemma ChallengeKeepsInv(link: LinkFn, t: Thresholds, s: System, cid: string, id: string)
    requires Inv(link, t, s)
    ensures Inv(link, t, Step(link, t, s, OpenChallenge(cid, id)))
    ensures AllLater(s, Step(link, t, s, OpenChallenge(cid, id)))
  {
    var s' := Step(link, t, s, OpenChallenge(cid, id));
    if cid !in s.book.challenges && FileChallenge(s.book, cid, id).Ok? {
      assert ProposalOk(s, id);
      var c := Challenge(id, false);
      ChallengesOnly(link, t, s, s.(book := s.book.(challenges := s.book.challenges[cid := c])));
    } else {
      NothingHappens(link, t, s);
    }
  }

  lemma ChallengesOnly(link: LinkFn, t: Thresholds, s: System, s': System)
    requires Inv(link, t, s) && s' == s.(book := s.book.(challenges := s'.book.challenges))
    requires forall c :: c in s'.book.challenges ==>
               || (c in s.book.challenges && s'.book.challenges[c] == s.book.challenges[c])
               || ChallengeOk(s', c)
    ensures Inv(link, t, s') && AllLater(s, s')
  {
    SameProposals(s, s');
    SameLedger(link, s, s');
    EntriesLater(t, s, s');
    TasksLater(t, s, s');
    forall c | c in s'.book.challenges ensures ChallengeOk(s', c) {
      if c in s.book.challenges && s'.book.challenges[c] == s.book.challenges[c] {
        assert ChallengeOk(s, c);
        ChallengeLater(s, s', c);
      }
    }
  }

  lemma SameProposals(s: System, s': System)
    requires ProposalsOk(s) && s' == s.(book := s.book.(challenges := s'.book.challenges))
    ensures ProposalsOk(s') && AllLater(s, s')
  {
    forall other | other in s.book.proposals ensures ProposalOk(s', other) && Later(s, s', other) {
      assert ProposalOk(s, other);
      ProposalLater(s, s', other);
    }
  }

  lemma SettleKeepsInv(link: LinkFn, t: Thresholds, s: System, cid: string, challengerWins: bool, settled: bool)
    requires Inv(link, t, s)
    ensures Inv(link, t, Step(link, t, s, Settle(cid, challengerWins, settled)))
    ensures AllLater(s, Step(link, t, s, Settle(cid, challengerWins, settled)))
  {
    var s' := Step(link, t, s, Settle(cid, challengerWins, settled));
    if Resolve(s.book, cid, challengerWins, settled).Ok? {
      assert ChallengeOk(s, cid);
      var id := s.book.challenges[cid].proposalId;
      assert ProposalOk(s, id);
      var status := if challengerWins then Slashed else s.book.proposals[id].status;
      ResolvedBook(s.book, cid, challengerWins, settled, status);
      NotBeingMarked(t, s, id);
      StatusKeepsInv(link, t, s, s', id, status);
    } else {
      NothingHappens(link, t, s);
    }
  }

  lemma ResolvedBook(b: Book, cid: string, challengerWins: bool, settled: bool, status: Status)
    requires Resolve(b, cid, challengerWins, settled).Ok?
    requires var id := b.challenges[cid].proposalId;
             status == if challengerWins then Slashed else b.proposals[id].status
    ensures var b' := Resolve(b, cid, challengerWins, settled).value;
            && b' == SetStatus(b, b.challenges[cid].proposalId, status).(challenges := b'.challenges)
            && forall c :: c in b'.challenges ==>
                 c in b.challenges && b'.challenges[c].proposalId == b.challenges[c].proposalId
  {
    var id := b.challenges[cid].proposalId;
    assert b.proposals[id := b.proposals[id].(status := b.proposals[id].status)] == b.proposals;
  }

  lemma NotBeingMarked(t: Thresholds, s: System, id: string)
    requires TasksOk(t, s) && id in s.book.proposals && s.book.proposals[id].status != Pending
    ensures forall task :: task in s.tasks && s.tasks[task].Submitted? ==> s.tasks[task].id != id
  {
    forall task | task in s.tasks && s.tasks[task].Submitted? ensures s.tasks[task].id != id {
      assert TaskOk(t, s, task);
    }
  }

  lemma StepKeepsInv(link: LinkFn, t: Thresholds, s: System, e: Event)
    requires Inv(link, t, s)
    ensures Inv(link, t, Step(link, t, s, e))
    ensures AllLater(s, Step(link, t, s, e))
  {
    match e {
      case CreateProposal(id, r, proposer, info) =>
        if id !in s.book.proposals && Create(s.book, id, r, proposer, info).Ok? {
          CreateKeepsInv(link, t, s, id, r, proposer, info, Step(link, t, s, e));
        } else {
          NothingHappens(link, t, s);
        }
      case CastVote(id, voter, inFavor, info) =>
        if Vote(s.book, id, voter, inFavor, info).Ok? {
          VoteKeepsInv(link, t, s, id, voter, inFavor, info);
        } else {
          NothingHappens(link, t, s);
        }
      case Check(task, id) => CheckKeepsInv(link, t, s, task, id);
      case SubmitInner(task) => SubmitKeepsInv(link, t, s, task);
      case Mark(task) => MarkKeepsInv(link, t, s, task);
      case OpenChallenge(cid, id) => ChallengeKeepsInv(link, t, s, cid, id);
      case Settle(cid, wins, settled) => SettleKeepsInv(link, t, s, cid, wins, settled);
    }
  }

  lemma {:induction false} RunKeepsInv(link: LinkFn, t: Thresholds, s: System, es: seq<Event>)
    requires Inv(link, t, s)
    ensures Inv(link, t, Run(link, t, s, es))
    decreases |es|
  {
    if es != [] {
      StepKeepsInv(link, t, s, es[0]);
      RunKeepsInv(link, t, Step(link, t, s, es[0]), es[1..]);
    }
  }

  lemma StartKeepsInv(link: LinkFn, t: Thresholds)
    ensures Inv(link, t, START)
  {
    EmptyIsValid(link);
    forall org ensures OrgOk(START, org) {
      assert Contiguous(EMPTY, org);
    }
  }

  // ---------- main results ----------

  /** Over every interleaving, concurrent finalizes and votes that land in the await included: every tally is exact
      and one vote per voter; no two proposals share an org and nonce; the inner records of an org are exactly the
      logged ones, at most one per proposal, each carried by the ballots its own finalize had checked, which are still
      the first ballots of that proposal. */
  lemma InnerRecordsAreCarried(link: LinkFn, t: Thresholds, es: seq<Event>)
    ensures var s := Run(link, t, START, es);
            && Valid(link, s.ledger)
            && (forall org :: OrgOk(s, org))
            && (forall id :: id in s.book.proposals ==> ProposalOk(s, id))
            && (forall i: nat {:trigger EntryOk(t, s, i)} :: i < |s.log| ==> EntryOk(t, s, i))
            && OneEntryPerProposal(s.log)
            && forall a, b :: a in s.book.proposals && b in s.book.proposals && a != b ==>
                 (s.book.proposals[a].orgIdHash, s.book.proposals[a].nonce)
                 != (s.book.proposals[b].orgIdHash, s.book.proposals[b].nonce)
  {
    StartKeepsInv(link, t);
    RunKeepsInv(link, t, START, es);
    var s := Run(link, t, START, es);
    forall a, b | a in s.book.proposals && b in s.book.proposals && a != b
      ensures (s.book.proposals[a].orgIdHash, s.book.proposals[a].nonce)
              != (s.book.proposals[b].orgIdHash, s.book.proposals[b].nonce)
    {
      assert ProposalOk(s, a) && ProposalOk(s, b);
    }
  }

  /** After any run, one more step moves a proposal only from pending to finalized or from finalized to slashed. */
  lemma StatusOnlyAdvances(link: LinkFn, t: Thresholds, es: seq<Event>, e: Event)
    ensures StatusesAdvance(Run(link, t, START, es), Step(link, t, Run(link, t, START, es), e))
  {
    StartKeepsInv(link, t);
    RunKeepsInv(link, t, START, es);
    var s := Run(link, t, START, es);
    StepKeepsInv(link, t, s, e);
    forall id | id in s.book.proposals ensures Later(s, Step(link, t, s, e), id) {
    }
  }

  /** A proposal is finalized or slashed only when its record stands, at its nonce, on the ledger behind. */
  lemma FinalizedIsOnLedger(link: LinkFn, t: Thresholds, es: seq<Event>, id: string)
    requires var b := Run(link, t, START, es).book; id in b.proposals && b.proposals[id].status != Pending
    ensures var s := Run(link, t, START, es);
            && id in s.book.pending && OrgOk(s, s.book.pending[id].orgIdHash)
            && s.book.pending[id] in Chain(s.ledger, s.book.pending[id].orgIdHash)
  {
    StartKeepsInv(link, t);
    RunKeepsInv(link, t, START, es);
    var s := Run(link, t, START, es);
    assert ProposalOk(s, id);
    var i :| 0 <= i < |s.log| && s.log[i].id == id;
    assert EntryOk(t, s, i);
    var org := s.book.pending[id].orgIdHash;
    assert OrgOk(s, org);
    EntryIsRecorded(s.log, i, org);
  }

  /** A finalize of this proposal has submitted its record and not marked it yet. */
  ghost predicate InFlight(s: System, id: string) {
    exists task :: task in s.tasks && s.tasks[task] == Submitted(id)
  }

  ghost predicate MarkedOrInFlight(s: System, i: nat) {
    && i < |s.log| && s.log[i].id in s.book.proposals
    && (s.book.proposals[s.log[i].id].status != Pending || InFlight(s, s.log[i].id))
  }

  ghost predicate EntriesMarked(s: System) {
    forall i: nat {:trigger MarkedOrInFlight(s, i)} :: i < |s.log| ==> MarkedOrInFlight(s, i)
  }

  /** A finalize stays in flight until it marks its proposal. */
  lemma InFlightUntilMarked(link: LinkFn, t: Thresholds, s: System, e: Event, id: string)
    requires InFlight(s, id) && id in s.book.proposals
    ensures var s' := Step(link, t, s, e);
            InFlight(s', id) || (id in s'.book.proposals && s'.book.proposals[id].status == Finalized)
  {
    var task :| task in s.tasks && s.tasks[task] == Submitted(id);
    var s' := Step(link, t, s, e);
    if e != Mark(task) {
      assert task in s'.tasks && s'.tasks[task] == Submitted(id);
    }
  }

  /** A step adds at most one entry, and then its own finalize is in flight. */
  lemma NewEntryIsInFlight(link: LinkFn, t: Thresholds, s: System, e: Event)
    ensures var s' := Step(link, t, s, e);
            s'.log == s.log || (|s'.log| == |s.log| + 1 && s.log <= s'.log && InFlight(s', s'.log[|s.log|].id))
  {
    var s' := Step(link, t, s, e);
    if e.SubmitInner? && s'.log != s.log {
      assert e.task in s'.tasks && s'.tasks[e.task] == Submitted(s'.log[|s.log|].id);
    }
  }

  lemma StepKeepsMarked(link: LinkFn, t: Thresholds, s: System, e: Event)
    requires Inv(link, t, s) && EntriesMarked(s)
    ensures EntriesMarked(Step(link, t, s, e))
  {
    var s' := Step(link, t, s, e);
    StepKeepsInv(link, t, s, e);
    NewEntryIsInFlight(link, t, s, e);
    forall i: nat | i < |s'.log| ensures MarkedOrInFlight(s', i) {
      assert EntryOk(t, s', i);
      if i < |s.log| {
        assert MarkedOrInFlight(s, i) && s'.log[i] == s.log[i];
        OldEntryMarked(link, t, s, e, s.log[i].id);
      }
    }
  }

  lemma OldEntryMarked(link: LinkFn, t: Thresholds, s: System, e: Event, id: string)
    requires AllLater(s, Step(link, t, s, e)) && id in s.book.proposals
    requires s.book.proposals[id].status != Pending || InFlight(s, id)
    ensures var s' := Step(link, t, s, e);
            id in s'.book.proposals && (s'.book.proposals[id].status != Pending || InFlight(s', id))
  {
    assert Later(s, Step(link, t, s, e), id);
    if InFlight(s, id) {
      InFlightUntilMarked(link, t, s, e, id);
    }
  }

  lemma {:induction false} RunKeepsMarked(link: LinkFn, t: Thresholds, s: System, es: seq<Event>)
    requires Inv(link, t, s) && EntriesMarked(s)
    ensures EntriesMarked(Run(link, t, s, es))
    decreases |es|
  {
    if es != [] {
      StepKeepsInv(link, t, s, es[0]);
      StepKeepsMarked(link, t, s, es[0]);
      RunKeepsMarked(link, t, Step(link, t, s, es[0]), es[1..]);
    }
  }

  /** A proposal has its record on the inner chain exactly when it is past pending or a finalize of it is in flight. */
  lemma LoggedIsMarkedOrInFlight(link: LinkFn, t: Thresholds, es: seq<Event>, id: string)
    requires id in Run(link, t, START, es).book.proposals
    ensures var s := Run(link, t, START, es);
            && (Logged(s.log, id) <==> s.book.proposals[id].status != Pending || InFlight(s, id))
            && !(s.book.proposals[id].status != Pending && InFlight(s, id))
  {
    StartKeepsInv(link, t);
    RunKeepsInv(link, t, START, es);
    RunKeepsMarked(link, t, START, es);
    var s := Run(link, t, START, es);
    assert ProposalOk(s, id);
    if Logged(s.log, id) {
      var i :| 0 <= i < |s.log| && s.log[i].id == id;
      assert MarkedOrInFlight(s, i);
    }
    if InFlight(s, id) {
      var task :| task in s.tasks && s.tasks[task] == Submitted(id);
      assert TaskOk(t, s, task);
    }
  }

  /** A record of a proposal that is finalized or slashed. */
  ghost predicate IsFinalRecord(s: System, org: string, r: Record) {
    exists id :: && id in s.book.proposals && s.book.proposals[id].status != Pending
                 && id in s.book.pending && s.book.pending[id] == r && r.orgIdHash == org
  }

  /** With no finalize in flight the inner records are exactly those of the proposals past pending. */
  lemma QuietLedgerIsFinal(link: LinkFn, t: Thresholds, es: seq<Event>, org: string, r: Record)
    requires forall id :: !InFlight(Run(link, t, START, es), id)
    ensures var s := Run(link, t, START, es);
            OrgOk(s, org) && (r in Chain(s.ledger, org) <==> IsFinalRecord(s, org, r))
  {
    StartKeepsInv(link, t);
    RunKeepsInv(link, t, START, es);
    var s := Run(link, t, START, es);
    assert OrgOk(s, org);
    if r in Chain(s.ledger, org) {
      var i := EntryOfRecord(s.log, org, r);
      assert EntryOk(t, s, i) && Logged(s.log, s.log[i].id);
      LoggedIsMarkedOrInFlight(link, t, es, s.log[i].id);
      assert s.book.pending[s.log[i].id] == r;
    }
    if IsFinalRecord(s, org, r) {
      var id :| id in s.book.proposals && s.book.proposals[id].status != Pending
                && id in s.book.pending && s.book.pending[id] == r && r.orgIdHash == org;
      FinalizedIsOnLedger(link, t, es, id);
    }
  }

  lemma {:induction false} EntryOfRecord(log: seq<Entry>, org: string, r: Record) returns (i: nat)
    requires r in RecordsOf(log, org)
    ensures i < |log| && log[i].record == r && r.orgIdHash == org
  {
    var last := log[|log| - 1];
    if last.record.orgIdHash == org && last.record == r {
      i := |log| - 1;
    } else {
      i := EntryOfRecord(log[..|log| - 1], org, r);
    }
  }

  lemma {:induction false} EntryIsRecorded(log: seq<Entry>, i: nat, org: string)
    requires i < |log| && log[i].record.orgIdHash == org
    ensures log[i].record in RecordsOf(log, org)
  {
    if i < |log| - 1 {
      EntryIsRecorded(log[..|log| - 1], i, org);
    }
  }
}
