/** The provider object of attestation/consensus_provider.py, with its dictionaries updated in place. */
module ConsensusProvider {
  import opened Options
  import opened Records
  import opened Ledgers
  import opened Consensus
  import L = LocalProvider

  class ConsensusProvider {
    const inner: L.LocalProvider
    const thresholds: Thresholds
    var proposals: map<string, Proposal>
    var slots: map<(string, int), string>
    var pending: map<string, Record>
    var challenges: map<string, Challenge>

    function State(): Book
      reads this
    {
      Book(proposals, slots, pending, challenges)
    }

    constructor (inner: L.LocalProvider, thresholds: Thresholds)
      ensures this.inner == inner && this.thresholds == thresholds && State() == EMPTY_BOOK
    {
      this.inner := inner;
      this.thresholds := thresholds;
      proposals, slots, pending, challenges := map[], map[], map[], map[];
    }

    /** `id` is the fresh uuid and `info` the registry's answer about the proposer, who votes yes at once. */
    method CreateProposal(record: Record, proposer: string, id: string, info: Option<Validator>)
      returns (r: Result<Proposal, ConsensusError>)
      requires id !in State().proposals
      modifies this
      ensures var c := Create(old(State()), id, record, proposer, info);
              if c.Ok? then State() == c.value && r == Ok(State().proposals[id])
              else State() == old(State()) && r == Err(c.error)
    {
      if info.None? || !info.value.active {
        return Err(NotActive);
      }
      var slotKey := (record.orgIdHash, record.nonce);
      if slotKey in slots {
        return Err(SlotTaken);
      }
      var proposal := Proposal(record.orgIdHash, record.nonce, proposer, info.value.stake, info.value.stake,
                               [proposer], [proposer], Pending);
      proposals := proposals[id := proposal];
      slots := slots[slotKey := id];
      pending := pending[id := record];
      return Ok(proposal);
    }

    method Vote(id: string, voter: string, inFavor: bool, info: Option<Validator>)
      returns (r: Result<Proposal, ConsensusError>)
      modifies this
      ensures var v := Consensus.Vote(old(State()), id, voter, inFavor, info);
              if v.Ok? then State() == v.value && id in State().proposals && r == Ok(State().proposals[id])
              else State() == old(State()) && r == Err(v.error)
    {
      if id !in proposals {
        return Err(NotFound);
      }
      var p := proposals[id];
      if p.status != Pending {
        return Err(NotPending);
      }
      if info.None? || !info.value.active {
        return Err(NotActive);
      }
      if voter in p.voters {
        return Err(AlreadyVoted);
      }
      p := p.(voters := p.voters + [voter], totalStake := p.totalStake + info.value.stake);
      if inFavor {
        p := p.(yesStake := p.yesStake + info.value.stake, yesVoters := p.yesVoters + [voter]);
      }
      proposals := proposals[id := p];
      return Ok(p);
    }

    /** The whole call when nothing runs at its await: only a proposal that passes the checks reaches the inner
        provider, and only an accepted record finalizes it. */
    method FinalizeProposal(id: string) returns (r: Result<int, ConsensusError>)
      requires id in State().proposals ==> id in State().pending
      modifies this, inner
      ensures match FinalizeError(old(State()), id, thresholds)
              case Some(e) => r == Err(e) && State() == old(State()) && inner.State() == old(inner.State())
              case None =>
                var (ledger, receipt) := Submit(inner.link, old(inner.State()), old(State()).pending[id]);
                && inner.State() == ledger
                && if receipt.Ok? then State() == SetStatus(old(State()), id, Finalized) && r == Ok(receipt.value)
                   else State() == old(State()) && r == Err(InnerFailed(receipt.error))
      ensures r.Ok? || (r.error.InnerFailed?) <==> MayBeFinalized(old(State()), id, thresholds)
      ensures r.Ok? ==>
                && old(State()).proposals[id].status.Pending? && State().proposals[id].status.Finalized?
                && SameExcept(old(State()).proposals, State().proposals, id)
                && State().proposals[id] == old(State()).proposals[id].(status := Finalized)
    {
      FinalizeChecks(State(), id, thresholds);
      if id !in proposals {
        return Err(NotFound);
      }
      var p := proposals[id];
      if p.status != Pending {
        return Err(NotPending);
      }
      if |p.voters| < thresholds.quorum {
        return Err(QuorumNotMet);
      }
      var ratio := if p.totalStake > 0.0 then p.yesStake / p.totalStake else 0.0;
      if ratio < thresholds.ratio {
        return Err(SupermajorityNotMet);
      }
      var receipt := inner.Submit(pending[id]);
      if receipt.Err? {
        return Err(InnerFailed(receipt.error));
      }
      proposals := proposals[id := proposals[id].(status := Finalized)];
      return Ok(receipt.value);
    }

    method ChallengeProposal(id: string, cid: string) returns (r: Option<ConsensusError>)
      requires cid !in State().challenges
      modifies this
      ensures var c := FileChallenge(old(State()), cid, id);
              if c.Ok? then State() == c.value && r == None else State() == old(State()) && r == Some(c.error)
    {
      if id !in proposals {
        return Some(NotFound);
      }
      if proposals[id].status != Finalized {
        return Some(NotFinalized);
      }
      challenges := challenges[cid := Challenge(id, false)];
      return None;
    }

    method ResolveChallenge(cid: string, challengerWins: bool, settled: bool) returns (r: Option<ConsensusError>)
      requires cid in State().challenges ==> State().challenges[cid].proposalId in State().proposals
      modifies this
      ensures var c := Resolve(old(State()), cid, challengerWins, settled);
              if c.Ok? then State() == c.value && r == None else State() == old(State()) && r == Some(c.error)
    {
      if cid !in challenges {
        return Some(NotFound);
      }
      var ch := challenges[cid];
      if ch.resolved {
        return Some(AlreadyResolved);
      }
      if !settled {
        return Some(SettlementFailed);
      }
      challenges := challenges[cid := ch.(resolved := true)];
      if challengerWins {
        proposals := proposals[ch.proposalId := proposals[ch.proposalId].(status := Slashed)];
      }
      return None;
    }
  }
}
