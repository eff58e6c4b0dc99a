/** The in-memory provider itself, updated in place (attestation/local_provider.py). */
module LocalProvider {
  import opened Options
  import opened Bytes
  import opened Records
  import opened Ledgers

  predicate HasPeriod(r: Record, periodStart: int, periodEnd: int) {
    r.periodStart == periodStart && r.periodEnd == periodEnd
  }

  /** No record from place `n` on has this period. */
  predicate NoneFrom(c: seq<Record>, n: int, periodStart: int, periodEnd: int) {
    forall j :: 0 <= n <= j < |c| ==> !HasPeriod(c[j], periodStart, periodEnd)
  }

  lemma OneMoreWithout(c: seq<Record>, n: int, periodStart: int, periodEnd: int)
    requires 0 < n <= |c| && NoneFrom(c, n, periodStart, periodEnd) && !HasPeriod(c[n - 1], periodStart, periodEnd)
    ensures NoneFrom(c, n - 1, periodStart, periodEnd)
  {
  }

  lemma AtItsNonce(s: Ledger, org: string, n: int)
    requires Contiguous(s, org) && 1 <= n <= LatestNonce(s, org)
    ensures n in Stored(s, org) && Chain(s, org)[n - 1] == Stored(s, org)[n]
  {
  }

  /** What reading a missing key of a defaultdict does. */
  lemma EntryAdded<V>(before: map<string, V>, after: map<string, V>, key: string, default: V)
    requires after == if key in before then before else before[key := default]
    ensures after == before[key := if key in before then before[key] else default]
  {
  }

  lemma UpdatedTwice<V>(m: map<string, V>, key: string, v: V, w: V)
    ensures m[key := v][key := w] == m[key := w]
  {
  }

  class LocalProvider {
    const link: LinkFn
    var store: map<string, map<int, Record>>
    var latestNonce: map<string, int>
    var txCounter: int

    function State(): Ledger
      reads this
    {
      Ledger(store, latestNonce, txCounter)
    }

    constructor (link: LinkFn)
      ensures this.link == link && State() == EMPTY && Valid(link, State())
    {
      this.link := link;
      store, latestNonce, txCounter := map[], map[], 0;
      new;
      EmptyIsValid(link);
    }

    method ValidateChainLinkage(record: Record) returns (error: Option<SubmitError>)
      requires record.orgIdHash in store
      ensures error == LinkError(link, store[record.orgIdHash], record)
      ensures error.None? <==>
                if record.nonce == 1 then record.prevHash == "" || IsZeroHash(record.prevHash)
                else record.nonce - 1 in store[record.orgIdHash]
                     && link(store[record.orgIdHash][record.nonce - 1]) == Some(record.prevHash)
    {
      if record.nonce == 1 {
        if !IsFirstLink(record.prevHash) {
          return Some(NonZeroFirstLink);
        }
        return None;
      }
      if record.nonce - 1 !in store[record.orgIdHash] {
        return Some(PreviousMissing);
      }
      var expected := link(store[record.orgIdHash][record.nonce - 1]);
      if expected.None? {
        return Some(PackingFailed);
      }
      if record.prevHash != expected.value {
        return Some(BrokenLink);
      }
      return None;
    }

    method Submit(record: Record) returns (r: Receipt)
      modifies this
      ensures (State(), r) == Ledgers.Submit(link, old(State()), record)
      ensures old(Valid(link, State())) ==>
        && Valid(link, State())
        && (r.Ok? <==> record.orgIdHash != "" && Extends(link, Chain(old(State()), record.orgIdHash), record))
        && forall org :: AppendsTo(old(State()), State(), org, AddedBy(r, record, org))
    {
      ghost var before := State();
      if Valid(link, before) {
        SubmitExtendsOneChain(link, before, record);
      }
      var org := record.orgIdHash;
      if org == "" {
        return Err(EmptyOrg);
      }
      if org !in latestNonce {
        latestNonce := latestNonce[org := 0];
      }
      EntryAdded(before.latest, latestNonce, org, 0);
      var expectedNonce := latestNonce[org] + 1;
      if record.nonce != expectedNonce {
        return Err(NonceMismatch);
      }
      if org !in store {
        store := store[org := map[]];
      }
      EntryAdded(before.store, store, org, map[]);
      if record.nonce in store[org] {
        return Err(DuplicateNonce);
      }
      var error := ValidateChainLinkage(record);
      if error.Some? {
        return Err(error.value);
      }
      UpdatedTwice(before.store, org, store[org], store[org][record.nonce := record]);
      UpdatedTwice(before.latest, org, latestNonce[org], record.nonce);
      store := store[org := store[org][record.nonce := record]];
      latestNonce := latestNonce[org := record.nonce];
      txCounter := txCounter + 1;
      return Ok(txCounter);
    }

    /** All or nothing, except after the one failure that is not an AttestationError. */
    method BatchSubmit(records: seq<Record>) returns (r: Result<seq<int>, SubmitError>)
      modifies this
      ensures (State(), r) == Ledgers.BatchSubmit(link, old(State()), records)
      ensures old(Valid(link, State())) ==>
        && Valid(link, State())
        && (r.Ok? ==> forall org :: AppendsTo(old(State()), State(), org, Of(org, records)))
        && (r.Err? && State() != old(State()) <==> exists i :: MeetsUnpackableTip(link, old(State()), records, i))
    {
      ghost var before := State();
      if Valid(link, before) {
        SubmitAllExtendsChains(link, before, records);
        BatchAtomicUnlessUnpackable(link, before, records);
      }
      var storeSnapshot, nonceSnapshot, txSnapshot := store, latestNonce, txCounter;
      var txIds: seq<int> := [];
      for i := 0 to |records|
        invariant Ledgers.SubmitAll(link, before, records[..i]) == (State(), Ok(txIds))
        invariant before == Ledger(storeSnapshot, nonceSnapshot, txSnapshot)
      {
        SubmitAllSnoc(link, before, records[..i], records[i]);
        assert records[..i + 1] == records[..i] + [records[i]];
        var receipt := Submit(records[i]);
        if receipt.Err? {
          SubmitAllStops(link, before, records[..i + 1], records[i + 1..]);
          assert records == records[..i + 1] + records[i + 1..];
          if receipt.error.IsAttestationError() {
            store, latestNonce, txCounter := storeSnapshot, nonceSnapshot, txSnapshot;
          }
          return Err(receipt.error);
        }
        txIds := txIds + [receipt.value];
      }
      assert records[..|records|] == records;
      return Ok(txIds);
    }

    /** The latest record of exactly this period, if the org has one. */
    method Verify(org: string, periodStart: int, periodEnd: int) returns (r: Option<Record>)
      requires Valid(link, State())
      ensures Contiguous(State(), org)
      ensures var c := Chain(State(), org);
              match r
              case None => forall k :: 0 <= k < |c| ==> !HasPeriod(c[k], periodStart, periodEnd)
              case Some(found) =>
                exists k :: && 0 <= k < |c| && c[k] == found && HasPeriod(found, periodStart, periodEnd)
                            && forall j :: k < j < |c| ==> !HasPeriod(c[j], periodStart, periodEnd)
    {
      assert Contiguous(State(), org);
      ghost var c := Chain(State(), org);
      if org !in store || store[org] == map[] {
        assert c != [] ==> 1 in Stored(State(), org);
        return None;
      }
      var nonce := if org in latestNonce then latestNonce[org] else 0;
      while nonce > 0
        invariant 0 <= nonce <= |c|
        invariant NoneFrom(c, nonce, periodStart, periodEnd)
      {
        ghost var was := nonce;
        AtItsNonce(State(), org, nonce);
        if nonce in store[org] {
          var record := store[org][nonce];
          if record.periodStart == periodStart && record.periodEnd == periodEnd {
            return Some(record);
          }
        }
        nonce := nonce - 1;
        OneMoreWithout(c, was, periodStart, periodEnd);
      }
      return None;
    }

    /** The end of the org's chain, if it has one. */
    method GetLatest(org: string) returns (r: Option<Record>)
      requires Valid(link, State())
      ensures Contiguous(State(), org)
      ensures var c := Chain(State(), org); r == if c == [] then None else Some(c[|c| - 1])
    {
      assert Contiguous(State(), org);
      var nonce := if org in latestNonce then latestNonce[org] else 0;
      if nonce == 0 {
        return None;
      }
      assert nonce in Stored(State(), org);
      return Some(store[org][nonce]);
    }
  }
}
