/**
 * The attestation ledger as a value: what `LocalProvider` stores, what one submission and one batch
 * make of it, and what every reachable ledger satisfies (attestation/local_provider.py).
 */
module Ledgers {
  import opened Options
  import opened Bytes
  import opened Records

  /** The reasons a submission is refused. `PackingFailed` is the one that is not an AttestationError:
      it is the ValueError or struct.error that packing the stored predecessor raises. */
  datatype SubmitError =
    EmptyOrg | NonceMismatch | DuplicateNonce | NonZeroFirstLink | PreviousMissing | BrokenLink | PackingFailed
  {
    predicate IsAttestationError() { this != PackingFailed }
  }

  datatype Ledger = Ledger(store: map<string, map<int, Record>>, latest: map<string, int>, txCount: int)

  /** The hash a record's successor must carry, or `None` when computing it raises. Nothing in this module
      depends on how it is computed, up to the last section, where it is `ChainHash`. */
  type LinkFn = Record -> Option<Digest>

  function LinkOf(keccak: HashFn): LinkFn { (r: Record) => ChainHash(keccak, r) }

  const EMPTY: Ledger := Ledger(map[], map[], 0)

  type Receipt = Result<int, SubmitError>

  // ---------- operations ----------

  /** What the first record of an org may carry for a link. */
  predicate IsFirstLink(hash: string) { hash == "" || IsZeroHash(hash) }

  function LatestNonce(s: Ledger, org: string): int {
    if org in s.latest then s.latest[org] else 0
  }

  function Stored(s: Ledger, org: string): map<int, Record> {
    if org in s.store then s.store[org] else map[]
  }

  function LinkError(link: LinkFn, stored: map<int, Record>, r: Record): Option<SubmitError> {
    if r.nonce == 1 then
      if IsFirstLink(r.prevHash) then None else Some(NonZeroFirstLink)
    else if r.nonce - 1 !in stored then Some(PreviousMissing)
    else if link(stored[r.nonce - 1]).None? then Some(PackingFailed)
    else if link(stored[r.nonce - 1]).value != r.prevHash then Some(BrokenLink)
    else None
  }

  /** One submission. Reading a missing key of a defaultdict creates it, also when the record is then refused. */
  function Submit(link: LinkFn, s: Ledger, r: Record): (Ledger, Receipt) {
    var org := r.orgIdHash;
    if org == "" then (s, Err(EmptyOrg))
    else
      var s1 := s.(latest := s.latest[org := LatestNonce(s, org)]);
      if r.nonce != LatestNonce(s, org) + 1 then (s1, Err(NonceMismatch))
      else
        var stored := Stored(s, org);
        var s2 := s1.(store := s.store[org := stored]);
        if r.nonce in stored then (s2, Err(DuplicateNonce))
        else match LinkError(link, stored, r)
          case Some(e) => (s2, Err(e))
          case None =>
            (Ledger(s.store[org := stored[r.nonce := r]], s.latest[org := r.nonce], s.txCount + 1), Ok(s.txCount + 1))
  }

  /** Submissions in order, up to the first refusal. */
  function SubmitAll(link: LinkFn, s: Ledger, rs: seq<Record>): (Ledger, Result<seq<int>, SubmitError>)
    decreases |rs|
  {
    if rs == [] then (s, Ok([]))
    else
      var (s1, r1) := Submit(link, s, rs[0]);
      match r1
      case Err(e) => (s1, Err(e))
      case Ok(id) =>
        var (s2, r2) := SubmitAll(link, s1, rs[1..]);
        (s2, if r2.Ok? then Ok([id] + r2.value) else r2)
  }

  /** A batch: only an AttestationError restores the snapshot. */
  function BatchSubmit(link: LinkFn, s: Ledger, rs: seq<Record>): (Ledger, Result<seq<int>, SubmitError>) {
    var (s', r) := SubmitAll(link, s, rs);
    if r.Err? && r.error.IsAttestationError() then (s, r) else (s', r)
  }

  // ---------- what every reachable ledger satisfies ----------

  ghost function Sum(m: map<string, int>): int {
    if m == map[] then 0
    else
      var k :| k in m;
      m[k] + Sum(m - {k})
  }

  lemma {:induction false} SumRemove(m: map<string, int>, k: string)
    requires k in m
    ensures Sum(m) == m[k] + Sum(m - {k})
    decreases |m|
  {
    var j :| j in m && Sum(m) == m[j] + Sum(m - {j});
    if j != k {
      SumRemove(m - {j}, k);
      SumRemove(m - {k}, j);
      assert m - {j} - {k} == m - {k} - {j};
    }
  }

  lemma SumUpdate(m: map<string, int>, k: string, v: int)
    ensures Sum(m[k := v]) == Sum(m) + v - (if k in m then m[k] else 0)
  {
    SumRemove(m[k := v], k);
    if k in m {
      SumRemove(m, k);
      assert m[k := v] - {k} == m - {k};
    } else {
      assert m[k := v] - {k} == m;
    }
  }

  /** The stored nonces of an org are exactly 1 up to its latest nonce. */
  ghost predicate Contiguous(s: Ledger, org: string) {
    && LatestNonce(s, org) >= 0
    && forall n :: n in Stored(s, org) <==> 1 <= n <= LatestNonce(s, org)
  }

  /** An org's records in nonce order. */
  ghost function Chain(s: Ledger, org: string): (c: seq<Record>)
    requires Contiguous(s, org)
    ensures |c| == LatestNonce(s, org)
  {
    seq(LatestNonce(s, org), i requires 0 <= i < LatestNonce(s, org) => Stored(s, org)[i + 1])
  }

  /** Whether `r` may follow the chain `c`. */
  predicate Extends(link: LinkFn, c: seq<Record>, r: Record) {
    && r.nonce == |c| + 1
    && if c == [] then IsFirstLink(r.prevHash)
       else link(c[|c| - 1]) == Some(r.prevHash)
  }

  /** Place `i` of a chain carries its own nonce and the hash of the place before. */
  predicate LinkedAt(link: LinkFn, c: seq<Record>, i: nat)
    requires i < |c|
  {
    && c[i].nonce == i + 1
    && if i == 0 then IsFirstLink(c[i].prevHash)
       else link(c[i - 1]) == Some(c[i].prevHash)
  }

  predicate ValidChain(link: LinkFn, org: string, c: seq<Record>) {
    forall i {:trigger LinkedAt(link, c, i)} :: 0 <= i < |c| ==> c[i].orgIdHash == org && LinkedAt(link, c, i)
  }

  ghost predicate AllContiguous(s: Ledger) {
    forall org :: Contiguous(s, org)
  }

  ghost predicate Valid(link: LinkFn, s: Ledger) {
    && AllContiguous(s)
    && (forall org :: ValidChain(link, org, Chain(s, org)))
    && s.store.Keys <= s.latest.Keys
    && "" !in s.latest
    && s.txCount == Sum(s.latest)
  }

  lemma EmptyIsValid(link: LinkFn)
    ensures Valid(link, EMPTY)
  {
  }

  /** What one submission does to the chain of one org. */
  ghost predicate AppendsTo(s: Ledger, s': Ledger, org: string, rs: seq<Record>) {
    Contiguous(s, org) && Contiguous(s', org) && Chain(s', org) == Chain(s, org) + rs
  }

  function AddedBy(receipt: Receipt, r: Record, org: string): seq<Record> {
    if receipt.Ok? && org == r.orgIdHash then [r] else []
  }

  lemma UntouchedChain(s: Ledger, s': Ledger, org: string)
    requires Contiguous(s, org)
    requires Stored(s', org) == Stored(s, org) && LatestNonce(s', org) == LatestNonce(s, org)
    ensures AppendsTo(s, s', org, [])
  {
  }

  lemma ExtendedChain(s: Ledger, s': Ledger, r: Record)
    requires Contiguous(s, r.orgIdHash) && r.nonce == LatestNonce(s, r.orgIdHash) + 1
    requires Stored(s', r.orgIdHash) == Stored(s, r.orgIdHash)[r.nonce := r] && LatestNonce(s', r.orgIdHash) == r.nonce
    ensures AppendsTo(s, s', r.orgIdHash, [r])
  {
  }

  /** The code's checks on a record amount to `Extends`. */
  lemma AcceptedWhenExtending(link: LinkFn, s: Ledger, r: Record)
    requires Contiguous(s, r.orgIdHash)
    ensures Submit(link, s, r).1.Ok? <==> r.orgIdHash != "" && Extends(link, Chain(s, r.orgIdHash), r)
  {
  }

  /** On a valid ledger: exactly the records that extend their org's chain are accepted, an accepted record
      is appended to that chain, a refused one leaves every chain as it was, and no other chain ever moves. */
  lemma SubmitExtendsOneChain(link: LinkFn, s: Ledger, r: Record)
    requires Valid(link, s)
    ensures var (s', receipt) := Submit(link, s, r);
            && Valid(link, s')
            && (receipt.Ok? <==> r.orgIdHash != "" && Extends(link, Chain(s, r.orgIdHash), r))
            && (receipt.Ok? ==> receipt.value == s'.txCount == s.txCount + 1)
            && (receipt.Err? ==> s'.txCount == s.txCount)
            && (forall org :: AppendsTo(s, s', org, AddedBy(receipt, r, org)))
  {
    var org := r.orgIdHash;
    var (s', receipt) := Submit(link, s, r);
    assert Contiguous(s, org) && Contiguous(s, "");
    AcceptedWhenExtending(link, s, r);
    forall o ensures AppendsTo(s, s', o, AddedBy(receipt, r, o)) {
      SubmitOnOneOrg(link, s, r, o);
    }
    SubmitCounts(link, s, r);
    assert AllContiguous(s') by {
      forall o ensures Contiguous(s', o) {
        assert AppendsTo(s, s', o, AddedBy(receipt, r, o));
      }
    }
    forall o ensures ValidChain(link, o, Chain(s', o)) {
      assert AppendsTo(s, s', o, AddedBy(receipt, r, o));
      assert ValidChain(link, o, Chain(s, o));
      if receipt.Ok? && o == org {
        ValidChainAppend(link, org, Chain(s, o), r);
      } else {
        assert Chain(s', o) == Chain(s, o);
      }
    }
  }

  /** Why a submission to a valid ledger is refused: no organisation, a nonce that is not the next one, a first record
      with a link that is neither empty nor 64 zeros, a tip that cannot be packed, or a link that is not the tip's hash.
      The two errors about stored nonces never occur. */
  lemma SubmitRefusals(link: LinkFn, s: Ledger, r: Record)
    requires Valid(link, s)
    ensures Contiguous(s, r.orgIdHash)
    ensures var c, receipt := Chain(s, r.orgIdHash), Submit(link, s, r).1;
            var isNext := r.orgIdHash != "" && r.nonce == |c| + 1;
            && (receipt == Err(EmptyOrg) <==> r.orgIdHash == "")
            && (receipt == Err(NonceMismatch) <==> r.orgIdHash != "" && r.nonce != |c| + 1)
            && (receipt == Err(NonZeroFirstLink) <==>
                  && isNext && c == [] && r.prevHash != ""
                  && !(|r.prevHash| == 64 && forall i :: 0 <= i < 64 ==> r.prevHash[i] == '0'))
            && (receipt == Err(PackingFailed) <==> isNext && c != [] && link(c[|c| - 1]).None?)
            && (receipt == Err(BrokenLink) <==>
                  isNext && c != [] && link(c[|c| - 1]).Some? && link(c[|c| - 1]) != Some(r.prevHash))
            && receipt != Err(DuplicateNonce) && receipt != Err(PreviousMissing)
  {
    assert Contiguous(s, r.orgIdHash);
    var c, stored := Chain(s, r.orgIdHash), Stored(s, r.orgIdHash);
    assert r.nonce !in stored || r.nonce <= |c|;
    if c != [] {
      assert |c| in stored && c[|c| - 1] == stored[|c|];
    }
  }

  lemma SubmitOnOneOrg(link: LinkFn, s: Ledger, r: Record, o: string)
    requires Contiguous(s, o) && Contiguous(s, r.orgIdHash)
    ensures var (s', receipt) := Submit(link, s, r);
            AppendsTo(s, s', o, AddedBy(receipt, r, o))
  {
    var (s', receipt) := Submit(link, s, r);
    if receipt.Ok? && o == r.orgIdHash {
      ExtendedChain(s, s', r);
    } else {
      UntouchedChain(s, s', o);
    }
  }

  lemma SubmitCounts(link: LinkFn, s: Ledger, r: Record)
    requires s.store.Keys <= s.latest.Keys && "" !in s.latest && s.txCount == Sum(s.latest)
    ensures var (s', receipt) := Submit(link, s, r);
            && s'.store.Keys <= s'.latest.Keys && "" !in s'.latest && s'.txCount == Sum(s'.latest)
            && (receipt.Ok? ==> receipt.value == s'.txCount == s.txCount + 1)
            && (receipt.Err? ==> s'.txCount == s.txCount)
  {
    SumUpdate(s.latest, r.orgIdHash, LatestNonce(s, r.orgIdHash));
    SumUpdate(s.latest, r.orgIdHash, r.nonce);
  }

  lemma ValidChainAppend(link: LinkFn, org: string, c: seq<Record>, r: Record)
    requires ValidChain(link, org, c) && r.orgIdHash == org && Extends(link, c, r)
    ensures ValidChain(link, org, c + [r])
  {
    forall i | 0 <= i < |c| + 1 ensures (c + [r])[i].orgIdHash == org && LinkedAt(link, c + [r], i) {
      assert i < |c| ==> LinkedAt(link, c, i);
    }
  }

  /** The records of one org, in order. */
  function Of(org: string, rs: seq<Record>): seq<Record> {
    if rs == [] then [] else (if rs[0].orgIdHash == org then [rs[0]] else []) + Of(org, rs[1..])
  }

  lemma AppendsTrans(s: Ledger, s1: Ledger, s2: Ledger, org: string, a: seq<Record>, b: seq<Record>)
    requires AppendsTo(s, s1, org, a) && AppendsTo(s1, s2, org, b)
    ensures AppendsTo(s, s2, org, a + b)
  {
  }

  /** Accepted one after the other, the records of each org are appended, in order, to its chain. */
  lemma {:induction false} SubmitAllExtendsChains(link: LinkFn, s: Ledger, rs: seq<Record>)
    requires Valid(link, s)
    ensures var (s', r) := SubmitAll(link, s, rs);
            && Valid(link, s')
            && s.txCount <= s'.txCount
            && (r.Ok? ==> |r.value| == |rs| && s'.txCount == s.txCount + |rs|)
            && (r.Ok? ==> forall i :: 0 <= i < |rs| ==> r.value[i] == s.txCount + 1 + i)
            && (r.Ok? ==> forall org :: AppendsTo(s, s', org, Of(org, rs)))
    decreases |rs|
  {
    if rs == [] {
      forall org ensures AppendsTo(s, s, org, Of(org, rs)) {
        UntouchedChain(s, s, org);
      }
    } else {
      SubmitExtendsOneChain(link, s, rs[0]);
      var (s1, r1) := Submit(link, s, rs[0]);
      if r1.Ok? {
        SubmitAllExtendsChains(link, s1, rs[1..]);
        var (s', r) := SubmitAll(link, s, rs);
        if r.Ok? {
          forall org ensures AppendsTo(s, s', org, Of(org, rs)) {
            assert AppendsTo(s, s1, org, AddedBy(r1, rs[0], org));
            assert AppendsTo(s1, s', org, Of(org, rs[1..]));
            AppendsTrans(s, s1, s', org, AddedBy(r1, rs[0], org), Of(org, rs[1..]));
          }
        }
      }
    }
  }

  ghost predicate Grows(s: Ledger, s': Ledger, org: string) {
    Contiguous(s, org) && Contiguous(s', org) && Chain(s, org) <= Chain(s', org)
  }

  /** Also a run that is cut short by a refusal only appends. */
  lemma {:induction false} SubmitAllOnlyAppends(link: LinkFn, s: Ledger, rs: seq<Record>)
    requires Valid(link, s)
    ensures forall org :: Grows(s, SubmitAll(link, s, rs).0, org)
    decreases |rs|
  {
    if rs == [] {
      assert AllContiguous(s);
    } else {
      SubmitExtendsOneChain(link, s, rs[0]);
      var (s1, r1) := Submit(link, s, rs[0]);
      if r1.Ok? {
        SubmitAllOnlyAppends(link, s1, rs[1..]);
      }
      var s' := SubmitAll(link, s, rs).0;
      assert r1.Ok? ==> s' == SubmitAll(link, s1, rs[1..]).0;
      forall org ensures Grows(s, s', org) {
        assert AppendsTo(s, s1, org, AddedBy(r1, rs[0], org));
        if r1.Ok? {
          assert Grows(s1, s', org);
        }
      }
    }
  }

  // ---------- all-or-nothing batches ----------

  /** The chain that record `i` of a batch finds when all before it were stored. */
  ghost function ChainBefore(s: Ledger, rs: seq<Record>, i: nat): seq<Record>
    requires AllContiguous(s) && i < |rs|
  {
    Chain(s, rs[i].orgIdHash) + Of(rs[i].orgIdHash, rs[..i])
  }

  ghost predicate ExtendsInTurn(link: LinkFn, s: Ledger, rs: seq<Record>, i: nat)
    requires AllContiguous(s) && i < |rs|
  {
    rs[i].orgIdHash != "" && Extends(link, ChainBefore(s, rs, i), rs[i])
  }

  /** Record `i` continues, by nonce, a chain whose last record cannot be packed, and the records before it, of
      which there are some, each extend the chain they find. */
  ghost predicate MeetsUnpackableTip(link: LinkFn, s: Ledger, rs: seq<Record>, i: nat)
    requires AllContiguous(s)
  {
    && 0 < i < |rs|
    && (forall j {:trigger ExtendsInTurn(link, s, rs, j)} :: 0 <= j < i ==> ExtendsInTurn(link, s, rs, j))
    && rs[i].orgIdHash != ""
    && var c := ChainBefore(s, rs, i);
       c != [] && rs[i].nonce == |c| + 1 && link(c[|c| - 1]).None?
  }

  /** The first `n` records are stored exactly when each extends the chain it finds. */
  lemma {:induction false} StoredWhenExtending(link: LinkFn, s: Ledger, rs: seq<Record>, n: nat)
    requires Valid(link, s) && n <= |rs|
    ensures SubmitAll(link, s, rs[..n]).1.Ok? <==>
            forall j {:trigger ExtendsInTurn(link, s, rs, j)} :: 0 <= j < n ==> ExtendsInTurn(link, s, rs, j)
    decreases n
  {
    if n > 0 {
      StoredWhenExtending(link, s, rs, n - 1);
      StoredOneMore(link, s, rs, n - 1);
    }
  }

  lemma StoredOneMore(link: LinkFn, s: Ledger, rs: seq<Record>, n: nat)
    requires Valid(link, s) && n < |rs|
    ensures SubmitAll(link, s, rs[..n + 1]).1.Ok? <==>
            SubmitAll(link, s, rs[..n]).1.Ok? && ExtendsInTurn(link, s, rs, n)
  {
    assert rs[..n + 1] == rs[..n] + [rs[n]];
    if SubmitAll(link, s, rs[..n]).1.Ok? {
      var s1 := SubmitAll(link, s, rs[..n]).0;
      SubmitAllExtendsChains(link, s, rs[..n]);
      assert AppendsTo(s, s1, rs[n].orgIdHash, Of(rs[n].orgIdHash, rs[..n]));
      SubmitAllSnoc(link, s, rs[..n], rs[n]);
      AcceptedWhenExtending(link, s1, rs[n]);
    } else {
      SubmitAllStops(link, s, rs[..n], [rs[n]]);
    }
  }

  /** A failed batch leaves the ledger exactly as it was, the list of orgs included, unless one of its records,
      not the first, meets an unpackable tip; then what was stored before it stays. */
  lemma BatchAtomicUnlessUnpackable(link: LinkFn, s: Ledger, rs: seq<Record>)
    requires Valid(link, s)
    ensures var (s', r) := BatchSubmit(link, s, rs);
            r.Err? && s' != s <==> exists i :: MeetsUnpackableTip(link, s, rs, i)
  {
    SubmitAllExtendsChains(link, s, rs);
    if i: nat :| MeetsUnpackableTip(link, s, rs, i) {
      UnpackableTipFails(link, s, rs, i);
    }
    var (s', r) := BatchSubmit(link, s, rs);
    if r.Err? && s' != s {
      var i := PackingFailureIsUnpackableTip(link, s, rs);
      assert MeetsUnpackableTip(link, s, rs, i);
    }
  }

  /** A submission that dies in packing happens on a stored chain, and changes nothing. */
  lemma RefusedByPacking(link: LinkFn, s: Ledger, r: Record)
    requires Valid(link, s)
    ensures Submit(link, s, r).1 == Err(PackingFailed) <==>
            && r.orgIdHash != ""
            && var c := Chain(s, r.orgIdHash);
               c != [] && r.nonce == |c| + 1 && link(c[|c| - 1]).None?
    ensures Submit(link, s, r).1 == Err(PackingFailed) ==> Submit(link, s, r).0 == s
  {
    var org := r.orgIdHash;
    assert Contiguous(s, org);
    var c := Chain(s, org);
    if c != [] {
      assert c[|c| - 1] == Stored(s, org)[|c|];
      assert |c| in Stored(s, org);
      assert s.latest[org := LatestNonce(s, org)] == s.latest;
      assert s.store[org := Stored(s, org)] == s.store;
    }
  }

  /** Submitting one record more. */
  lemma {:induction false} SubmitAllSnoc(link: LinkFn, s: Ledger, rs: seq<Record>, r: Record)
    requires SubmitAll(link, s, rs).1.Ok?
    ensures var (s1, r1) := SubmitAll(link, s, rs);
            var (s2, r2) := Submit(link, s1, r);
            && SubmitAll(link, s, rs + [r]).0 == s2
            && SubmitAll(link, s, rs + [r]).1 == match r2 case Ok(id) => Ok(r1.value + [id]) case Err(e) => Err(e)
    decreases |rs|
  {
    if rs == [] {
      assert (rs + [r])[1..] == [];
      var last := Submit(link, s, r).1;
      assert last.Ok? ==> [last.value] + [] == [] + [last.value];
    } else {
      assert (rs + [r])[1..] == rs[1..] + [r];
      var (s1, r1) := Submit(link, s, rs[0]);
      SubmitAllSnoc(link, s1, rs[1..], r);
      var (s2, r2) := SubmitAll(link, s1, rs[1..]);
      var last := Submit(link, s2, r).1;
      if last.Ok? {
        assert [r1.value] + (r2.value + [last.value]) == [r1.value] + r2.value + [last.value];
      }
    }
  }

  /** Nothing after the first refusal is looked at. */
  lemma {:induction false} SubmitAllStops(link: LinkFn, s: Ledger, rs: seq<Record>, more: seq<Record>)
    requires SubmitAll(link, s, rs).1.Err?
    ensures SubmitAll(link, s, rs + more) == SubmitAll(link, s, rs)
    decreases |rs|
  {
    assert (rs + more)[1..] == rs[1..] + more;
    var (s1, r1) := Submit(link, s, rs[0]);
    if r1.Ok? {
      SubmitAllStops(link, s1, rs[1..], more);
    }
  }

  lemma UnpackableTipFails(link: LinkFn, s: Ledger, rs: seq<Record>, i: nat)
    requires Valid(link, s) && MeetsUnpackableTip(link, s, rs, i)
    ensures SubmitAll(link, s, rs).1 == Err(PackingFailed)
    ensures SubmitAll(link, s, rs).0.txCount == s.txCount + i
  {
    var org := rs[i].orgIdHash;
    var s1 := SubmitAll(link, s, rs[..i]).0;
    StoredWhenExtending(link, s, rs, i);
    SubmitAllExtendsChains(link, s, rs[..i]);
    assert AppendsTo(s, s1, org, Of(org, rs[..i]));
    assert Submit(link, s1, rs[i]) == (s1, Err(PackingFailed)) by {
      RefusedByPacking(link, s1, rs[i]);
    }
    UnpackableTipStops(link, s, rs, i);
  }

  lemma UnpackableTipStops(link: LinkFn, s: Ledger, rs: seq<Record>, i: nat)
    requires i < |rs| && SubmitAll(link, s, rs[..i]).1.Ok?
    requires Submit(link, SubmitAll(link, s, rs[..i]).0, rs[i]).1 == Err(PackingFailed)
    ensures SubmitAll(link, s, rs).1 == Err(PackingFailed)
    ensures SubmitAll(link, s, rs).0 == Submit(link, SubmitAll(link, s, rs[..i]).0, rs[i]).0
  {
    SubmitAllSnoc(link, s, rs[..i], rs[i]);
    SubmitAllStops(link, s, rs[..i] + [rs[i]], rs[i + 1..]);
    assert rs == rs[..i] + [rs[i]] + rs[i + 1..];
  }

  lemma {:induction false} PackingFailureIsUnpackableTip(link: LinkFn, s: Ledger, rs: seq<Record>) returns (i: nat)
    requires Valid(link, s) && SubmitAll(link, s, rs).1 == Err(PackingFailed)
    ensures i < |rs| && SubmitAll(link, s, rs[..i]).1.Ok?
    ensures i == 0 ==> SubmitAll(link, s, rs).0 == s
    ensures i > 0 ==> MeetsUnpackableTip(link, s, rs, i)
  {
    i := FirstRefusal(link, s, rs);
    StoredWhenExtending(link, s, rs, i);
    SubmitAllExtendsChains(link, s, rs[..i]);
    RefusedByPacking(link, SubmitAll(link, s, rs[..i]).0, rs[i]);
    if i == 0 {
      assert rs[..0] == [];
    }
  }

  lemma {:induction false} FirstRefusal(link: LinkFn, s: Ledger, rs: seq<Record>) returns (i: nat)
    requires SubmitAll(link, s, rs).1.Err?
    ensures i < |rs| && SubmitAll(link, s, rs[..i]).1.Ok?
    ensures var last := Submit(link, SubmitAll(link, s, rs[..i]).0, rs[i]);
            last.1 == Err(SubmitAll(link, s, rs).1.error) && last.0 == SubmitAll(link, s, rs).0
    decreases |rs|
  {
    var (s1, r1) := Submit(link, s, rs[0]);
    if r1.Err? {
      i := 0;
      assert rs[..0] == [];
    } else {
      var j := FirstRefusal(link, s1, rs[1..]);
      i := j + 1;
      assert rs[..i][1..] == rs[1..][..j];
    }
  }

  /** In particular, when every stored and every submitted record packs, a batch is all or nothing. */
  lemma BatchAllOrNothing(link: LinkFn, s: Ledger, rs: seq<Record>)
    requires Valid(link, s)
    requires forall org, r :: r in Chain(s, org) ==> link(r).Some?
    requires forall r :: r in rs ==> link(r).Some?
    ensures var (s', r) := BatchSubmit(link, s, rs);
            if r.Ok? then forall org :: AppendsTo(s, s', org, Of(org, rs)) else s' == s
  {
    SubmitAllExtendsChains(link, s, rs);
    BatchAtomicUnlessUnpackable(link, s, rs);
    if i: nat :| MeetsUnpackableTip(link, s, rs, i) {
      TipsPack(link, s, rs, i);
    }
  }

  lemma TipsPack(link: LinkFn, s: Ledger, rs: seq<Record>, i: nat)
    requires Valid(link, s) && i < |rs|
    requires forall org, r :: r in Chain(s, org) ==> link(r).Some?
    requires forall r :: r in rs ==> link(r).Some?
    ensures !MeetsUnpackableTip(link, s, rs, i)
  {
    var org := rs[i].orgIdHash;
    var mine := Of(org, rs[..i]);
    var c := Chain(s, org) + mine;
    OfMembers(org, rs[..i]);
    if mine != [] {
      assert c[|c| - 1] == mine[|mine| - 1];
      assert c[|c| - 1] in mine && c[|c| - 1] in rs;
    } else if c != [] {
      assert c[|c| - 1] in Chain(s, org);
    }
  }

  lemma {:induction false} OfMembers(org: string, rs: seq<Record>)
    ensures forall r :: r in Of(org, rs) ==> r in rs
  {
    if rs != [] {
      OfMembers(org, rs[1..]);
    }
  }

  /** A record whose metrics hash is not hexadecimal text. */
  const UNPACKABLE: Record := Record("ab", 0, 0, "zz", "", "", "", 1, 0)

  /** The condition is needed: two records of one new org, the first of which cannot be packed. */
  lemma UnpackableBatchIsNotRolledBack(keccak: HashFn)
    ensures var (s', r) := BatchSubmit(LinkOf(keccak), EMPTY, [UNPACKABLE, UNPACKABLE.(nonce := 2)]);
            r == Err(PackingFailed) && s'.store == map["ab" := map[1 := UNPACKABLE]] && s' != EMPTY
  {
    assert FromHex("zz").None?;
    StoredBeforePackingFails(LinkOf(keccak), UNPACKABLE);
  }

  lemma StoredBeforePackingFails(link: LinkFn, a: Record)
    requires a.orgIdHash != "" && a.nonce == 1 && a.prevHash == "" && link(a).None?
    ensures var (s', r) := BatchSubmit(link, EMPTY, [a, a.(nonce := 2)]);
            r == Err(PackingFailed) && s'.store == map[a.orgIdHash := map[1 := a]] && s' != EMPTY
  {
    var rs := [a, a.(nonce := 2)];
    var (s1, r1) := Submit(link, EMPTY, rs[0]);
    assert r1.Ok? && s1.store == map[a.orgIdHash := map[1 := a]];
    var (s2, r2) := Submit(link, s1, rs[1]);
    assert r2 == Err(PackingFailed);
    assert s2.store == s1.store;
    assert rs[1..] == [rs[1]];
    assert SubmitAll(link, s1, rs[1..]).0 == s2;
  }

  // ---------- which orgs are listed ----------

  /** `get_org_hashes` promises the orgs that have at least one attestation. */
  ghost predicate ListsExactlyAttested(s: Ledger) {
    forall org :: org in s.store <==> LatestNonce(s, org) > 0
  }

  /** It stops being true exactly when the first record of a new org is refused for its link. */
  lemma ListingStaysExact(link: LinkFn, s: Ledger, r: Record)
    requires Valid(link, s) && ListsExactlyAttested(s)
    ensures var s' := Submit(link, s, r).0;
            ListsExactlyAttested(s') <==>
            !(&& r.orgIdHash != "" && LatestNonce(s, r.orgIdHash) == 0 && r.nonce == 1
              && !IsFirstLink(r.prevHash))
  {
    var org := r.orgIdHash;
    var s' := Submit(link, s, r).0;
    assert Contiguous(s, org);
    assert org in s.store <==> LatestNonce(s, org) > 0;
    forall o | o != org ensures o in s'.store <==> LatestNonce(s', o) > 0 {
      assert o in s.store <==> LatestNonce(s, o) > 0;
    }
  }

  // ---------- runs ----------

  datatype Operation = SubmitOne(record: Record) | SubmitBatch(records: seq<Record>)

  function Apply(link: LinkFn, s: Ledger, op: Operation): Ledger {
    match op
    case SubmitOne(r) => Submit(link, s, r).0
    case SubmitBatch(rs) => BatchSubmit(link, s, rs).0
  }

  function Run(link: LinkFn, s: Ledger, ops: seq<Operation>): Ledger
    decreases |ops|
  {
    if ops == [] then s else Run(link, Apply(link, s, ops[0]), ops[1..])
  }

  /** Every run keeps the ledger valid and only ever appends to chains. */
  lemma {:induction false} RunsAppendOnly(link: LinkFn, s: Ledger, ops: seq<Operation>)
    requires Valid(link, s)
    ensures Valid(link, Run(link, s, ops))
    ensures forall org :: Grows(s, Run(link, s, ops), org)
    decreases |ops|
  {
    if ops == [] {
      assert AllContiguous(s);
    } else {
      ApplyAppends(link, s, ops[0]);
      var s1 := Apply(link, s, ops[0]);
      RunsAppendOnly(link, s1, ops[1..]);
      forall org ensures Grows(s, Run(link, s, ops), org) {
        assert Grows(s, s1, org) && Grows(s1, Run(link, s1, ops[1..]), org);
      }
    }
  }

  lemma ApplyAppends(link: LinkFn, s: Ledger, op: Operation)
    requires Valid(link, s)
    ensures Valid(link, Apply(link, s, op))
    ensures forall org :: Grows(s, Apply(link, s, op), org)
  {
    match op {
      case SubmitOne(r) =>
        SubmitAllExtendsChains(link, s, [r]);
        SubmitAllOnlyAppends(link, s, [r]);
      case SubmitBatch(rs) =>
        SubmitAllExtendsChains(link, s, rs);
        SubmitAllOnlyAppends(link, s, rs);
        assert AllContiguous(s);
    }
  }

  // ---------- the tip binds the history ----------

  ghost function Packings(c: seq<Record>): set<seq<byte>> {
    set r | r in c && Pack(r).Some? :: Pack(r).value
  }

  /** Among these records, equal links mean equal commitments. */
  ghost predicate Binding(link: LinkFn, a: seq<Record>, b: seq<Record>) {
    forall x, y {:trigger BindingPair(link, x, y)} :: x in a && y in b ==> BindingPair(link, x, y)
  }

  ghost predicate BindingPair(link: LinkFn, x: Record, y: Record) {
    link(x).Some? && (link(x) == link(y) <==> SameCommitment(x, y))
  }

  lemma CollisionFreePair(keccak: HashFn, x: Record, y: Record, inputs: set<seq<byte>>)
    requires WellFormed(x) && WellFormed(y) && CollisionFree(keccak, inputs)
    requires Pack(x).Some? && Pack(y).Some? && Pack(x).value in inputs && Pack(y).value in inputs
    ensures BindingPair(LinkOf(keccak), x, y)
  {
    PackInjective(x, y);
  }

  lemma CollisionFreeIsBinding(keccak: HashFn, a: seq<Record>, b: seq<Record>)
    requires (forall r :: r in a ==> WellFormed(r)) && (forall r :: r in b ==> WellFormed(r))
    requires CollisionFree(keccak, Packings(a) + Packings(b))
    ensures Binding(LinkOf(keccak), a, b)
  {
    forall x, y | x in a && y in b ensures BindingPair(LinkOf(keccak), x, y) {
      PackWidths(x);
      PackWidths(y);
      assert Pack(x).value in Packings(a) && Pack(y).value in Packings(b);
      CollisionFreePair(keccak, x, y, Packings(a) + Packings(b));
    }
  }

  lemma StepBack(link: LinkFn, orgA: string, a: seq<Record>, i: nat, orgB: string, b: seq<Record>, j: nat)
    requires ValidChain(link, orgA, a) && ValidChain(link, orgB, b)
    requires i < |a| && j < |b| && SameCommitment(a[i], b[j])
    ensures i == j && (i > 0 ==> link(a[i - 1]) == link(b[i - 1]))
  {
    assert LinkedAt(link, a, i) && LinkedAt(link, b, j);
  }

  /** Equal hashes at two places of two chains mean the same place and the same history before it. */
  lemma {:induction false} EqualHashesBindHistory(link: LinkFn, orgA: string, a: seq<Record>, i: nat,
                                                  orgB: string, b: seq<Record>, j: nat)
    requires ValidChain(link, orgA, a) && ValidChain(link, orgB, b) && Binding(link, a, b)
    requires i < |a| && j < |b| && link(a[i]) == link(b[j])
    ensures i == j && forall k :: 0 <= k <= i ==> SameCommitment(a[k], b[k])
    decreases i
  {
    assert BindingPair(link, a[i], b[j]);
    StepBack(link, orgA, a, i, orgB, b, j);
    if i > 0 {
      EqualHashesBindHistory(link, orgA, a, i - 1, orgB, b, i - 1);
      forall k | 0 <= k <= i ensures SameCommitment(a[k], b[k]) {
        assert k == i || k <= i - 1;
      }
    }
  }

  lemma TipBindsHistoryByLink(link: LinkFn, orgA: string, a: seq<Record>, orgB: string, b: seq<Record>)
    requires ValidChain(link, orgA, a) && ValidChain(link, orgB, b) && a != [] && b != [] && Binding(link, a, b)
    ensures link(a[|a| - 1]) == link(b[|b| - 1]) <==>
            |a| == |b| && forall k :: 0 <= k < |a| ==> SameCommitment(a[k], b[k])
  {
    assert BindingPair(link, a[|a| - 1], b[|b| - 1]);
    if link(a[|a| - 1]) == link(b[|b| - 1]) {
      EqualHashesBindHistory(link, orgA, a, |a| - 1, orgB, b, |b| - 1);
    }
  }

  /** Two valid, well-formed chains have tips with equal hashes exactly when they have the same length and
      agree, record by record, on everything the hash covers. */
  lemma TipBindsHistory(keccak: HashFn, orgA: string, a: seq<Record>, orgB: string, b: seq<Record>)
    requires ValidChain(LinkOf(keccak), orgA, a) && ValidChain(LinkOf(keccak), orgB, b) && a != [] && b != []
    requires (forall r :: r in a ==> WellFormed(r)) && (forall r :: r in b ==> WellFormed(r))
    requires CollisionFree(keccak, Packings(a) + Packings(b))
    ensures ChainHash(keccak, a[|a| - 1]) == ChainHash(keccak, b[|b| - 1]) <==>
            |a| == |b| && forall k :: 0 <= k < |a| ==> SameCommitment(a[k], b[k])
  {
    CollisionFreeIsBinding(keccak, a, b);
    TipBindsHistoryByLink(LinkOf(keccak), orgA, a, orgB, b);
  }
}
