/** What participants earned over many settlements, and how rounding errors add up (revenue/settlement.py). */
module Earnings {
  import opened Options
  import opened Sequences
  import opened Signing
  import opened Shares
  import opened Sums
  import opened Settlements

  function AmountFor(participant: string): Share -> real {
    (s: Share) => if s.participant == participant then s.amount else 0.0
  }

  /** What these shares are worth to a participant. */
  function EarnedBy(shares: seq<Share>, participant: string): real { SumOf(AmountFor(participant), shares) }

  function SharesIn(s: Settlement): seq<Share> { s.shares }

  function AllShares(settlements: seq<Settlement>): seq<Share> { FlatMap(SharesIn, settlements) }

  lemma SettleOneCredits(mac: Mac, p: Progress, s: Share, participant: string)
    ensures var p' := SettleOne(mac, p, s);
            Earned(p'.earnings, participant) - EarnedBy(p'.done, participant)
            == Earned(p.earnings, participant) - EarnedBy(p.done, participant)
  {
    var paid := TryPayment(mac, p.book, s).1;
    if paid.Some? {
      SumSnoc(AmountFor(participant), p.done, s.(settled := paid.value));
    }
  }

  lemma {:induction false} SettlingCredits(mac: Mac, start: Progress, shares: seq<Share>, participant: string)
    requires start.done == []
    ensures var p := SettleAll(mac, start, shares);
            Earned(p.earnings, participant) == Earned(start.earnings, participant) + EarnedBy(p.done, participant)
  {
    if shares != [] {
      SettlingCredits(mac, start, shares[..|shares| - 1], participant);
      SettleOneCredits(mac, SettleAll(mac, start, shares[..|shares| - 1]), shares[|shares| - 1], participant);
    }
  }

  /** The shares of settlements that an uncaught exception cut short: credited, but in no settlement. */
  function Orphans(mac: Mac, limits: Limits, start: Engine, ops: seq<Operation>): seq<Share> {
    if ops == [] then []
    else
      var before, op := ops[..|ops| - 1], ops[|ops| - 1];
      Orphans(mac, limits, start, before) + OrphansOf(mac, limits, Run(mac, limits, start, before), op)
  }

  function OrphansOf(mac: Mac, limits: Limits, e: Engine, op: Operation): seq<Share> {
    if op.SettleShares? && op.total >= limits.minimumSettlement && SettleAll(mac, Begin(e), op.shares).raised then
      SettleAll(mac, Begin(e), op.shares).done
    else []
  }

  lemma ApplyCredits(mac: Mac, limits: Limits, e: Engine, op: Operation, participant: string)
    ensures var e' := Apply(mac, limits, e, op);
            Earned(e'.earnings, participant) - EarnedBy(AllShares(e'.settlements), participant)
            == Earned(e.earnings, participant) - EarnedBy(AllShares(e.settlements), participant)
               + EarnedBy(OrphansOf(mac, limits, e, op), participant)
  {
    if op.SettleShares? && op.total >= limits.minimumSettlement {
      SettlingCredits(mac, Begin(e), op.shares, participant);
      var p := SettleAll(mac, Begin(e), op.shares);
      if !p.raised {
        FlatMapSnoc(SharesIn, e.settlements, Settlement(op.settlementId, op.execution, p.done, op.fee, op.total));
        SumConcat(AmountFor(participant), AllShares(e.settlements), p.done);
      }
    }
  }

  /** A participant's earnings are exactly what the shares in all settlements, and those of settlements cut short, are
      worth to it. */
  lemma {:induction false} EarningsAreExact(mac: Mac, limits: Limits, start: Engine, ops: seq<Operation>,
                                            participant: string)
    requires start.earnings == map[] && start.settlements == []
    ensures var e := Run(mac, limits, start, ops);
            Earned(e.earnings, participant)
            == EarnedBy(AllShares(e.settlements), participant) + EarnedBy(Orphans(mac, limits, start, ops), participant)
    decreases |ops|
  {
    if ops != [] {
      var before, op := ops[..|ops| - 1], ops[|ops| - 1];
      var e := Run(mac, limits, start, before);
      EarningsAreExact(mac, limits, start, before, participant);
      ApplyCredits(mac, limits, e, op, participant);
      SumConcat(AmountFor(participant), Orphans(mac, limits, start, before), OrphansOf(mac, limits, e, op));
    }
  }

  // ---------- all participants together ----------

  function EarnedIn(shares: seq<Share>): string -> real { (name: string) => EarnedBy(shares, name) }

  lemma OneMoreShare(shares: seq<Share>, last: Share, names: seq<string>, k: nat)
    requires Distinct(names) && k < |names| && names[k] == last.participant
    ensures SumOf(EarnedIn(shares + [last]), names) == SumOf(EarnedIn(shares), names) + last.amount
  {
    forall i | 0 <= i < |names|
      ensures EarnedIn(shares + [last])(names[i])
           == if i == k then EarnedIn(shares)(names[i]) + last.amount else EarnedIn(shares)(names[i])
    {
      SumSnoc(AmountFor(names[i]), shares, last);
      assert i != k ==> names[i] != names[k];
    }
    SumChanges(EarnedIn(shares), EarnedIn(shares + [last]), names, k, last.amount);
  }

  predicate NamesAll(names: seq<string>, shares: seq<Share>) {
    forall i :: 0 <= i < |shares| ==> shares[i].participant in names
  }

  /** Over any list that names every participant once, the earnings add up to the amounts. */
  lemma {:induction false} EarningsAddUp(shares: seq<Share>, names: seq<string>)
    requires Distinct(names) && NamesAll(names, shares)
    ensures SumOf(EarnedIn(shares), names) == SumAmounts(shares)
  {
    if shares == [] {
      SumZero(EarnedIn(shares), names);
    } else {
      var before, last := shares[..|shares| - 1], shares[|shares| - 1];
      EarningsAddUp(before, names);
      var k :| 0 <= k < |names| && names[k] == last.participant;
      OneMoreShare(before, last, names, k);
      assert shares == before + [last];
    }
  }

  // ---------- rounding errors over many settlements ----------

  function FeeAmount(s: Settlement): real { s.fee.amount }

  function BurnAmount(s: Settlement): real { s.fee.burn }

  function Volume(s: Settlement): real { s.total }

  /** One settlement more adds its fee, its burn and its total to what the statistics sum up. */
  lemma StatsOfOneMore(settlements: seq<Settlement>, s: Settlement)
    ensures SumOf(FeeAmount, settlements + [s]) - SumOf(FeeAmount, settlements) == s.fee.amount
    ensures SumOf(BurnAmount, settlements + [s]) - SumOf(BurnAmount, settlements) == s.fee.burn
    ensures SumOf(Volume, settlements + [s]) - SumOf(Volume, settlements) == s.total
  {
    SumSnoc(FeeAmount, settlements, s);
    SumSnoc(BurnAmount, settlements, s);
    SumSnoc(Volume, settlements, s);
  }

  lemma {:induction false} MarkedSharesAddUp(shares: seq<Share>, done: seq<Share>, fee: real, cost: real)
    requires Marked(shares, done) && |done| == |shares| && AddsUp(shares, fee, cost)
    ensures AddsUp(done, fee, cost)
  {
    SumAgrees(AmountOf, done, AmountOf, shares);
    SumAgrees(PctOf, done, PctOf, shares);
  }

  /** A settlement of calculated shares adds up as they did: marking shares as settled changes no amount. */
  lemma {:induction false} CalculatedSharesAddUp(mac: Mac, e: Engine, minimum: real, id: string, execution: string,
                                                 cost: real, rules: seq<SplitRule>, feePct: real, burnPct: real,
                                                 shares: seq<Share>, fee: Fee)
    requires SharesOf(cost, rules, feePct, burnPct) == Ok((shares, fee))
    requires Settle(mac, e, minimum, id, execution, shares, fee, cost).1.Ok?
    ensures var s := Settle(mac, e, minimum, id, execution, shares, fee, cost).1.value;
            |s.shares| == |rules| && AddsUp(s.shares, s.fee.amount, s.total)
  {
    RoundingIsBounded(cost, rules, feePct, burnPct, shares, fee);
    SettlingMarks(mac, Begin(e), shares);
    MarkedSharesAddUp(shares, SettleAll(mac, Begin(e), shares).done, fee.amount, cost);
  }

  predicate AllAddUp(settlements: seq<Settlement>) {
    forall i :: 0 <= i < |settlements| ==>
      AddsUp(settlements[i].shares, settlements[i].fee.amount, settlements[i].total)
  }

  /** Amounts and fees stay within `n` half units of the volume. */
  predicate IsClose(amounts: real, fees: real, volume: real, n: nat) { Within(amounts + fees, volume, Slack(n)) }

  lemma CloseAdds(a: real, f: real, v: real, n: nat, s: Settlement)
    requires IsClose(a, f, v, n) && AddsUp(s.shares, s.fee.amount, s.total)
    ensures IsClose(a + SumAmounts(s.shares), f + s.fee.amount, v + s.total, n + |s.shares|)
  {
  }

  /** Rounding errors accumulate additively, one half unit per share, through any number of settlements. */
  lemma {:induction false} ErrorsAccumulate(settlements: seq<Settlement>)
    requires AllAddUp(settlements)
    ensures IsClose(SumAmounts(AllShares(settlements)), SumOf(FeeAmount, settlements), SumOf(Volume, settlements),
                    |AllShares(settlements)|)
  {
    if settlements != [] {
      var before, last := settlements[..|settlements| - 1], settlements[|settlements| - 1];
      ErrorsAccumulate(before);
      assert settlements == before + [last];
      FlatMapSnoc(SharesIn, before, last);
      SumConcat(AmountOf, AllShares(before), last.shares);
      CloseAdds(SumAmounts(AllShares(before)), SumOf(FeeAmount, before), SumOf(Volume, before), |AllShares(before)|,
                last);
    }
  }

  function EarningsOf(e: Engine): string -> real { (name: string) => Earned(e.earnings, name) }

  /** The shares and the fee of a settlement are what the calculator returned for its total. */
  ghost predicate IsCalculated(op: Operation) {
    op.SettleShares? ==>
      exists rules, feePct, burnPct :: SharesOf(op.total, rules, feePct, burnPct) == Ok((op.shares, op.fee))
  }

  lemma {:induction false} SettlementsAddUp(mac: Mac, limits: Limits, start: Engine, ops: seq<Operation>)
    requires start.settlements == [] && forall i :: 0 <= i < |ops| ==> IsCalculated(ops[i])
    ensures AllAddUp(Run(mac, limits, start, ops).settlements)
    decreases |ops|
  {
    if ops != [] {
      var op := ops[|ops| - 1];
      SettlementsAddUp(mac, limits, start, ops[..|ops| - 1]);
      var e := Run(mac, limits, start, ops[..|ops| - 1]);
      if op.SettleShares? {
        var rules, feePct, burnPct :| SharesOf(op.total, rules, feePct, burnPct) == Ok((op.shares, op.fee));
        var settled := Settle(mac, e, limits.minimumSettlement, op.settlementId, op.execution, op.shares, op.fee,
                              op.total);
        if settled.1.Ok? {
          CalculatedSharesAddUp(mac, e, limits.minimumSettlement, op.settlementId, op.execution, op.total, rules,
                                feePct, burnPct, op.shares, op.fee);
          OneMoreAddsUp(e.settlements, settled.1.value);
        }
      }
    }
  }

  lemma OneMoreAddsUp(settlements: seq<Settlement>, s: Settlement)
    requires AllAddUp(settlements) && AddsUp(s.shares, s.fee.amount, s.total)
    ensures AllAddUp(settlements + [s])
  {
  }

  /** Whatever else happens to the channels, if every settlement is of calculated shares, then all earnings, less those
      of settlements cut short, and all fees together are the whole volume, within half a unit per share. */
  lemma {:induction false} EarningsMatchVolume(mac: Mac, limits: Limits, start: Engine, ops: seq<Operation>, e: Engine,
                                               names: seq<string>)
    requires start.earnings == map[] && start.settlements == [] && e == Run(mac, limits, start, ops)
    requires forall i :: 0 <= i < |ops| ==> IsCalculated(ops[i])
    requires Distinct(names) && NamesAll(names, AllShares(e.settlements) + Orphans(mac, limits, start, ops))
    ensures IsClose(SumOf(EarningsOf(e), names) - SumAmounts(Orphans(mac, limits, start, ops)),
                    SumOf(FeeAmount, e.settlements), SumOf(Volume, e.settlements), |AllShares(e.settlements)|)
  {
    var shares, orphans := AllShares(e.settlements), Orphans(mac, limits, start, ops);
    forall i | 0 <= i < |names| ensures EarningsOf(e)(names[i]) == EarnedIn(shares + orphans)(names[i]) {
      EarningsAreExact(mac, limits, start, ops, names[i]);
      SumConcat(AmountFor(names[i]), shares, orphans);
    }
    SumAgrees(EarningsOf(e), names, EarnedIn(shares + orphans), names);
    EarningsAddUp(shares + orphans, names);
    SumConcat(AmountOf, shares, orphans);
    SettlementsAddUp(mac, limits, start, ops);
    ErrorsAccumulate(e.settlements);
  }
}
