/** Splitting the cost of an execution among its participants (revenue/calculator.py). */
module Shares {
  import opened Options
  import opened Rounding
  import opened Sums

  /** Weights are not negative: the rule's own type demands it. */
  datatype Rule = RawRule(participant: string, weight: real)
  type SplitRule = r: Rule | r.weight >= 0.0 witness RawRule("", 0.0)

  datatype Share = Share(participant: string, pct: real, amount: real, settled: bool)

  datatype Fee = Fee(pct: real, amount: real, burn: real)

  datatype Error = NegativeCost | NoRules | NoWeight | InvalidFee

  function TotalWeight(rules: seq<SplitRule>): (r: real)
    ensures r >= 0.0
  {
    if rules == [] then 0.0 else TotalWeight(rules[..|rules| - 1]) + rules[|rules| - 1].weight
  }

  function PercentOf(x: real, pct: real): real { x * pct / 100.0 }

  function Percentage(w: real, total: real): real
    requires total > 0.0
  {
    w / total * 100.0
  }

  function Portion(d: real, w: real, total: real): real
    requires total > 0.0
  {
    d * w / total
  }

  function FeeOf(cost: real, feePct: real, burnPct: real): Fee {
    var amount := Round8(PercentOf(cost, feePct));
    Fee(feePct, amount, Round8(PercentOf(amount, burnPct)))
  }

  /** What the type of fees accepts. */
  predicate ValidFee(f: Fee) { 0.0 <= f.pct <= 100.0 && 0.0 <= f.amount && 0.0 <= f.burn }

  /** What the type of shares accepts. */
  predicate ValidShare(s: Share) { 0.0 <= s.pct <= 100.0 && 0.0 <= s.amount }

  function ShareOf(rule: SplitRule, total: real, d: real): Share
    requires total > 0.0
  {
    Share(rule.participant, Round8(Percentage(rule.weight, total)), Round8(Portion(d, rule.weight, total)), false)
  }

  function Split(rules: seq<SplitRule>, total: real, d: real): (r: seq<Share>)
    requires total > 0.0
    ensures |r| == |rules| && forall i :: 0 <= i < |r| ==> r[i] == ShareOf(rules[i], total, d)
  {
    seq(|rules|, i requires 0 <= i < |rules| => ShareOf(rules[i], total, d))
  }

  function SharesOf(cost: real, rules: seq<SplitRule>, feePct: real, burnPct: real): Result<(seq<Share>, Fee), Error> {
    if cost < 0.0 then Err(NegativeCost)
    else if rules == [] then Err(NoRules)
    else if TotalWeight(rules) <= 0.0 then Err(NoWeight)
    else
      var fee := FeeOf(cost, feePct, burnPct);
      if !ValidFee(fee) then Err(InvalidFee)
      else Ok((Split(rules, TotalWeight(rules), cost - fee.amount), fee))
  }

  method CalculateShares(cost: real, rules: seq<SplitRule>, feePct: real, burnPct: real)
    returns (result: Result<(seq<Share>, Fee), Error>)
    ensures result == SharesOf(cost, rules, feePct, burnPct)
  {
    if cost < 0.0 {
      return Err(NegativeCost);
    }
    if rules == [] {
      return Err(NoRules);
    }
    var total := SumWeights(rules);
    if total <= 0.0 {
      return Err(NoWeight);
    }
    var fee := FeeOf(cost, feePct, burnPct);
    if !ValidFee(fee) {
      return Err(InvalidFee);
    }
    var shares: seq<Share>;
    if cost == 0.0 {
      NothingToSplit(feePct, burnPct);
      shares := SplitNothing(rules, total);
    } else {
      shares := SplitAmong(rules, total, cost - fee.amount);
    }
    return Ok((shares, fee));
  }

  method SumWeights(rules: seq<SplitRule>) returns (total: real)
    ensures total == TotalWeight(rules)
  {
    total := 0.0;
    for i := 0 to |rules|
      invariant total == TotalWeight(rules[..i])
    {
      assert rules[..i + 1][..i] == rules[..i];
      total := total + rules[i].weight;
    }
    assert rules[..|rules|] == rules;
  }

  /** The shortcut for a cost of zero. */
  method SplitNothing(rules: seq<SplitRule>, total: real) returns (shares: seq<Share>)
    requires total > 0.0
    ensures shares == Split(rules, total, 0.0)
  {
    shares := [];
    for i := 0 to |rules|
      invariant |shares| == i && forall k :: 0 <= k < i ==> shares[k] == ShareOf(rules[k], total, 0.0)
    {
      NothingForOne(rules[i].weight, total);
      shares := shares + [Share(rules[i].participant, Round8(Percentage(rules[i].weight, total)), 0.0, false)];
    }
  }

  method SplitAmong(rules: seq<SplitRule>, total: real, distributable: real) returns (shares: seq<Share>)
    requires total > 0.0
    ensures shares == Split(rules, total, distributable)
  {
    shares := [];
    for i := 0 to |rules|
      invariant |shares| == i && forall k :: 0 <= k < i ==> shares[k] == ShareOf(rules[k], total, distributable)
    {
      var pct := Round8(Percentage(rules[i].weight, total));
      var amount := Round8(Portion(distributable, rules[i].weight, total));
      shares := shares + [Share(rules[i].participant, pct, amount, false)];
    }
  }

  lemma NothingForOne(w: real, total: real)
    requires total > 0.0
    ensures Round8(Portion(0.0, w, total)) == 0.0
  {
  }

  lemma NothingToSplit(feePct: real, burnPct: real)
    ensures FeeOf(0.0, feePct, burnPct).amount == 0.0
  {
  }

  // ---------- rounding bounds ----------

  function AmountOf(s: Share): real { s.amount }

  function PctOf(s: Share): real { s.pct }

  function SumAmounts(shares: seq<Share>): real { SumOf(AmountOf, shares) }

  function SumPct(shares: seq<Share>): real { SumOf(PctOf, shares) }

  /** What rounding `n` numbers may add up to. */
  function Slack(n: nat): real { n as real * HALF }

  /** An additive function of the weights sums to its value at the total weight. */
  lemma {:induction false} AdditiveSum(f: real -> real, rules: seq<SplitRule>)
    requires f(0.0) == 0.0 && forall x, y :: f(x + y) == f(x) + f(y)
    ensures SumOf(WeightThen(f), rules) == f(TotalWeight(rules))
  {
    if rules != [] {
      AdditiveSum(f, rules[..|rules| - 1]);
    }
  }

  function WeightThen(f: real -> real): SplitRule -> real { (r: SplitRule) => f(r.weight) }

  lemma Whole(d: real, total: real)
    requires total > 0.0
    ensures Portion(d, total, total) == d && Percentage(total, total) == 100.0
    ensures Portion(d, 0.0, total) == 0.0 && Percentage(0.0, total) == 0.0
  {
  }

  function PortionBy(d: real, total: real): real -> real
    requires total > 0.0
  {
    (w: real) => Portion(d, w, total)
  }

  function PercentageBy(total: real): real -> real
    requires total > 0.0
  {
    (w: real) => Percentage(w, total)
  }

  lemma PortionIsAdditive(d: real, total: real)
    requires total > 0.0
    ensures PortionBy(d, total)(0.0) == 0.0
    ensures forall x, y :: PortionBy(d, total)(x + y) == PortionBy(d, total)(x) + PortionBy(d, total)(y)
  {
  }

  lemma PercentageIsAdditive(total: real)
    requires total > 0.0
    ensures PercentageBy(total)(0.0) == 0.0
    ensures forall x, y :: PercentageBy(total)(x + y) == PercentageBy(total)(x) + PercentageBy(total)(y)
  {
  }

  /** The exact portions, before rounding, add up exactly. */
  lemma {:induction false} ExactSums(rules: seq<SplitRule>, d: real)
    requires TotalWeight(rules) > 0.0
    ensures SumOf(WeightThen(PortionBy(d, TotalWeight(rules))), rules) == d
    ensures SumOf(WeightThen(PercentageBy(TotalWeight(rules))), rules) == 100.0
  {
    var total := TotalWeight(rules);
    PortionIsAdditive(d, total);
    PercentageIsAdditive(total);
    AdditiveSum(PortionBy(d, total), rules);
    AdditiveSum(PercentageBy(total), rules);
    Whole(d, total);
  }

  /** What is handed out and the fee add up to the cost, and the percentages to one hundred, within half a unit in the
      eighth place for each participant. */
  predicate AddsUp(shares: seq<Share>, fee: real, cost: real) {
    && Within(SumAmounts(shares) + fee, cost, Slack(|shares|))
    && Within(SumPct(shares), 100.0, Slack(|shares|))
  }

  /** The rounded shares are near the exact portions. */
  lemma {:induction false} SplitIsNear(rules: seq<SplitRule>, total: real, d: real, shares: seq<Share>)
    requires total > 0.0 && shares == Split(rules, total, d)
    ensures forall i :: 0 <= i < |rules| ==>
              Within(AmountOf(shares[i]), WeightThen(PortionBy(d, total))(rules[i]), HALF)
    ensures forall i :: 0 <= i < |rules| ==>
              Within(PctOf(shares[i]), WeightThen(PercentageBy(total))(rules[i]), HALF)
  {
  }

  lemma {:induction false} SplitAddsUp(rules: seq<SplitRule>, total: real, d: real, shares: seq<Share>, fee: real,
                                       cost: real)
    requires total == TotalWeight(rules) > 0.0 && shares == Split(rules, total, d) && d == cost - fee
    ensures AddsUp(shares, fee, cost)
  {
    ExactSums(rules, d);
    SplitIsNear(rules, total, d, shares);
    CloseSums(AmountOf, shares, WeightThen(PortionBy(d, total)), rules, HALF);
    CloseSums(PctOf, shares, WeightThen(PercentageBy(total)), rules, HALF);
    SumsAddUp(shares, fee, cost);
  }

  lemma {:induction false} SumsAddUp(shares: seq<Share>, fee: real, cost: real)
    requires Within(SumAmounts(shares), cost - fee, Slack(|shares|)) && Within(SumPct(shares), 100.0, Slack(|shares|))
    ensures AddsUp(shares, fee, cost)
  {
  }

  lemma {:induction false} RoundingIsBounded(cost: real, rules: seq<SplitRule>, feePct: real, burnPct: real,
                                             shares: seq<Share>, fee: Fee)
    requires SharesOf(cost, rules, feePct, burnPct) == Ok((shares, fee))
    ensures |shares| == |rules| && AddsUp(shares, fee.amount, cost)
  {
    SplitAddsUp(rules, TotalWeight(rules), cost - fee.amount, shares, fee.amount, cost);
  }

  lemma {:induction false} WeightWithinTotal(rules: seq<SplitRule>, i: nat)
    requires i < |rules|
    ensures rules[i].weight <= TotalWeight(rules)
  {
    if i < |rules| - 1 {
      WeightWithinTotal(rules[..|rules| - 1], i);
    }
  }

  lemma PortionBounds(d: real, w: real, total: real)
    requires 0.0 <= w <= total && total > 0.0
    ensures 0.0 <= Percentage(w, total) <= 100.0
    ensures d >= 0.0 ==> Portion(d, w, total) >= 0.0
    ensures d < 0.0 ==> d <= Portion(d, w, total) <= 0.0
  {
  }

  lemma PortionMonotone(d: real, w: real, v: real, total: real)
    requires 0.0 <= w <= v && total > 0.0 && d >= 0.0
    ensures Portion(d, w, total) <= Portion(d, v, total)
  {
  }

  lemma PercentOfMonotone(x: real, p: real, q: real)
    requires x >= 0.0 && p <= q
    ensures PercentOf(x, p) <= PercentOf(x, q)
    ensures PercentOf(x, 100.0) == x
  {
  }

  /** The fee exceeds the cost by half a unit at most. */
  lemma FeeWithinCost(cost: real, feePct: real)
    requires cost >= 0.0 && feePct <= 100.0
    ensures Round8(PercentOf(cost, feePct)) <= cost + HALF
  {
    PercentOfMonotone(cost, feePct, 100.0);
    RoundsTo(PercentOf(cost, feePct), cost);
  }

  lemma RoundsTo(x: real, y: real)
    requires x <= y
    ensures Round8(x) <= y + HALF
  {
  }

  /** Every share is acceptable to its type, even when rounding up makes the fee exceed the cost, and a larger weight
      never earns less. */
  lemma {:induction false} SharesAreFair(cost: real, rules: seq<SplitRule>, feePct: real, burnPct: real, i: nat, j: nat)
    requires SharesOf(cost, rules, feePct, burnPct).Ok? && i < |rules| && j < |rules|
    ensures var shares := SharesOf(cost, rules, feePct, burnPct).value.0;
            && ValidShare(shares[i])
            && (rules[i].weight <= rules[j].weight ==> shares[i].amount <= shares[j].amount)
  {
    var total, d := TotalWeight(rules), cost - FeeOf(cost, feePct, burnPct).amount;
    FeeWithinCost(cost, feePct);
    WeightWithinTotal(rules, i);
    WeightWithinTotal(rules, j);
    ShareIsValid(rules[i], total, d);
    if rules[i].weight <= rules[j].weight {
      AmountMonotone(rules[i].weight, rules[j].weight, total, d);
    }
  }

  lemma RoundBetween(x: real)
    ensures -HALF <= x ==> 0.0 <= Round8(x)
    ensures x <= 0.0 ==> Round8(x) <= 0.0
    ensures x <= 100.0 ==> Round8(x) <= 100.0
  {
  }

  lemma ShareIsValid(rule: SplitRule, total: real, d: real)
    requires 0.0 < total && rule.weight <= total && d >= -HALF
    ensures ValidShare(ShareOf(rule, total, d))
  {
    PortionBounds(d, rule.weight, total);
    RoundBetween(Portion(d, rule.weight, total));
    RoundBetween(Percentage(rule.weight, total));
  }

  lemma AmountMonotone(low: real, high: real, total: real, d: real)
    requires 0.0 < total && 0.0 <= low <= high <= total && d >= -HALF
    ensures Round8(Portion(d, low, total)) <= Round8(Portion(d, high, total))
  {
    if d >= 0.0 {
      PortionMonotone(d, low, high, total);
      Round8Monotone(Portion(d, low, total), Portion(d, high, total));
    } else {
      PortionBounds(d, low, total);
      PortionBounds(d, high, total);
      RoundBetween(Portion(d, low, total));
      RoundBetween(Portion(d, high, total));
    }
  }

  lemma {:induction false} NoWeightAtAll(rules: seq<SplitRule>)
    ensures TotalWeight(rules) <= 0.0 <==> forall i :: 0 <= i < |rules| ==> rules[i].weight == 0.0
  {
    if rules != [] {
      NoWeightAtAll(rules[..|rules| - 1]);
    }
  }

  /** The exact parts: percentages are of one hundred, and a portion is to the whole as its weight to all weights. */
  lemma ExactParts(x: real, pct: real, w: real, total: real)
    requires total > 0.0
    ensures PercentOf(x, pct) * 100.0 == x * pct
    ensures Percentage(w, total) * total == 100.0 * w
    ensures Portion(x, w, total) * total == x * w
  {
  }

  /** The fee is its percentage of the cost and the burn a percentage of the fee, each to eight places. */
  ghost predicate IsFeeFor(cost: real, feePct: real, burnPct: real, fee: Fee) {
    && fee.pct == feePct
    && ToEightPlaces(PercentOf(cost, feePct), fee.amount)
    && ToEightPlaces(PercentOf(fee.amount, burnPct), fee.burn)
  }

  /** Each participant gets, to eight places, the part of what the fee leaves that is its part of the whole weight. */
  ghost predicate IsShareFor(rule: SplitRule, total: real, rest: real, s: Share)
    requires total > 0.0
  {
    && s.participant == rule.participant && !s.settled
    && ToEightPlaces(Percentage(rule.weight, total), s.pct)
    && ToEightPlaces(Portion(rest, rule.weight, total), s.amount)
  }

  /** Why the calculator refuses. */
  lemma {:induction false} SharesRefused(cost: real, rules: seq<SplitRule>, feePct: real, burnPct: real)
    ensures var result := SharesOf(cost, rules, feePct, burnPct);
            var weightless := forall i :: 0 <= i < |rules| ==> rules[i].weight == 0.0;
            && (result == Err(NegativeCost) <==> cost < 0.0)
            && (result == Err(NoRules) <==> cost >= 0.0 && rules == [])
            && (result == Err(NoWeight) <==> cost >= 0.0 && rules != [] && weightless)
            && (cost >= 0.0 && !weightless && 0.0 <= feePct <= 100.0 && burnPct >= 0.0 ==> result.Ok?)
            && (result.Ok? ==> 0.0 <= feePct <= 100.0)
  {
    NoWeightAtAll(rules);
    if cost >= 0.0 && 0.0 <= feePct && burnPct >= 0.0 {
      FeeNotNegative(cost, feePct, burnPct);
    }
  }

  /** What the calculator returns: one share for each rule, in order. */
  lemma {:induction false} SharesOutcome(cost: real, rules: seq<SplitRule>, feePct: real, burnPct: real,
                                         shares: seq<Share>, fee: Fee)
    requires SharesOf(cost, rules, feePct, burnPct) == Ok((shares, fee))
    ensures TotalWeight(rules) > 0.0 && IsFeeFor(cost, feePct, burnPct, fee) && |shares| == |rules|
    ensures forall i :: 0 <= i < |rules| ==> IsShareFor(rules[i], TotalWeight(rules), cost - fee.amount, shares[i])
  {
    FeeIsNearest(cost, feePct, burnPct);
    forall i | 0 <= i < |rules| ensures IsShareFor(rules[i], TotalWeight(rules), cost - fee.amount, shares[i]) {
      ShareIsNearest(rules[i], TotalWeight(rules), cost - fee.amount);
    }
  }

  lemma FeeIsNearest(cost: real, feePct: real, burnPct: real)
    ensures IsFeeFor(cost, feePct, burnPct, FeeOf(cost, feePct, burnPct))
  {
    Round8IsNearest(PercentOf(cost, feePct));
    Round8IsNearest(PercentOf(FeeOf(cost, feePct, burnPct).amount, burnPct));
  }

  lemma ShareIsNearest(rule: SplitRule, total: real, rest: real)
    requires total > 0.0
    ensures IsShareFor(rule, total, rest, ShareOf(rule, total, rest))
  {
    Round8IsNearest(Percentage(rule.weight, total));
    Round8IsNearest(Portion(rest, rule.weight, total));
  }

  lemma FeeNotNegative(cost: real, feePct: real, burnPct: real)
    requires cost >= 0.0 && feePct >= 0.0 && burnPct >= 0.0
    ensures FeeOf(cost, feePct, burnPct).amount >= 0.0 && FeeOf(cost, feePct, burnPct).burn >= 0.0
  {
    var amount := Round8(PercentOf(cost, feePct));
    PercentNotNegative(cost, feePct);
    RoundBetween(PercentOf(cost, feePct));
    PercentNotNegative(amount, burnPct);
    RoundBetween(PercentOf(amount, burnPct));
  }

  lemma PercentNotNegative(x: real, pct: real)
    requires x >= 0.0 && pct >= 0.0
    ensures PercentOf(x, pct) >= 0.0
  {
  }

  /** The fee in units of the eighth place. */
  function FeeUnits(cost: real, feePct: real): int { RoundEven(PercentOf(cost, feePct) * UNITS) }

  /** No more is burned than the fee exactly when the burn, before rounding, exceeds the fee by less than half a unit,
      or by half a unit when the fee is an even number of units. The function does not check the burn percentage; up
      to one hundred it is harmless. */
  lemma BurnWithinFee(cost: real, feePct: real, burnPct: real)
    ensures var fee := FeeOf(cost, feePct, burnPct);
            var burn := PercentOf(fee.amount, burnPct);
            fee.burn <= fee.amount <==>
            burn < fee.amount + HALF || (burn == fee.amount + HALF && FeeUnits(cost, feePct) % 2 == 0)
    ensures var fee := FeeOf(cost, feePct, burnPct);
            0.0 <= fee.amount && burnPct <= 100.0 ==> fee.burn <= fee.amount
  {
    var fee := FeeOf(cost, feePct, burnPct);
    RoundsAtMost(PercentOf(fee.amount, burnPct), FeeUnits(cost, feePct));
    if 0.0 <= fee.amount && burnPct <= 100.0 {
      PercentOfMonotone(fee.amount, burnPct, 100.0);
    }
  }

  lemma RoundsAtMost(x: real, units: int)
    ensures var y := units as real / UNITS;
            Round8(x) <= y <==> x < y + HALF || (x == y + HALF && units % 2 == 0)
  {
    RoundEvenAtMost(x * UNITS, units);
    ScaledUnits(RoundEven(x * UNITS), units);
  }

  lemma RoundEvenAtMost(z: real, n: int)
    ensures RoundEven(z) <= n <==> z < n as real + 0.5 || (z == n as real + 0.5 && n % 2 == 0)
  {
  }

  lemma ScaledUnits(m: int, n: int)
    ensures m as real / UNITS <= n as real / UNITS <==> m <= n
  {
  }

  /** Twice the fee is burned when asked for. */
  lemma BurnBeyondFee()
    ensures var fee := FeeOf(100.0, 3.0, 200.0); fee.amount == 3.0 && fee.burn == 6.0 && ValidFee(fee)
  {
    Round8Fixes(300000000);
    Round8Fixes(600000000);
  }
}
