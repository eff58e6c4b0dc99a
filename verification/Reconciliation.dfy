/** Observed usage against provider invoices (billing/reconciler.py). */
module Reconciliation {
  import opened Options
  import opened Sequences
  import opened StableSorts
  import opened Dictionaries
  import opened Rounding
  import opened Sums

  datatype Totals = Totals(prompt: int, completion: int, cost: real)

  const NOTHING: Totals := Totals(0, 0, 0.0)

  function Plus(a: Totals, b: Totals): Totals {
    Totals(a.prompt + b.prompt, a.completion + b.completion, a.cost + b.cost)
  }

  /** Billing periods are a start and an end. */
  datatype Usage = Usage(provider: string, model: string, period: (int, int), amounts: Totals)

  datatype Invoice = Invoice(provider: string, model: Option<string>, period: (int, int), amounts: Totals)

  datatype Line = Line(provider: string, model: Option<string>, period: (int, int), observed: Totals, billed: Totals,
                       discrepancy: Totals, pctTokens: real, pctCost: real, isNotable: bool)

  type Key = (string, string)

  function KeyOf(u: Usage): Key { (u.provider, u.model) }

  // ---------- one line ----------

  function Abs(x: real): real { if x < 0.0 then -x else x }

  function Tokens(t: Totals): int { t.prompt + t.completion }

  function Relative(discrepancy: real, billed: real, observed: real): real {
    if billed > 0.0 then Abs(discrepancy) / billed else if observed > 0.0 then 1.0 else 0.0
  }

  function BuildResult(provider: string, model: Option<string>, period: (int, int), observed: Totals, billed: Totals,
                       threshold: real): Line
  {
    var tokens := Relative((Tokens(billed) - Tokens(observed)) as real, Tokens(billed) as real,
                           Tokens(observed) as real);
    var cost := Relative(billed.cost - observed.cost, billed.cost, observed.cost);
    Line(provider, model, period, observed, billed,
         Totals(billed.prompt - observed.prompt, billed.completion - observed.completion, billed.cost - observed.cost),
         Round6(tokens), Round6(cost), tokens > threshold || cost > threshold)
  }

  // ---------- all lines ----------

  predicate Matches(inv: Invoice, u: Usage) {
    inv.provider == u.provider && (inv.model.Some? ==> inv.model.value == u.model)
  }

  predicate IsMatched(billed: seq<Invoice>, u: Usage) {
    exists k :: 0 <= k < |billed| && Matches(billed[k], u)
  }

  function ProviderTotals(observed: seq<Usage>, provider: string): Totals {
    if observed == [] then NOTHING
    else
      var rest, last := ProviderTotals(observed[..|observed| - 1], provider), observed[|observed| - 1];
      if last.provider == provider then Plus(rest, last.amounts) else rest
  }

  function ModelTotals(byKey: seq<Usage>, key: Key): Totals {
    var usage := Lookup(KeyOf, byKey, key);
    if usage.Some? then usage.value.amounts else NOTHING
  }

  function ObservedFor(observed: seq<Usage>, inv: Invoice): Totals {
    if inv.model.Some? then ModelTotals(StoreAll(KeyOf, observed), (inv.provider, inv.model.value))
    else ProviderTotals(observed, inv.provider)
  }

  /** How an invoice line and what was observed for it are reported. */
  function Report(threshold: real): (Invoice, Totals) -> Line {
    (inv: Invoice, observed: Totals) =>
      BuildResult(inv.provider, inv.model, inv.period, observed, inv.amounts, threshold)
  }

  function ReportOn(report: (Invoice, Totals) -> Line, observed: seq<Usage>): Invoice -> Line {
    (inv: Invoice) => report(inv, ObservedFor(observed, inv))
  }

  function InvoiceLine(observed: seq<Usage>, threshold: real): Invoice -> Line {
    ReportOn(Report(threshold), observed)
  }

  function UnmatchedLine(threshold: real): Usage -> Line {
    (u: Usage) => BuildResult(u.provider, Some(u.model), u.period, u.amounts, NOTHING, threshold)
  }

  function Unmatched(billed: seq<Invoice>): Usage -> bool { (u: Usage) => !IsMatched(billed, u) }

  /** The lines before sorting: one for each invoice line, then one for each usage that none of them matches. */
  function Lines(observed: seq<Usage>, billed: seq<Invoice>, threshold: real): seq<Line> {
    Map(InvoiceLine(observed, threshold), billed)
    + Map(UnmatchedLine(threshold), Filter(Unmatched(billed), StoreAll(KeyOf, observed)))
  }

  function ByDiscrepancy(line: Line): real { -Abs(line.discrepancy.cost) }

  function Reconciled(observed: seq<Usage>, billed: seq<Invoice>, threshold: real): seq<Line> {
    SortBy(ByDiscrepancy, Lines(observed, billed, threshold))
  }

  // ---------- the algorithm ----------

  function Aggregate(m: map<string, Totals>, provider: string): Totals {
    if provider in m then m[provider] else NOTHING
  }

  method IndexObserved(observed: seq<Usage>) returns (byKey: seq<Usage>, byProvider: map<string, Totals>)
    ensures byKey == StoreAll(KeyOf, observed)
    ensures forall provider :: Aggregate(byProvider, provider) == ProviderTotals(observed, provider)
  {
    byKey, byProvider := [], map[];
    for i := 0 to |observed|
      invariant byKey == StoreAll(KeyOf, observed[..i])
      invariant forall provider :: Aggregate(byProvider, provider) == ProviderTotals(observed[..i], provider)
    {
      assert observed[..i + 1][..i] == observed[..i];
      var u := observed[i];
      byKey := Store(KeyOf, byKey, u);
      byProvider := byProvider[u.provider := Plus(Aggregate(byProvider, u.provider), u.amounts)];
    }
    assert observed[..|observed|] == observed;
  }

  predicate Marks(matched: set<Key>, byKey: seq<Usage>, billed: seq<Invoice>) {
    forall i :: 0 <= i < |byKey| ==> (KeyOf(byKey[i]) in matched <==> IsMatched(billed, byKey[i]))
  }

  lemma MatchedByOneMore(billed: seq<Invoice>, i: nat, u: Usage)
    requires i < |billed|
    ensures IsMatched(billed[..i + 1], u) <==> IsMatched(billed[..i], u) || Matches(billed[i], u)
  {
  }

  /** The keys that one invoice line marks as matched. */
  method Mark(matched: set<Key>, byKey: seq<Usage>, inv: Invoice) returns (marked: set<Key>)
    ensures forall i :: 0 <= i < |byKey| ==>
              (KeyOf(byKey[i]) in marked <==> KeyOf(byKey[i]) in matched || Matches(inv, byKey[i]))
  {
    if inv.model.Some? {
      return matched + {(inv.provider, inv.model.value)};
    }
    marked := matched;
    for i := 0 to |byKey|
      invariant forall key :: key in marked <==>
                  key in matched || (key.0 == inv.provider && exists j :: 0 <= j < i && KeyOf(byKey[j]) == key)
    {
      if byKey[i].provider == inv.provider {
        marked := marked + {KeyOf(byKey[i])};
      }
    }
  }

  method Reconcile(observed: seq<Usage>, billed: seq<Invoice>, threshold: real) returns (results: seq<Line>)
    ensures results == Reconciled(observed, billed, threshold)
  {
    var byKey, byProvider := IndexObserved(observed);
    var matched: set<Key>;
    results, matched := ReportMatched(observed, billed, Report(threshold), byKey, byProvider);
    var unmatched := ReportUnmatched(billed, UnmatchedLine(threshold), byKey, matched);
    results := SortBy(ByDiscrepancy, results + unmatched);
  }

  /** One line for each invoice line, and the keys they match. */
  method ReportMatched(observed: seq<Usage>, billed: seq<Invoice>, report: (Invoice, Totals) -> Line, byKey: seq<Usage>,
                       byProvider: map<string, Totals>)
    returns (results: seq<Line>, matched: set<Key>)
    requires byKey == StoreAll(KeyOf, observed)
    requires forall provider :: Aggregate(byProvider, provider) == ProviderTotals(observed, provider)
    ensures results == Map(ReportOn(report, observed), billed) && Marks(matched, byKey, billed)
  {
    results, matched := [], {};
    for i := 0 to |billed|
      invariant |results| == i && forall k :: 0 <= k < i ==> results[k] == ReportOn(report, observed)(billed[k])
      invariant Marks(matched, byKey, billed[..i])
    {
      var inv := billed[i];
      var amounts: Totals;
      if inv.model.Some? {
        amounts := ModelTotals(byKey, (inv.provider, inv.model.value));
      } else {
        amounts := Aggregate(byProvider, inv.provider);
        assert amounts == ProviderTotals(observed, inv.provider);
      }
      assert amounts == ObservedFor(observed, inv);
      matched := Mark(matched, byKey, inv);
      forall k | 0 <= k < |byKey| ensures KeyOf(byKey[k]) in matched <==> IsMatched(billed[..i + 1], byKey[k]) {
        MatchedByOneMore(billed, i, byKey[k]);
      }
      results := results + [report(inv, amounts)];
    }
    assert billed[..|billed|] == billed;
  }

  /** One line for each usage that was not matched. */
  method ReportUnmatched(billed: seq<Invoice>, report: Usage -> Line, byKey: seq<Usage>, matched: set<Key>)
    returns (results: seq<Line>)
    requires Marks(matched, byKey, billed)
    ensures results == Map(report, Filter(Unmatched(billed), byKey))
  {
    results := [];
    for i := 0 to |byKey|
      invariant results == Map(report, Filter(Unmatched(billed), byKey[..i]))
    {
      FilterUpTo(report, Unmatched(billed), byKey, i);
      assert KeyOf(byKey[i]) !in matched <==> Unmatched(billed)(byKey[i]);
      if KeyOf(byKey[i]) !in matched {
        results := results + [report(byKey[i])];
      }
    }
    assert byKey[..|byKey|] == byKey;
  }

  // ---------- coverage ----------

  /** What is added up: prompt tokens, completion tokens or cost. */
  datatype Measure = PromptTokens | CompletionTokens | Cost

  function Of(m: Measure, t: Totals): real {
    match m
    case PromptTokens => t.prompt as real
    case CompletionTokens => t.completion as real
    case Cost => t.cost
  }

  function AmountOf(m: Measure): Usage -> real { (u: Usage) => Of(m, u.amounts) }

  function ObservedOf(m: Measure): Line -> real { (line: Line) => Of(m, line.observed) }

  function BilledOf(m: Measure): Line -> real { (line: Line) => Of(m, line.billed) }

  function InvoicedOf(m: Measure): Invoice -> real { (inv: Invoice) => Of(m, inv.amounts) }

  /** How many invoice lines match a usage. */
  function MatchCount(billed: seq<Invoice>, u: Usage): (n: nat)
    ensures n <= |billed|
  {
    if billed == [] then 0
    else MatchCount(billed[..|billed| - 1], u) + if Matches(billed[|billed| - 1], u) then 1 else 0
  }

  lemma {:induction false} CountedIsMatched(billed: seq<Invoice>, u: Usage)
    ensures MatchCount(billed, u) > 0 <==> IsMatched(billed, u)
  {
    if billed != [] {
      var n := |billed| - 1;
      CountedIsMatched(billed[..n], u);
      MatchedByOneMore(billed, n, u);
      assert billed[..n + 1] == billed;
    }
  }

  function AmountIf(m: Measure, inv: Invoice): Usage -> real {
    (u: Usage) => if Matches(inv, u) then Of(m, u.amounts) else 0.0
  }

  lemma {:induction false} ProviderSum(m: Measure, observed: seq<Usage>, inv: Invoice)
    requires inv.model.None?
    ensures Of(m, ProviderTotals(observed, inv.provider)) == SumOf(AmountIf(m, inv), observed)
  {
    if observed != [] {
      ProviderSum(m, observed[..|observed| - 1], inv);
    }
  }

  lemma {:induction false} ModelSum(m: Measure, observed: seq<Usage>, inv: Invoice)
    requires inv.model.Some? && DistinctKeys(KeyOf, observed)
    ensures Of(m, ModelTotals(observed, (inv.provider, inv.model.value))) == SumOf(AmountIf(m, inv), observed)
  {
    var f, key := AmountIf(m, inv), (inv.provider, inv.model.value);
    var found := Lookup(KeyOf, observed, key);
    if found.None? {
      forall i | 0 <= i < |observed| ensures f(observed[i]) == 0.0 {
        assert observed[i] in observed;
      }
      SumZero(f, observed);
    } else {
      var k :| 0 <= k < |observed| && observed[k] == found.value;
      SumSingle(f, observed, k);
    }
  }

  /** An invoice line is set against exactly the usages it matches. */
  lemma LineCoversMatches(m: Measure, observed: seq<Usage>, inv: Invoice)
    requires DistinctKeys(KeyOf, observed)
    ensures Of(m, ObservedFor(observed, inv)) == SumOf(AmountIf(m, inv), observed)
  {
    StoreDistinct(KeyOf, observed);
    if inv.model.Some? {
      ModelSum(m, observed, inv);
    } else {
      ProviderSum(m, observed, inv);
    }
  }

  /** An amount as often as invoice lines match it. */
  function Repeated(m: Measure, billed: seq<Invoice>): Usage -> real {
    (u: Usage) => Times(MatchCount(billed, u), Of(m, u.amounts))
  }

  function CoveredBy(m: Measure, observed: seq<Usage>): Invoice -> real {
    (inv: Invoice) => Of(m, ObservedFor(observed, inv))
  }

  lemma OneMoreInvoice(m: Measure, observed: seq<Usage>, billed: seq<Invoice>, inv: Invoice)
    ensures SumOf(Repeated(m, billed + [inv]), observed)
         == SumOf(Repeated(m, billed), observed) + SumOf(AmountIf(m, inv), observed)
  {
  }

  /** Summing over invoice lines what they match is summing over usages how often they are matched. */
  lemma {:induction false} DoubleCounting(m: Measure, covered: Invoice -> real, us: seq<Usage>, billed: seq<Invoice>)
    requires forall i :: 0 <= i < |billed| ==> covered(billed[i]) == SumOf(AmountIf(m, billed[i]), us)
    ensures SumOf(covered, billed) == SumOf(Repeated(m, billed), us)
  {
    if billed == [] {
      SumZero(Repeated(m, billed), us);
    } else {
      var before, last := billed[..|billed| - 1], billed[|billed| - 1];
      DoubleCounting(m, covered, us, before);
      OneMoreInvoice(m, us, before, last);
      SplitLast(billed);
    }
  }

  function AmountUnless(m: Measure, billed: seq<Invoice>): Usage -> real {
    (u: Usage) => if IsMatched(billed, u) then 0.0 else Of(m, u.amounts)
  }

  lemma {:induction false} SumFiltered<A(!new)>(f: A -> real, p: A -> bool, g: A -> real, xs: seq<A>)
    requires forall x :: g(x) == if p(x) then f(x) else 0.0
    ensures SumOf(f, Filter(p, xs)) == SumOf(g, xs)
  {
    if xs != [] {
      SumFiltered(f, p, g, xs[..|xs| - 1]);
      FilteredSnoc(f, p, xs[..|xs| - 1], xs[|xs| - 1]);
      SplitLast(xs);
    }
  }

  lemma FilteredSnoc<A(!new)>(f: A -> real, p: A -> bool, xs: seq<A>, x: A)
    ensures SumOf(f, Filter(p, xs + [x])) == SumOf(f, Filter(p, xs)) + if p(x) then f(x) else 0.0
  {
    FilterSnoc(p, xs, x);
    SumSnoc(f, Filter(p, xs), x);
    assert Filter(p, xs) + [] == Filter(p, xs);
  }

  /** Summing over lines of two kinds, sorted. */
  lemma {:induction false} LinesSum(f: Line -> real, line: Invoice -> Line, g: Invoice -> real, billed: seq<Invoice>,
                                    rest: Usage -> Line, h: Usage -> real, unmatched: seq<Usage>)
    requires forall inv :: f(line(inv)) == g(inv)
    requires forall u :: f(rest(u)) == h(u)
    ensures SumOf(f, SortBy(ByDiscrepancy, Map(line, billed) + Map(rest, unmatched)))
         == SumOf(g, billed) + SumOf(h, unmatched)
  {
    SortedSum(f, ByDiscrepancy, Map(line, billed) + Map(rest, unmatched));
    SumConcat(f, Map(line, billed), Map(rest, unmatched));
    SumAgrees(f, Map(line, billed), g, billed);
    SumAgrees(f, Map(rest, unmatched), h, unmatched);
  }

  lemma LinesShow(m: Measure, observed: seq<Usage>, threshold: real)
    ensures forall inv :: ObservedOf(m)(InvoiceLine(observed, threshold)(inv)) == CoveredBy(m, observed)(inv)
    ensures forall inv :: BilledOf(m)(InvoiceLine(observed, threshold)(inv)) == InvoicedOf(m)(inv)
    ensures forall u :: ObservedOf(m)(UnmatchedLine(threshold)(u)) == AmountOf(m)(u)
    ensures forall u :: BilledOf(m)(UnmatchedLine(threshold)(u)) == 0.0
  {
  }

  lemma ObservedSum(m: Measure, observed: seq<Usage>, billed: seq<Invoice>, threshold: real)
    ensures SumOf(ObservedOf(m), Reconciled(observed, billed, threshold))
         == SumOf(CoveredBy(m, observed), billed)
            + SumOf(AmountOf(m), Filter(Unmatched(billed), StoreAll(KeyOf, observed)))
  {
    LinesShow(m, observed, threshold);
    LinesSum(ObservedOf(m), InvoiceLine(observed, threshold), CoveredBy(m, observed), billed, UnmatchedLine(threshold),
             AmountOf(m), Filter(Unmatched(billed), StoreAll(KeyOf, observed)));
  }

  lemma {:induction false} InsertedSum<A>(f: A -> real, key: A -> real, x: A, xs: seq<A>)
    ensures SumOf(f, Insert(key, x, xs)) == f(x) + SumOf(f, xs)
  {
    SumCons(f, x, xs);
    if xs != [] {
      InsertedSum(f, key, x, xs[1..]);
      SumCons(f, xs[0], xs[1..]);
      SumCons(f, xs[0], Insert(key, x, xs[1..]));
      SplitFirst(xs);
    }
  }

  lemma {:induction false} SortedSum<A>(f: A -> real, key: A -> real, xs: seq<A>)
    ensures SumOf(f, SortBy(key, xs)) == SumOf(f, xs)
  {
    if xs != [] {
      SortedSum(f, key, xs[1..]);
      InsertedSum(f, key, xs[0], SortBy(key, xs[1..]));
      SumCons(f, xs[0], xs[1..]);
      SplitFirst(xs);
    }
  }

  /** Every usage as often as it is matched, and once if it is not. */
  function Covered(m: Measure, billed: seq<Invoice>): Usage -> real {
    (u: Usage) => Times(if MatchCount(billed, u) > 1 then MatchCount(billed, u) else 1, Of(m, u.amounts))
  }

  lemma CoveredSum(m: Measure, observed: seq<Usage>, billed: seq<Invoice>)
    ensures SumOf(Covered(m, billed), observed)
         == SumOf(Repeated(m, billed), observed) + SumOf(AmountUnless(m, billed), observed)
  {
    forall i | 0 <= i < |observed|
      ensures Covered(m, billed)(observed[i]) == Repeated(m, billed)(observed[i]) + AmountUnless(m, billed)(observed[i])
    {
      CoveredSplits(m, billed, observed[i]);
    }
    SumAdds(Repeated(m, billed), AmountUnless(m, billed), Covered(m, billed), observed);
  }

  /** With one usage per provider and model, the lines together show every usage max(1, number of matching invoice
      lines) times. */
  lemma CoverageIsExact(m: Measure, observed: seq<Usage>, billed: seq<Invoice>, threshold: real)
    requires DistinctKeys(KeyOf, observed)
    ensures SumOf(ObservedOf(m), Reconciled(observed, billed, threshold)) == SumOf(Covered(m, billed), observed)
  {
    ObservedSum(m, observed, billed, threshold);
    CoveredIsMatched(m, observed, billed);
    DoubleCounting(m, CoveredBy(m, observed), observed, billed);
    UnmatchedSum(m, observed, billed);
    CoveredSum(m, observed, billed);
  }

  lemma CoveredIsMatched(m: Measure, observed: seq<Usage>, billed: seq<Invoice>)
    requires DistinctKeys(KeyOf, observed)
    ensures forall i :: 0 <= i < |billed| ==>
              CoveredBy(m, observed)(billed[i]) == SumOf(AmountIf(m, billed[i]), observed)
  {
    forall i | 0 <= i < |billed| ensures CoveredBy(m, observed)(billed[i]) == SumOf(AmountIf(m, billed[i]), observed) {
      LineCoversMatches(m, observed, billed[i]);
    }
  }

  lemma UnmatchedSum(m: Measure, observed: seq<Usage>, billed: seq<Invoice>)
    requires DistinctKeys(KeyOf, observed)
    ensures SumOf(AmountOf(m), Filter(Unmatched(billed), StoreAll(KeyOf, observed)))
         == SumOf(AmountUnless(m, billed), observed)
  {
    StoreDistinct(KeyOf, observed);
    SumFiltered(AmountOf(m), Unmatched(billed), AmountUnless(m, billed), observed);
  }

  lemma CoveredSplits(m: Measure, billed: seq<Invoice>, u: Usage)
    ensures Covered(m, billed)(u) == Repeated(m, billed)(u) + AmountUnless(m, billed)(u)
  {
    CountedIsMatched(billed, u);
    OnceIsOnce(Of(m, u.amounts));
  }

  lemma OnceIsOnce(a: real)
    ensures Times(1, a) == a && Times(0, a) == 0.0
  {
  }

  /** Every invoiced amount appears once. */
  lemma BilledIsConserved(m: Measure, observed: seq<Usage>, billed: seq<Invoice>, threshold: real)
    ensures SumOf(BilledOf(m), Reconciled(observed, billed, threshold)) == SumOf(InvoicedOf(m), billed)
  {
    var nothing := (u: Usage) => 0.0;
    var unmatched := Filter(Unmatched(billed), StoreAll(KeyOf, observed));
    LinesShow(m, observed, threshold);
    LinesSum(BilledOf(m), InvoiceLine(observed, threshold), InvoicedOf(m), billed, UnmatchedLine(threshold), nothing,
             unmatched);
    SumZero(nothing, unmatched);
  }

  /** The report is a permutation of the lines, largest cost discrepancy first. */
  lemma ReportIsSorted(observed: seq<Usage>, billed: seq<Invoice>, threshold: real, i: nat, j: nat)
    requires i <= j < |Reconciled(observed, billed, threshold)|
    ensures var r := Reconciled(observed, billed, threshold);
            && multiset(r) == multiset(Lines(observed, billed, threshold))
            && Abs(r[i].discrepancy.cost) >= Abs(r[j].discrepancy.cost)
  {
    SortedByDiscrepancy(Lines(observed, billed, threshold), i, j);
  }

  lemma SortedByDiscrepancy(lines: seq<Line>, i: nat, j: nat)
    requires i <= j < |lines|
    ensures var r := SortBy(ByDiscrepancy, lines);
            multiset(r) == multiset(lines) && Abs(r[i].discrepancy.cost) >= Abs(r[j].discrepancy.cost)
  {
    SortBySorts(ByDiscrepancy, lines);
    var r := SortBy(ByDiscrepancy, lines);
    assert ByDiscrepancy(r[i]) <= ByDiscrepancy(r[j]);
  }

  // ---------- discrepancies ----------

  function DiscrepancyOf(m: Measure): Line -> real { (line: Line) => Of(m, line.discrepancy) }

  /** Beyond the threshold: by more than that share of what was billed, or, where nothing was billed, by anything. */
  predicate Beyond(threshold: real, observed: real, billed: real) {
    if billed > 0.0 then Abs(billed - observed) > threshold * billed
    else if observed > 0.0 then threshold < 1.0
    else threshold < 0.0
  }

  lemma RelativeBeyond(threshold: real, observed: real, billed: real)
    ensures Relative(billed - observed, billed, observed) > threshold <==> Beyond(threshold, observed, billed)
  {
  }

  /** A line is flagged exactly when its tokens or its cost are beyond the threshold. */
  lemma FlaggedWhenBeyond(provider: string, model: Option<string>, period: (int, int), observed: Totals, billed: Totals,
                          threshold: real)
    ensures BuildResult(provider, model, period, observed, billed, threshold).isNotable <==>
            || Beyond(threshold, Tokens(observed) as real, Tokens(billed) as real)
            || Beyond(threshold, observed.cost, billed.cost)
  {
    RelativeBeyond(threshold, Tokens(observed) as real, Tokens(billed) as real);
    RelativeBeyond(threshold, observed.cost, billed.cost);
    assert (Tokens(billed) - Tokens(observed)) as real == Tokens(billed) as real - Tokens(observed) as real;
  }

  /** A difference as a part of what was billed; all of it where nothing was billed but something was observed. */
  function PartOfBilled(observed: real, billed: real): real {
    if billed > 0.0 then (if billed >= observed then billed - observed else observed - billed) / billed
    else if observed > 0.0 then 1.0
    else 0.0
  }

  /** A line names what it is about, shows both sides and their differences, billed less observed, and the differences
      of all tokens and of the cost as parts of what was billed, to six places. */
  lemma LineOutcome(provider: string, model: Option<string>, period: (int, int), observed: Totals, billed: Totals,
                    threshold: real)
    ensures var line := BuildResult(provider, model, period, observed, billed, threshold);
            && line.provider == provider && line.model == model && line.period == period
            && line.observed == observed && line.billed == billed
            && line.discrepancy.prompt == billed.prompt - observed.prompt
            && line.discrepancy.completion == billed.completion - observed.completion
            && line.discrepancy.cost == billed.cost - observed.cost
            && var tokens := PartOfBilled((observed.prompt + observed.completion) as real,
                                          (billed.prompt + billed.completion) as real);
               && ToSixPlaces(tokens, line.pctTokens)
               && ToSixPlaces(PartOfBilled(observed.cost, billed.cost), line.pctCost)
  {
    RelativeIsPart((observed.prompt + observed.completion) as real, (billed.prompt + billed.completion) as real);
    RelativeIsPart(observed.cost, billed.cost);
    Round6IsNearest(PartOfBilled((observed.prompt + observed.completion) as real,
                                 (billed.prompt + billed.completion) as real));
    Round6IsNearest(PartOfBilled(observed.cost, billed.cost));
    assert (Tokens(billed) - Tokens(observed)) as real == Tokens(billed) as real - Tokens(observed) as real;
  }

  lemma RelativeIsPart(observed: real, billed: real)
    ensures Relative(billed - observed, billed, observed) == PartOfBilled(observed, billed)
  {
  }

  /** The lines before sorting: one for each invoice line with its names and its amounts, then one for each usage kept
      that no invoice line matches, against nothing billed. */
  lemma LinesOutcome(observed: seq<Usage>, billed: seq<Invoice>, threshold: real)
    ensures var lines, rest := Lines(observed, billed, threshold), Filter(Unmatched(billed), StoreAll(KeyOf, observed));
            && |lines| == |billed| + |rest|
            && (forall k :: 0 <= k < |billed| ==> IsInvoiceLine(observed, billed[k], lines[k]))
            && (forall k :: 0 <= k < |rest| ==> IsUnmatchedLine(rest[k], lines[|billed| + k]))
  {
    var lines, rest := Lines(observed, billed, threshold), Filter(Unmatched(billed), StoreAll(KeyOf, observed));
    forall k | 0 <= k < |billed| ensures IsInvoiceLine(observed, billed[k], lines[k]) {
      MapInTurn(InvoiceLine(observed, threshold), billed, UnmatchedLine(threshold), rest, k);
      InvoiceLineIsIt(observed, billed[k], threshold);
    }
    forall k | 0 <= k < |rest| ensures IsUnmatchedLine(rest[k], lines[|billed| + k]) {
      MapInTurn(InvoiceLine(observed, threshold), billed, UnmatchedLine(threshold), rest, k);
      UnmatchedLineIsIt(rest[k], threshold);
    }
  }

  predicate IsInvoiceLine(observed: seq<Usage>, inv: Invoice, line: Line) {
    && line.provider == inv.provider && line.model == inv.model && line.period == inv.period
    && line.billed == inv.amounts && line.observed == ObservedFor(observed, inv)
  }

  predicate IsUnmatchedLine(u: Usage, line: Line) {
    && line.provider == u.provider && line.model == Some(u.model) && line.period == u.period
    && line.observed == u.amounts && line.billed == Totals(0, 0, 0.0)
  }

  lemma InvoiceLineIsIt(observed: seq<Usage>, inv: Invoice, threshold: real)
    ensures IsInvoiceLine(observed, inv, InvoiceLine(observed, threshold)(inv))
  {
    LineOutcome(inv.provider, inv.model, inv.period, ObservedFor(observed, inv), inv.amounts, threshold);
  }

  lemma UnmatchedLineIsIt(u: Usage, threshold: real)
    ensures IsUnmatchedLine(u, UnmatchedLine(threshold)(u))
  {
    LineOutcome(u.provider, Some(u.model), u.period, u.amounts, NOTHING, threshold);
  }

  lemma DiscrepancyIsDifference(m: Measure, observed: seq<Usage>, threshold: real)
    ensures forall inv :: DiscrepancyOf(m)(InvoiceLine(observed, threshold)(inv))
                          == InvoicedOf(m)(inv) - CoveredBy(m, observed)(inv)
    ensures forall u :: DiscrepancyOf(m)(UnmatchedLine(threshold)(u)) == 0.0 - AmountOf(m)(u)
  {
  }

  function MinusCovered(m: Measure, observed: seq<Usage>): Invoice -> real {
    (inv: Invoice) => InvoicedOf(m)(inv) - CoveredBy(m, observed)(inv)
  }

  function MinusAmount(m: Measure): Usage -> real { (u: Usage) => 0.0 - AmountOf(m)(u) }

  /** The discrepancies add up to what was invoiced less what the report shows as observed. */
  lemma DiscrepanciesAddUp(m: Measure, observed: seq<Usage>, billed: seq<Invoice>, threshold: real)
    ensures SumOf(DiscrepancyOf(m), Reconciled(observed, billed, threshold))
         == SumOf(InvoicedOf(m), billed) - SumOf(ObservedOf(m), Reconciled(observed, billed, threshold))
  {
    var unmatched := Filter(Unmatched(billed), StoreAll(KeyOf, observed));
    DiscrepancyIsDifference(m, observed, threshold);
    LinesSum(DiscrepancyOf(m), InvoiceLine(observed, threshold), MinusCovered(m, observed), billed,
             UnmatchedLine(threshold), MinusAmount(m), unmatched);
    ObservedSum(m, observed, billed, threshold);
    SumAdds(MinusCovered(m, observed), CoveredBy(m, observed), InvoicedOf(m), billed);
    NegatedSum(m, unmatched);
  }

  lemma {:induction false} NegatedSum(m: Measure, us: seq<Usage>)
    ensures SumOf(MinusAmount(m), us) == 0.0 - SumOf(AmountOf(m), us)
  {
    if us != [] {
      NegatedSum(m, us[..|us| - 1]);
    }
  }

  // ---------- when the total is conserved ----------

  function Excess(m: Measure, billed: seq<Invoice>): Usage -> real {
    (u: Usage) => Times(if MatchCount(billed, u) > 1 then MatchCount(billed, u) - 1 else 0, Of(m, u.amounts))
  }

  lemma ExcessOf(m: Measure, billed: seq<Invoice>, u: Usage)
    requires Of(m, u.amounts) >= 0.0
    ensures Covered(m, billed)(u) == AmountOf(m)(u) + Excess(m, billed)(u)
    ensures Excess(m, billed)(u) >= 0.0
    ensures Excess(m, billed)(u) == 0.0 <==> MatchCount(billed, u) <= 1 || Of(m, u.amounts) == 0.0
  {
    var n, a := MatchCount(billed, u), Of(m, u.amounts);
    OnceIsOnce(a);
    TimesZero(if n > 1 then n - 1 else 0, a);
  }

  predicate OnceAtMost(m: Measure, billed: seq<Invoice>, u: Usage) {
    MatchCount(billed, u) <= 1 || Of(m, u.amounts) == 0.0
  }

  lemma ExcessSum(m: Measure, observed: seq<Usage>, billed: seq<Invoice>)
    requires forall i :: 0 <= i < |observed| ==> Of(m, observed[i].amounts) >= 0.0
    ensures SumOf(Covered(m, billed), observed) == SumOf(AmountOf(m), observed) <==>
            forall i :: 0 <= i < |observed| ==> OnceAtMost(m, billed, observed[i])
  {
    forall i | 0 <= i < |observed|
      ensures Covered(m, billed)(observed[i]) == AmountOf(m)(observed[i]) + Excess(m, billed)(observed[i])
      ensures Excess(m, billed)(observed[i]) >= 0.0
      ensures Excess(m, billed)(observed[i]) == 0.0 <==> OnceAtMost(m, billed, observed[i])
    {
      ExcessOf(m, billed, observed[i]);
    }
    SumAdds(AmountOf(m), Excess(m, billed), Covered(m, billed), observed);
    SumNonNegative(Excess(m, billed), observed);
  }

  /** Of amounts that are not negative, the observed total is conserved exactly when nothing but zero is matched by more
      than one invoice line. */
  lemma ConservedUnlessMatchedTwice(m: Measure, observed: seq<Usage>, billed: seq<Invoice>, threshold: real)
    requires DistinctKeys(KeyOf, observed)
    requires forall i :: 0 <= i < |observed| ==> Of(m, observed[i].amounts) >= 0.0
    ensures SumOf(ObservedOf(m), Reconciled(observed, billed, threshold)) == SumOf(AmountOf(m), observed) <==>
            forall i :: 0 <= i < |observed| ==> OnceAtMost(m, billed, observed[i])
  {
    CoverageIsExact(m, observed, billed, threshold);
    ExcessSum(m, observed, billed);
  }

  // ---------- repeated keys ----------

  predicate NamesModel(inv: Invoice) { inv.model.Some? }

  predicate NamesProvider(inv: Invoice) { inv.model.None? }

  lemma StoredKeysDiffer(observed: seq<Usage>)
    ensures HoldsLast(KeyOf, observed, StoreAll(KeyOf, observed))
    ensures DistinctKeys(KeyOf, StoreAll(KeyOf, observed))
  {
    StoreAllHoldsLast(KeyOf, observed);
  }

  lemma ByModelSum(m: Measure, observed: seq<Usage>, billed: seq<Invoice>)
    ensures SumOf(CoveredBy(m, observed), Filter(NamesModel, billed))
         == SumOf(Repeated(m, Filter(NamesModel, billed)), StoreAll(KeyOf, observed))
  {
    var lines, kept := Filter(NamesModel, billed), StoreAll(KeyOf, observed);
    StoredKeysDiffer(observed);
    forall i | 0 <= i < |lines| ensures CoveredBy(m, observed)(lines[i]) == SumOf(AmountIf(m, lines[i]), kept) {
      assert lines[i] in lines;
      ModelSum(m, kept, lines[i]);
    }
    DoubleCounting(m, CoveredBy(m, observed), kept, lines);
  }

  lemma ByProviderSum(m: Measure, observed: seq<Usage>, billed: seq<Invoice>)
    ensures SumOf(CoveredBy(m, observed), Filter(NamesProvider, billed))
         == SumOf(Repeated(m, Filter(NamesProvider, billed)), observed)
  {
    var lines := Filter(NamesProvider, billed);
    forall i | 0 <= i < |lines| ensures CoveredBy(m, observed)(lines[i]) == SumOf(AmountIf(m, lines[i]), observed) {
      assert lines[i] in lines;
      ProviderSum(m, observed, lines[i]);
    }
    DoubleCounting(m, CoveredBy(m, observed), observed, lines);
  }

  lemma {:induction false} SumOfParts<A(!new)>(f: A -> real, p: A -> bool, q: A -> bool, xs: seq<A>)
    requires forall x :: q(x) == !p(x)
    ensures SumOf(f, xs) == SumOf(f, Filter(p, xs)) + SumOf(f, Filter(q, xs))
  {
    if xs != [] {
      SumOfParts(f, p, q, xs[..|xs| - 1]);
      FilteredSnoc(f, p, xs[..|xs| - 1], xs[|xs| - 1]);
      FilteredSnoc(f, q, xs[..|xs| - 1], xs[|xs| - 1]);
      SplitLast(xs);
    }
  }

  /** Whatever keys repeat: an invoice line without a model shows every usage of its provider, while a line with a
      model, and the rest of the report, show only the last usage under each key. */
  lemma CoverageWithRepeatedKeys(m: Measure, observed: seq<Usage>, billed: seq<Invoice>, threshold: real)
    ensures var kept := StoreAll(KeyOf, observed);
            && HoldsLast(KeyOf, observed, kept)
            && SumOf(ObservedOf(m), Reconciled(observed, billed, threshold))
               == SumOf(Repeated(m, Filter(NamesProvider, billed)), observed)
                  + SumOf(Repeated(m, Filter(NamesModel, billed)), kept)
                  + SumOf(AmountUnless(m, billed), kept)
  {
    StoredKeysDiffer(observed);
    ObservedSum(m, observed, billed, threshold);
    SumOfParts(CoveredBy(m, observed), NamesModel, NamesProvider, billed);
    ByModelSum(m, observed, billed);
    ByProviderSum(m, observed, billed);
    SumFiltered(AmountOf(m), Unmatched(billed), AmountUnless(m, billed), StoreAll(KeyOf, observed));
  }

  /** Two usages under one key: only the later one is reported. */
  lemma RepeatedKeysLoseUsage(m: Measure, u: Usage, v: Usage, threshold: real)
    requires KeyOf(u) == KeyOf(v)
    ensures SumOf(ObservedOf(m), Reconciled([u, v], [], threshold)) == Of(m, v.amounts)
  {
    ObservedSum(m, [u, v], [], threshold);
    LaterIsKept(u, v);
    FilterSnoc(Unmatched([]), [], v);
    SumSnoc(AmountOf(m), [], v);
    assert [] + [v] == [v];
  }

  lemma LaterIsKept(u: Usage, v: Usage)
    requires KeyOf(u) == KeyOf(v)
    ensures StoreAll(KeyOf, [u, v]) == [v]
  {
    assert [u, v][..1] == [u] && [u][..0] == [];
    assert StoreAll(KeyOf, [u]) == [u];
  }
}
