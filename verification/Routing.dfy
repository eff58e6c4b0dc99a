/** Choosing a model for a request (routing/router.py). */
module Routing {
  import opened Options
  import opened Sequences
  import opened StableSorts
  import opened Policies

  datatype Entry = Entry(taskType: string, model: string, quality: real, cost: real, latency: real, sampleSize: int)

  /** What the model catalog says of a model. */
  datatype ModelInfo = ModelInfo(tier: int, supportsTools: bool, avgCost: real)

  const QUALITY_FLOOR: real := 0.30
  const PRESERVED_QUALITY: real := 0.85
  const SMALLEST_COST: real := 0.0000001

  function Max(x: real, y: real): real { if x >= y then x else y }

  function ByQuality(e: Entry): real { -e.quality }

  predicate HasTask(task: string, e: Entry) { e.taskType == task }

  function OfTask(task: string): Entry -> bool { (e: Entry) => HasTask(task, e) }

  // ---------- the decision ----------

  datatype Query = Query(
    task: string,
    requested: string,
    hasTools: bool,
    allowed: Option<set<string>>,
    confidence: Option<real>,
    threshold: real,
    catalog: map<string, ModelInfo>,
    hardTasks: set<string>)

  datatype Decision = Decision(selected: string, overridden: bool, rule: Option<nat>)

  /** The key that a criterion sorts by, smallest first; the quality order of the cache breaks ties. */
  function Score(criteria: Criteria, e: Entry): real {
    match criteria
    case CheapestAboveQuality => e.cost
    case FastestAboveQuality => e.latency
    case HighestQualityUnderCost => -e.quality
    case BestValue => -(e.quality / Max(e.cost, SMALLEST_COST))
  }

  function ScoreBy(criteria: Criteria): Entry -> real { (e: Entry) => Score(criteria, e) }

  predicate WithinLimits(rule: Rule, e: Entry) {
    && (rule.maxCost.Some? ==> e.cost <= rule.maxCost.value)
    && (rule.maxLatency.Some? ==> e.latency <= rule.maxLatency.value)
  }

  function FirstWithinLimits(rule: Rule, viable: seq<Entry>): Option<Entry> {
    if viable == [] then None
    else if !WithinLimits(rule, viable[0]) then FirstWithinLimits(rule, viable[1..])
    else Some(viable[0])
  }

  function ApplyCriteria(rule: Rule, candidates: seq<Entry>): Option<Entry> {
    var viable := if rule.criteria.HighestQualityUnderCost? then candidates
                  else SortBy(ScoreBy(rule.criteria), candidates);
    FirstWithinLimits(rule, viable)
  }

  predicate SupportsTools(q: Query, model: string) {
    model in q.catalog && q.catalog[model].supportsTools
  }

  predicate IsAllowed(q: Query, model: string) { q.allowed.Some? ==> model in q.allowed.value }

  function AllowedIn(q: Query): Entry -> bool { (e: Entry) => IsAllowed(q, e.model) }

  function GoodEnough(rule: Rule): Entry -> bool { (e: Entry) => e.quality >= Max(rule.minQuality, QUALITY_FLOOR) }

  function ToolsIn(q: Query): Entry -> bool { (e: Entry) => SupportsTools(q, e.model) }

  /** A frontier model asked for on a hard task is replaced only by quality. */
  predicate PreservesTier(q: Query, rule: Rule) {
    && q.requested in q.catalog && q.catalog[q.requested].tier == 1
    && !rule.IsCatchAll() && q.task in q.hardTasks
    && (if q.confidence.Some? then q.confidence.value else 1.0) >= q.threshold
  }

  function EffectiveRule(q: Query, rule: Rule): Rule {
    if PreservesTier(q, rule) then
      rule.(criteria := HighestQualityUnderCost, minQuality := Max(rule.minQuality, PRESERVED_QUALITY), maxCost := None)
    else rule
  }

  function Fallback(q: Query, rule: Rule): string {
    if IsAllowed(q, rule.fallback) then rule.fallback else q.requested
  }

  /** The candidates that the filters leave, in the order given. */
  function Qualified(q: Query, rule: Rule, candidates: seq<Entry>): seq<Entry> {
    var allowed := if q.allowed.Some? then Filter(AllowedIn(q), candidates) else candidates;
    var good := Filter(GoodEnough(rule), allowed);
    if q.hasTools then Filter(ToolsIn(q), good) else good
  }

  function Decide(q: Query, selected: string, i: nat): Decision {
    Decision(selected, selected != q.requested, Some(i))
  }

  /** `candidates` are the cached entries of the task type, best quality first. */
  function ResolveWith(q: Query, isEmpty: bool, candidates: seq<Entry>, rules: seq<Rule>): Decision {
    match FindMatchingRule(q.task, rules)
    case None => Decision(q.requested, false, None)
    case Some(i) =>
      var rule := EffectiveRule(q, rules[i]);
      if isEmpty then Decide(q, Fallback(q, rule), i)
      else
        match ApplyCriteria(rule, Qualified(q, rule, candidates))
        case Some(best) => Decide(q, best.model, i)
        case None => Decide(q, Fallback(q, rule), i)
  }

  // ---------- what it should be, over the raw entries ----------

  /** An entry that the rule may pick for the request. */
  predicate IsEligible(q: Query, rule: Rule, e: Entry) {
    && HasTask(q.task, e)
    && IsAllowed(q, e.model)
    && e.quality >= rule.minQuality && e.quality >= QUALITY_FLOOR
    && (q.hasTools ==> SupportsTools(q, e.model))
    && WithinLimits(rule, e)
  }

  function Eligible(q: Query, rule: Rule): Entry -> bool { (e: Entry) => IsEligible(q, rule, e) }

  /** Entry `k` is the optimum: best by the criterion, then by quality, then the earliest. */
  predicate IsOptimal(q: Query, rule: Rule, es: seq<Entry>, k: nat) {
    IsSmallest(Eligible(q, rule), ScoreBy(rule.criteria), ByQuality, es, k)
  }

  // ---------- the refinement ----------

  function Limited(rule: Rule): Entry -> bool { (e: Entry) => WithinLimits(rule, e) }

  lemma {:induction false} FirstWithinIsFirstFiltered(rule: Rule, viable: seq<Entry>)
    ensures FirstWithinLimits(rule, viable) == First(Filter(Limited(rule), viable))
  {
    if viable != [] {
      FirstWithinIsFirstFiltered(rule, viable[1..]);
    }
  }

  lemma {:induction false} FilterTwice<A(!new)>(p: A -> bool, q: A -> bool, both: A -> bool, xs: seq<A>)
    requires forall x :: both(x) <==> p(x) && q(x)
    ensures Filter(p, Filter(q, xs)) == Filter(both, xs)
  {
    if xs != [] {
      FilterTwice(p, q, both, xs[1..]);
      FilterConcat(p, if q(xs[0]) then [xs[0]] else [], Filter(q, xs[1..]));
    }
  }

  /** Scanning a list sorted by one key and then by another finds the smallest that passes. */
  lemma SortedScanPicks(p: Entry -> bool, key: Entry -> real, tie: Entry -> real, es: seq<Entry>)
    ensures First(Filter(p, SortBy(key, SortBy(tie, es)))) == Smallest(key, tie, Filter(p, es))
    ensures First(Filter(p, SortBy(tie, es))) == Smallest(tie, tie, Filter(p, es))
  {
    var within := Filter(p, es);
    FilterSortBy(p, tie, es);
    FilterSortBy(p, key, SortBy(tie, es));
    FirstOfSort(tie, within);
    FirstOfSort(key, SortBy(tie, within));
    SmallestOfSort(key, tie, within);
  }

  lemma ScanPicks(rule: Rule, score: Entry -> real, es: seq<Entry>)
    ensures FirstWithinLimits(rule, SortBy(score, SortBy(ByQuality, es)))
         == Smallest(score, ByQuality, Filter(Limited(rule), es))
    ensures FirstWithinLimits(rule, SortBy(ByQuality, es)) == Smallest(ByQuality, ByQuality, Filter(Limited(rule), es))
  {
    SortedScanPicks(Limited(rule), score, ByQuality, es);
    FirstWithinIsFirstFiltered(rule, SortBy(ByQuality, es));
    FirstWithinIsFirstFiltered(rule, SortBy(score, SortBy(ByQuality, es)));
  }

  /** Picking by the criterion from a list in quality order picks the lexicographically smallest within the limits. */
  lemma ApplyCriteriaPicks(rule: Rule, es: seq<Entry>)
    ensures ApplyCriteria(rule, SortBy(ByQuality, es))
         == Smallest(ScoreBy(rule.criteria), ByQuality, Filter(Limited(rule), es))
  {
    ScanPicks(rule, ScoreBy(rule.criteria), es);
    if rule.criteria.HighestQualityUnderCost? {
      SameKeys(ByQuality, ScoreBy(rule.criteria), Filter(Limited(rule), es));
    }
  }

  lemma {:induction false} SameKeys(key: Entry -> real, key': Entry -> real, es: seq<Entry>)
    requires forall e :: key(e) == key'(e)
    ensures Smallest(key, key, es) == Smallest(key', key, es)
  {
    if es != [] {
      SameKeys(key, key', es[1..]);
    }
  }

  predicate Qualifies(q: Query, rule: Rule, e: Entry) {
    && IsAllowed(q, e.model) && e.quality >= Max(rule.minQuality, QUALITY_FLOOR)
    && (q.hasTools ==> SupportsTools(q, e.model))
  }

  function QualifiedIn(q: Query, rule: Rule): Entry -> bool { (e: Entry) => Qualifies(q, rule, e) }

  lemma QualifiedIsFiltered(q: Query, rule: Rule, candidates: seq<Entry>)
    ensures Qualified(q, rule, candidates) == Filter(QualifiedIn(q, rule), candidates)
  {
    var allowed, good := AllowedIn(q), GoodEnough(rule);
    var both := (e: Entry) => allowed(e) && good(e);
    FilterAll(allowed, candidates);
    FilterTwice(good, allowed, both, candidates);
    if q.hasTools {
      FilterTwice(ToolsIn(q), both, QualifiedIn(q, rule), candidates);
    } else {
      FilterSame(both, QualifiedIn(q, rule), candidates);
    }
  }

  /** Sorting the entries of a task and then filtering them leaves those that pass both, in order. */
  lemma FilterIndexed(p: Entry -> bool, indexed: Entry -> bool, both: Entry -> bool, es: seq<Entry>)
    requires forall e :: both(e) <==> p(e) && indexed(e)
    ensures Filter(p, SortBy(ByQuality, Filter(indexed, es))) == SortBy(ByQuality, Filter(both, es))
  {
    FilterSortBy(p, ByQuality, Filter(indexed, es));
    FilterTwice(p, indexed, both, es);
  }

  function Candidate(q: Query, rule: Rule): Entry -> bool { (e: Entry) => Qualifies(q, rule, e) && HasTask(q.task, e) }

  /** Index, sort and scan together pick the smallest eligible raw entry. */
  lemma ScanIsArgmin(q: Query, rule: Rule, es: seq<Entry>)
    ensures ApplyCriteria(rule, Qualified(q, rule, SortBy(ByQuality, Filter(OfTask(q.task), es))))
         == Smallest(ScoreBy(rule.criteria), ByQuality, Filter(Eligible(q, rule), es))
  {
    QualifiedIsFiltered(q, rule, SortBy(ByQuality, Filter(OfTask(q.task), es)));
    FilterIndexed(QualifiedIn(q, rule), OfTask(q.task), Candidate(q, rule), es);
    ApplyCriteriaPicks(rule, Filter(Candidate(q, rule), es));
    FilterTwice(Limited(rule), Candidate(q, rule), Eligible(q, rule), es);
  }

  /** The decision in terms of the raw entries `es`: the optimum of the eligible ones if there are any, the fallback
      otherwise. */
  ghost predicate IsRightDecision(q: Query, es: seq<Entry>, rules: seq<Rule>, d: Decision) {
    match FindMatchingRule(q.task, rules)
    case None => d == Decision(q.requested, false, None)
    case Some(i) =>
      var rule := EffectiveRule(q, rules[i]);
      && d.rule == Some(i)
      && (forall k: nat :: IsOptimal(q, rule, es, k) ==> d.selected == es[k].model)
      && ((exists k: nat :: IsOptimal(q, rule, es, k)) <==> exists e :: e in es && IsEligible(q, rule, e))
      && ((forall e :: e in es ==> !IsEligible(q, rule, e)) ==> d.selected == Fallback(q, rule))
  }

  lemma PickIsOptimal(q: Query, rule: Rule, es: seq<Entry>)
    ensures var best := Smallest(ScoreBy(rule.criteria), ByQuality, Filter(Eligible(q, rule), es));
            && (best.None? <==> forall e :: e in es ==> !IsEligible(q, rule, e))
            && (forall k: nat :: IsOptimal(q, rule, es, k) ==> best == Some(es[k]))
            && (best.Some? ==> exists k: nat :: IsOptimal(q, rule, es, k) && best == Some(es[k]))
            && (best.Some? ==> IsEligible(q, rule, best.value))
  {
    var p, score := Eligible(q, rule), ScoreBy(rule.criteria);
    SmallestIsSmallest(p, score, ByQuality, es);
    var best := Smallest(score, ByQuality, Filter(p, es));
    forall k: nat | IsOptimal(q, rule, es, k) ensures best == Some(es[k]) {
      assert p(es[k]);
      var i: nat :| IsSmallest(p, score, ByQuality, es, i) && es[i] == best.value;
      SmallestIsUnique(p, score, ByQuality, es, i, k);
    }
    if best.Some? {
      var i: nat :| IsSmallest(p, score, ByQuality, es, i) && es[i] == best.value;
      assert IsOptimal(q, rule, es, i);
    }
  }

  /** What the router decides from its index is right for the raw entries the index was built from; it never leaves the
      allowed models except to keep the requested one, says so when it overrides, and picks a model without tool support
      for a request with tools only as a fallback. */
  lemma ResolveIsRight(q: Query, es: seq<Entry>, rules: seq<Rule>)
    ensures var d := ResolveWith(q, es == [], SortBy(ByQuality, Filter(OfTask(q.task), es)), rules);
            && IsRightDecision(q, es, rules, d)
            && (d.selected == q.requested || IsAllowed(q, d.selected))
            && (d.overridden <==> d.selected != q.requested)
            && (q.hasTools && d.rule.Some? && !SupportsTools(q, d.selected) ==>
                  var rule := EffectiveRule(q, rules[d.rule.value]);
                  d.selected == Fallback(q, rule) && forall e :: e in es ==> !IsEligible(q, rule, e))
  {
    if FindMatchingRule(q.task, rules).Some? {
      var rule := EffectiveRule(q, rules[FindMatchingRule(q.task, rules).value]);
      ScanIsArgmin(q, rule, es);
      PickIsOptimal(q, rule, es);
    }
  }

  // ---------- the decision spelled out ----------

  /** A frontier model is asked for on a hard task that has a rule of its own, and the classifier is sure enough, or did
      not run and counts as certain. */
  predicate KeepsFrontier(q: Query, rule: Rule) {
    && q.requested in q.catalog && q.catalog[q.requested].tier == 1 && rule.taskType != "*" && q.task in q.hardTasks
    && match q.confidence
       case None => q.threshold <= 1.0
       case Some(c) => q.threshold <= c
  }

  /** The entry is of the task, its model is allowed and can use the tools that come along, it is good enough, fast
      enough and cheap enough; a preserved frontier class asks for more quality and takes any cost. */
  predicate MayServe(q: Query, rule: Rule, e: Entry) {
    && e.taskType == q.task
    && (q.allowed.Some? ==> e.model in q.allowed.value)
    && (q.hasTools ==> e.model in q.catalog && q.catalog[e.model].supportsTools)
    && e.quality >= 0.3 && e.quality >= rule.minQuality
    && (rule.maxLatency.Some? ==> e.latency <= rule.maxLatency.value)
    && if KeepsFrontier(q, rule) then e.quality >= 0.85 else rule.maxCost.Some? ==> e.cost <= rule.maxCost.value
  }

  /** Quality for money, where next to nothing counts as a ten-millionth. */
  function ValueFor(e: Entry): real { e.quality / if e.cost >= 0.0000001 then e.cost else 0.0000001 }

  /** Smaller is better in `x` than in `y`; in a tie quality decides, and then the order of the entries. */
  predicate Ahead(x: real, y: real, better: bool, equal: bool, earlier: bool) {
    x < y || (x == y && (better || (equal && earlier)))
  }

  /** Entry `i` is at least as good as entry `j` by the criterion: cheaper, faster, better, or better for the money. */
  predicate Serves(criteria: Criteria, es: seq<Entry>, i: nat, j: nat)
    requires i < |es| && j < |es|
  {
    var x, y := es[i], es[j];
    var better, equal := x.quality > y.quality, x.quality == y.quality;
    match criteria
    case CheapestAboveQuality => Ahead(x.cost, y.cost, better, equal, i <= j)
    case FastestAboveQuality => Ahead(x.latency, y.latency, better, equal, i <= j)
    case HighestQualityUnderCost => better || (equal && i <= j)
    case BestValue => Ahead(ValueFor(y), ValueFor(x), better, equal, i <= j)
  }

  /** The best of the entries that may serve. */
  predicate IsBest(q: Query, rule: Rule, es: seq<Entry>, k: nat) {
    && k < |es| && MayServe(q, rule, es[k])
    && forall j :: 0 <= j < |es| && MayServe(q, rule, es[j]) ==>
         Serves(if KeepsFrontier(q, rule) then HighestQualityUnderCost else rule.criteria, es, k, j)
  }

  /** Rule `i` is the first of its task type or for all. */
  predicate IsFirstRule(task: string, rules: seq<Rule>, i: nat) {
    && i < |rules| && (rules[i].taskType == task || rules[i].taskType == "*")
    && forall j :: 0 <= j < i ==> rules[j].taskType != task && rules[j].taskType != "*"
  }

  /** The model of the best entry by the first rule; if no entry may serve, the rule's fallback, or the requested model
      when that is not allowed; and the requested model when no rule applies. */
  ghost predicate IsBestChoice(q: Query, es: seq<Entry>, rules: seq<Rule>, d: Decision) {
    && ((forall i: nat :: !IsFirstRule(q.task, rules, i)) ==> d == Decision(q.requested, false, None))
    && forall i: nat {:trigger IsFirstRule(q.task, rules, i)} :: IsFirstRule(q.task, rules, i) ==>
         && d.rule == Some(i) && (d.overridden <==> d.selected != q.requested)
         && ((exists e :: e in es && MayServe(q, rules[i], e)) ==>
               exists k: nat :: IsBest(q, rules[i], es, k) && d.selected == es[k].model)
         && ((forall e :: e in es ==> !MayServe(q, rules[i], e)) ==>
               d.selected == if q.allowed.None? || rules[i].fallback in q.allowed.value then rules[i].fallback
                             else q.requested)
  }

  lemma ServingIsEligible(q: Query, rule: Rule, e: Entry)
    ensures IsEligible(q, EffectiveRule(q, rule), e) <==> MayServe(q, rule, e)
  {
  }

  lemma OptimalIsBest(q: Query, rule: Rule, es: seq<Entry>, k: nat)
    requires IsOptimal(q, EffectiveRule(q, rule), es, k)
    ensures IsBest(q, rule, es, k)
  {
    ServingIsEligible(q, rule, es[k]);
    forall j | 0 <= j < |es| && MayServe(q, rule, es[j])
      ensures Serves(if KeepsFrontier(q, rule) then HighestQualityUnderCost else rule.criteria, es, k, j)
    {
      ServingIsEligible(q, rule, es[j]);
      if j != k {
        assert Eligible(q, EffectiveRule(q, rule))(es[j]);
        SmallestServes(EffectiveRule(q, rule).criteria, es, k, j);
      }
    }
  }

  lemma SmallestServes(criteria: Criteria, es: seq<Entry>, k: nat, j: nat)
    requires k < |es| && j < |es|
    requires var key := ScoreBy(criteria);
             LexLess(key, ByQuality, es[k], es[j]) || (k < j && !LexLess(key, ByQuality, es[j], es[k]))
    ensures Serves(criteria, es, k, j)
  {
  }

  lemma FirstRuleIsFound(task: string, rules: seq<Rule>, i: nat)
    ensures IsFirstRule(task, rules, i) <==> FindMatchingRule(task, rules) == Some(i)
  {
    if FindMatchingRule(task, rules).Some? {
      var f := FindMatchingRule(task, rules).value;
      assert rules[f].Matches(task);
    }
    if IsFirstRule(task, rules, i) {
      assert rules[i].Matches(task);
    }
  }

  /** A right decision is the best choice. */
  lemma RightIsBest(q: Query, es: seq<Entry>, rules: seq<Rule>, d: Decision)
    requires IsRightDecision(q, es, rules, d) && (d.overridden <==> d.selected != q.requested)
    ensures IsBestChoice(q, es, rules, d)
  {
    if FindMatchingRule(q.task, rules).Some? {
      FirstRuleIsFound(q.task, rules, FindMatchingRule(q.task, rules).value);
    }
    forall i: nat | IsFirstRule(q.task, rules, i)
      ensures (exists e :: e in es && MayServe(q, rules[i], e)) ==>
                exists k: nat :: IsBest(q, rules[i], es, k) && d.selected == es[k].model
      ensures FindMatchingRule(q.task, rules) == Some(i)
      ensures (forall e :: e in es ==> !MayServe(q, rules[i], e)) ==>
                forall e :: e in es ==> !IsEligible(q, EffectiveRule(q, rules[i]), e)
    {
      FirstRuleIsFound(q.task, rules, i);
      ServingExists(q, rules[i], es, d);
    }
  }

  lemma ServingExists(q: Query, rule: Rule, es: seq<Entry>, d: Decision)
    requires forall k: nat :: IsOptimal(q, EffectiveRule(q, rule), es, k) ==> d.selected == es[k].model
    requires (exists k: nat :: IsOptimal(q, EffectiveRule(q, rule), es, k)) <==>
             exists e :: e in es && IsEligible(q, EffectiveRule(q, rule), e)
    ensures (exists e :: e in es && MayServe(q, rule, e)) ==>
              exists k: nat :: IsBest(q, rule, es, k) && d.selected == es[k].model
    ensures (forall e :: e in es ==> !MayServe(q, rule, e)) ==>
              forall e :: e in es ==> !IsEligible(q, EffectiveRule(q, rule), e)
  {
    forall e ensures IsEligible(q, EffectiveRule(q, rule), e) <==> MayServe(q, rule, e) {
      ServingIsEligible(q, rule, e);
    }
    if e :| e in es && MayServe(q, rule, e) {
      var k: nat :| IsOptimal(q, EffectiveRule(q, rule), es, k);
      OptimalIsBest(q, rule, es, k);
    }
  }

  /** The router makes the best choice over the raw entries, in terms of their fields alone. */
  lemma ResolvePicksBest(q: Query, es: seq<Entry>, rules: seq<Rule>)
    ensures IsBestChoice(q, es, rules,
                         ResolveWith(q, es == [], SortBy(ByQuality, Filter(OfTask(q.task), es)), rules))
  {
    ResolveIsRight(q, es, rules);
    RightIsBest(q, es, rules, ResolveWith(q, es == [], SortBy(ByQuality, Filter(OfTask(q.task), es)), rules));
  }

  /** When the tier is preserved, the optimum has at least quality 0.85 and the best quality of all entries that meet
      the other conditions, whatever they cost. */
  lemma TierOneIsQualityFirst(q: Query, es: seq<Entry>, rule: Rule, k: nat, j: nat)
    requires PreservesTier(q, rule) && IsOptimal(q, EffectiveRule(q, rule), es, k) && j < |es|
    ensures es[k].quality >= PRESERVED_QUALITY && es[k].quality >= rule.minQuality
    ensures && HasTask(q.task, es[j]) && IsAllowed(q, es[j].model)
            && (q.hasTools ==> SupportsTools(q, es[j].model))
            && (rule.maxLatency.Some? ==> es[j].latency <= rule.maxLatency.value)
            ==> es[j].quality <= es[k].quality
  {
  }
}
