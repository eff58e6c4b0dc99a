/** Routing policies: ordered rules, first match wins (routing/types.py, routing/policy.py). */
module Policies {
  import opened Options

  datatype Criteria = CheapestAboveQuality | FastestAboveQuality | HighestQualityUnderCost | BestValue

  datatype Rule = Rule(taskType: string, criteria: Criteria, minQuality: real, maxCost: Option<real>,
                       maxLatency: Option<real>, fallback: string)
  {
    predicate IsCatchAll() { taskType == "*" }

    predicate Matches(task: string) { taskType == task || IsCatchAll() }
  }

  /** The first rule that matches. */
  function FindMatchingRule(task: string, rules: seq<Rule>): Option<nat> {
    FindFrom(task, rules, 0)
  }

  function FindFrom(task: string, rules: seq<Rule>, i: nat): (r: Option<nat>)
    requires i <= |rules|
    ensures r.Some? ==> i <= r.value < |rules| && rules[r.value].Matches(task)
    ensures forall k :: i <= k < (if r.Some? then r.value else |rules|) ==> !rules[k].Matches(task)
    decreases |rules| - i
  {
    if i == |rules| then None else if rules[i].Matches(task) then Some(i) else FindFrom(task, rules, i + 1)
  }

  // ---------- validation ----------

  datatype PolicyError =
    | UnknownTaskType(rule: nat)
    | DuplicateTaskType(rule: nat)
    | AfterCatchAll(rule: nat, catchAll: nat)
    | UnknownFallback(rule: nat)
    | CostNotPositive(rule: nat)
    | LatencyNotPositive(rule: nat)

  /** The last catch-all among the first `n` rules. */
  predicate IsLastCatchAll(rules: seq<Rule>, n: nat, c: nat) {
    && n <= |rules| && c < n && rules[c].IsCatchAll()
    && forall k :: c < k < n ==> !rules[k].IsCatchAll()
  }

  /** What makes each message of the validator true. `types` are the task types besides the wildcard. */
  predicate Violates(rules: seq<Rule>, types: set<string>, models: set<string>, e: PolicyError) {
    && e.rule < |rules|
    && var rule := rules[e.rule];
       match e
       case UnknownTaskType(_) => rule.taskType !in types && !rule.IsCatchAll()
       case DuplicateTaskType(i) => exists j :: 0 <= j < i && rules[j].taskType == rule.taskType
       case AfterCatchAll(i, c) => !rule.IsCatchAll() && IsLastCatchAll(rules, i, c)
       case UnknownFallback(_) => rule.fallback !in models
       case CostNotPositive(_) => rule.maxCost.Some? && rule.maxCost.value <= 0.0
       case LatencyNotPositive(_) => rule.maxLatency.Some? && rule.maxLatency.value <= 0.0
  }

  predicate IsPositive(limit: Option<real>) { limit.Some? ==> limit.value > 0.0 }

  /** The rules are fit to be searched: known task types, each once, the wildcard last, known fallbacks. */
  predicate ValidPolicy(rules: seq<Rule>, types: set<string>, models: set<string>) {
    && (forall i :: 0 <= i < |rules| ==> rules[i].taskType in types || rules[i].IsCatchAll())
    && (forall i, j :: 0 <= i < j < |rules| ==> rules[i].taskType != rules[j].taskType)
    && (forall i :: 0 <= i < |rules| && rules[i].IsCatchAll() ==> i == |rules| - 1)
    && (forall i :: 0 <= i < |rules| ==> rules[i].fallback in models)
    && (forall i :: 0 <= i < |rules| ==> IsPositive(rules[i].maxCost) && IsPositive(rules[i].maxLatency))
  }

  lemma {:induction false} LastCatchAllExists(rules: seq<Rule>, n: nat, c: nat) returns (last: nat)
    requires c < n <= |rules| && rules[c].IsCatchAll()
    ensures IsLastCatchAll(rules, n, last)
    decreases n
  {
    if rules[n - 1].IsCatchAll() {
      return n - 1;
    }
    last := LastCatchAllExists(rules, n - 1, c);
  }

  lemma MisplacedCatchAll(rules: seq<Rule>, types: set<string>, models: set<string>, i: nat)
    requires i < |rules| - 1 && rules[i].IsCatchAll()
    ensures exists e :: Violates(rules, types, models, e)
  {
    var c := LastCatchAllExists(rules, i + 1, i);
    assert Violates(rules, types, models, DuplicateTaskType(i + 1))
        || Violates(rules, types, models, AfterCatchAll(i + 1, c));
  }

  /** A policy draws no error exactly when it is valid. */
  lemma NoViolationMeansValid(rules: seq<Rule>, types: set<string>, models: set<string>)
    ensures (forall e :: !Violates(rules, types, models, e)) <==> ValidPolicy(rules, types, models)
  {
    if forall e :: !Violates(rules, types, models, e) {
      forall i | 0 <= i < |rules|
        ensures rules[i].taskType in types || rules[i].IsCatchAll()
        ensures rules[i].fallback in models && IsPositive(rules[i].maxCost) && IsPositive(rules[i].maxLatency)
      {
        assert !Violates(rules, types, models, UnknownTaskType(i));
        assert !Violates(rules, types, models, UnknownFallback(i));
        assert !Violates(rules, types, models, CostNotPositive(i));
        assert !Violates(rules, types, models, LatencyNotPositive(i));
      }
      forall i, j | 0 <= i < j < |rules| ensures rules[i].taskType != rules[j].taskType {
        assert !Violates(rules, types, models, DuplicateTaskType(j));
      }
      forall i | 0 <= i < |rules| && rules[i].IsCatchAll() ensures i == |rules| - 1 {
        if i < |rules| - 1 {
          MisplacedCatchAll(rules, types, models, i);
        }
      }
    }
  }

  method ValidatePolicy(rules: seq<Rule>, types: set<string>, models: set<string>) returns (errors: seq<PolicyError>)
    ensures forall e :: e in errors <==> Violates(rules, types, models, e)
    ensures errors == [] <==> ValidPolicy(rules, types, models)
  {
    errors := [];
    var seen: set<string> := {};
    var catchAll: Option<nat> := None;
    for i := 0 to |rules|
      invariant forall t :: t in seen <==> exists j :: 0 <= j < i && rules[j].taskType == t
      invariant catchAll.None? ==> forall k :: 0 <= k < i ==> !rules[k].IsCatchAll()
      invariant catchAll.Some? ==> IsLastCatchAll(rules, i, catchAll.value)
      invariant forall e :: e in errors <==> e.rule < i && Violates(rules, types, models, e)
    {
      var rule := rules[i];
      var found := CheckRule(rules, types, models, i, seen, catchAll);
      errors := errors + found;
      seen := seen + {rule.taskType};
      if rule.IsCatchAll() {
        catchAll := Some(i);
      }
    }
    NoViolationMeansValid(rules, types, models);
    if errors != [] {
      assert errors[0] in errors;
    }
  }

  /** The errors of one rule, given the task types and the last catch-all before it. */
  method CheckRule(rules: seq<Rule>, types: set<string>, models: set<string>, i: nat, seen: set<string>,
                   catchAll: Option<nat>)
    returns (errors: seq<PolicyError>)
    requires i < |rules|
    requires forall t :: t in seen <==> exists j :: 0 <= j < i && rules[j].taskType == t
    requires catchAll.None? ==> forall k :: 0 <= k < i ==> !rules[k].IsCatchAll()
    requires catchAll.Some? ==> IsLastCatchAll(rules, i, catchAll.value)
    ensures forall e :: e in errors <==> e.rule == i && Violates(rules, types, models, e)
  {
    var rule := rules[i];
    errors := [];
    if rule.taskType !in types && !rule.IsCatchAll() {
      errors := errors + [UnknownTaskType(i)];
    }
    if rule.taskType in seen {
      errors := errors + [DuplicateTaskType(i)];
    }
    if !rule.IsCatchAll() && catchAll.Some? {
      errors := errors + [AfterCatchAll(i, catchAll.value)];
    }
    if rule.fallback !in models {
      errors := errors + [UnknownFallback(i)];
    }
    if rule.maxCost.Some? && rule.maxCost.value <= 0.0 {
      errors := errors + [CostNotPositive(i)];
    }
    if rule.maxLatency.Some? && rule.maxLatency.value <= 0.0 {
      errors := errors + [LatencyNotPositive(i)];
    }
  }

  /** In a valid policy the first match for a task type is its only rule, or the wildcard when it has none. */
  lemma FirstMatchIsOwnRule(task: string, rules: seq<Rule>, types: set<string>, models: set<string>, i: nat)
    requires ValidPolicy(rules, types, models) && i < |rules|
    ensures FindMatchingRule(task, rules) == Some(i) <==>
            || rules[i].taskType == task
            || (rules[i].IsCatchAll() && forall j :: 0 <= j < |rules| ==> rules[j].taskType != task)
  {
  }
}
