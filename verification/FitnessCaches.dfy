/** The in-process fitness matrix the router reads (routing/router.py). */
module FitnessCaches {
  import opened Sequences
  import opened StableSorts
  import opened Dictionaries
  import opened Policies
  import opened Routing

  function Bucket(index: map<string, seq<Entry>>, task: string): seq<Entry> {
    if task in index then index[task] else []
  }

  predicate BucketHolds(index: map<string, seq<Entry>>, task: string, es: seq<Entry>) {
    Bucket(index, task) == Filter(OfTask(task), es)
  }

  predicate BucketSorted(index: map<string, seq<Entry>>, task: string, es: seq<Entry>) {
    Bucket(index, task) == SortBy(ByQuality, Filter(OfTask(task), es))
  }

  ghost predicate AllHold(index: map<string, seq<Entry>>, es: seq<Entry>) {
    forall task {:trigger BucketHolds(index, task, es)} :: BucketHolds(index, task, es)
  }

  lemma AddToBucket(index: map<string, seq<Entry>>, es: seq<Entry>, i: nat)
    requires i < |es| && AllHold(index, es[..i])
    ensures AllHold(index[es[i].taskType := Bucket(index, es[i].taskType) + [es[i]]], es[..i + 1])
  {
    var before, after, e := es[..i], es[..i + 1], es[i];
    var index' := index[e.taskType := Bucket(index, e.taskType) + [e]];
    assert after == before + [e];
    forall task ensures BucketHolds(index', task, after) {
      assert BucketHolds(index, task, before);
      FilterSnoc(OfTask(task), before, e);
      BucketAdded(index, e, task);
    }
  }

  lemma BucketAdded(index: map<string, seq<Entry>>, e: Entry, task: string)
    ensures Bucket(index[e.taskType := Bucket(index, e.taskType) + [e]], task)
         == Bucket(index, task) + if OfTask(task)(e) then [e] else []
  {
    assert Bucket(index, task) + [] == Bucket(index, task);
  }

  class FitnessCache {
    var entries: seq<Entry>
    var byTask: map<string, seq<Entry>>
    var lastUpdated: real
    var forceStale: bool

    /** The index is the entries by task, best first. */
    ghost predicate Valid()
      reads this
    {
      forall task {:trigger BucketSorted(byTask, task, entries)} :: BucketSorted(byTask, task, entries)
    }

    constructor ()
      ensures Valid() && entries == []
    {
      entries, byTask, lastUpdated, forceStale := [], map[], 0.0, false;
    }

    predicate IsEmpty()
      reads this
    {
      entries == []
    }

    predicate IsStale(now: real, ttl: real)
      reads this
    {
      forceStale || lastUpdated == 0.0 || now - lastUpdated > ttl
    }

    method MarkStale()
      modifies this`forceStale
      ensures forceStale && forall now, ttl :: IsStale(now, ttl)
    {
      forceStale := true;
    }

    function GetEntriesForTask(task: string): seq<Entry>
      reads this
    {
      Bucket(byTask, task)
    }

    method Update(newEntries: seq<Entry>, now: real)
      modifies this
      ensures Valid() && entries == newEntries
      ensures forall task :: GetEntriesForTask(task) == SortBy(ByQuality, Filter(OfTask(task), newEntries))
      ensures forall later, ttl :: IsStale(later, ttl) <==> now == 0.0 || later - now > ttl
    {
      var newIndex := BuildIndex(newEntries);
      entries := newEntries;
      byTask := newIndex;
      lastUpdated := now;
      forceStale := false;
      forall task ensures GetEntriesForTask(task) == SortBy(ByQuality, Filter(OfTask(task), newEntries)) {
        assert BucketSorted(byTask, task, entries);
      }
    }
  }

  method BuildIndex(es: seq<Entry>) returns (index: map<string, seq<Entry>>)
    ensures forall task {:trigger BucketSorted(index, task, es)} :: BucketSorted(index, task, es)
  {
    index := map[];
    for i := 0 to |es|
      invariant AllHold(index, es[..i])
    {
      AddToBucket(index, es, i);
      index := index[es[i].taskType := Bucket(index, es[i].taskType) + [es[i]]];
    }
    assert es[..|es|] == es;
    var todo := index.Keys;
    forall task | task !in todo ensures BucketSorted(index, task, es) {
      assert BucketHolds(index, task, es);
    }
    while todo != {}
      invariant todo <= index.Keys
      invariant forall task {:trigger BucketHolds(index, task, es)} :: task in todo ==> BucketHolds(index, task, es)
      invariant forall task {:trigger BucketSorted(index, task, es)} :: task !in todo ==> BucketSorted(index, task, es)
    {
      var task :| task in todo;
      assert BucketHolds(index, task, es);
      ghost var before := index;
      index := index[task := SortBy(ByQuality, index[task])];
      todo := todo - {task};
      forall t | t in todo ensures BucketHolds(index, t, es) {
        assert BucketHolds(before, t, es);
      }
      forall t | t !in todo ensures BucketSorted(index, t, es) {
        assert t != task ==> BucketSorted(before, t, es);
      }
    }
  }

  function Resolve(q: Query, cache: FitnessCache, rules: seq<Rule>): Decision
    reads cache
  {
    ResolveWith(q, cache.IsEmpty(), cache.GetEntriesForTask(q.task), rules)
  }

  /** Resolving through the cache is right for the entries last put into it. */
  lemma ResolveRefinesArgmax(q: Query, cache: FitnessCache, rules: seq<Rule>)
    requires cache.Valid()
    ensures var d := Resolve(q, cache, rules);
            && IsRightDecision(q, cache.entries, rules, d)
            && IsBestChoice(q, cache.entries, rules, d)
            && (d.selected == q.requested || IsAllowed(q, d.selected))
            && (d.overridden <==> d.selected != q.requested)
  {
    assert BucketSorted(cache.byTask, q.task, cache.entries);
    ResolveIsRight(q, cache.entries, rules);
    ResolvePicksBest(q, cache.entries, rules);
  }

  // ---------- merging benchmark results over synthetic ones ----------

  function KeyOf(e: Entry): (string, string) { (e.model, e.taskType) }

  predicate Sampled(e: Entry) { e.sampleSize > 0 }

  /** Catalog prices take the place of measured ones. */
  function Priced(catalog: map<string, ModelInfo>): Entry -> Entry {
    (e: Entry) => if e.model in catalog then e.(cost := catalog[e.model].avgCost) else e
  }

  /** The dictionary after these entries were written. */
  ghost predicate Merges(written: seq<Entry>, dict: seq<Entry>) {
    HoldsLast(KeyOf, written, dict) && InFirstOrder(KeyOf, written, dict)
  }

  lemma StoreMerges(written: seq<Entry>, dict: seq<Entry>, e: Entry)
    requires Merges(written, dict)
    ensures Merges(written + [e], Store(KeyOf, dict, e))
  {
    StoreHoldsLast(KeyOf, written, dict, e);
    StoreKeepsOrder(KeyOf, written, dict, e);
  }

  /** Every model and task type gets one entry: its last benchmark with samples, at the catalog price, or its last
      synthetic entry when it has none; they stand in the order in which they first appeared, by which the router breaks
      ties. */
  method MergeFitnessEntries(catalog: map<string, ModelInfo>, synthetic: seq<Entry>, measured: seq<Entry>)
    returns (merged: seq<Entry>)
    ensures HoldsLast(KeyOf, Written(catalog, synthetic, measured), merged)
    ensures InFirstOrder(KeyOf, Written(catalog, synthetic, measured), merged)
    ensures forall x :: x in merged ==> x in synthetic || IsPriced(catalog, measured, x)
  {
    merged := [];
    for i := 0 to |synthetic|
      invariant Merges(synthetic[..i], merged)
    {
      assert synthetic[..i + 1] == synthetic[..i] + [synthetic[i]];
      StoreMerges(synthetic[..i], merged, synthetic[i]);
      merged := Store(KeyOf, merged, synthetic[i]);
    }
    assert synthetic[..|synthetic|] == synthetic;
    assert Written(catalog, synthetic, measured[..0]) == synthetic;
    for i := 0 to |measured|
      invariant Merges(Written(catalog, synthetic, measured[..i]), merged)
    {
      MeasuredMerges(catalog, synthetic, measured, i, merged);
      if measured[i].sampleSize > 0 {
        var e := measured[i];
        var cost := if e.model in catalog then catalog[e.model].avgCost else e.cost;
        merged := Store(KeyOf, merged, e.(cost := cost));
      }
    }
    assert measured[..|measured|] == measured;
    MergedComesFrom(catalog, synthetic, measured, merged);
  }

  /** `x` is what a benchmark measured for `e`'s model and task, with samples, at the catalog's price if it has one. */
  predicate IsPricedFrom(catalog: map<string, ModelInfo>, e: Entry, x: Entry) {
    && e.sampleSize > 0 && x.model == e.model && x.taskType == e.taskType && x.quality == e.quality
    && x.latency == e.latency && x.sampleSize == e.sampleSize
    && x.cost == if e.model in catalog then catalog[e.model].avgCost else e.cost
  }

  predicate IsPriced(catalog: map<string, ModelInfo>, measured: seq<Entry>, x: Entry) {
    exists e :: e in measured && IsPricedFrom(catalog, e, x)
  }

  lemma WrittenComesFrom(catalog: map<string, ModelInfo>, synthetic: seq<Entry>, measured: seq<Entry>, x: Entry)
    requires x in Written(catalog, synthetic, measured)
    ensures x in synthetic || IsPriced(catalog, measured, x)
  {
    if x !in synthetic {
      var sampled := Filter(Sampled, measured);
      var k :| 0 <= k < |sampled| && Map(Priced(catalog), sampled)[k] == x;
      assert sampled[k] in sampled && Sampled(sampled[k]);
      assert IsPricedFrom(catalog, sampled[k], x);
    }
  }

  lemma MergedComesFrom(catalog: map<string, ModelInfo>, synthetic: seq<Entry>, measured: seq<Entry>,
                        merged: seq<Entry>)
    requires HoldsLast(KeyOf, Written(catalog, synthetic, measured), merged)
    ensures forall x :: x in merged ==> x in synthetic || IsPriced(catalog, measured, x)
  {
    forall x | x in merged ensures x in synthetic || IsPriced(catalog, measured, x) {
      assert WrittenLast(KeyOf, Written(catalog, synthetic, measured), x);
      WrittenComesFrom(catalog, synthetic, measured, x);
    }
  }

  lemma MeasuredMerges(catalog: map<string, ModelInfo>, synthetic: seq<Entry>, measured: seq<Entry>, i: nat,
                       merged: seq<Entry>)
    requires i < |measured| && Merges(Written(catalog, synthetic, measured[..i]), merged)
    ensures Merges(Written(catalog, synthetic, measured[..i + 1]),
                   if Sampled(measured[i]) then Store(KeyOf, merged, Priced(catalog)(measured[i])) else merged)
  {
    PricedUpTo(catalog, synthetic, measured, i);
    var before := Written(catalog, synthetic, measured[..i]);
    assert before + [] == before;
    StoreMerges(before, merged, Priced(catalog)(measured[i]));
  }

  /** All entries written, in order: the synthetic ones, then the measured ones that have samples. */
  function Written(catalog: map<string, ModelInfo>, synthetic: seq<Entry>, measured: seq<Entry>): seq<Entry> {
    synthetic + Map(Priced(catalog), Filter(Sampled, measured))
  }

  lemma PricedUpTo(catalog: map<string, ModelInfo>, synthetic: seq<Entry>, measured: seq<Entry>, i: nat)
    requires i < |measured|
    ensures Written(catalog, synthetic, measured[..i + 1])
         == Written(catalog, synthetic, measured[..i])
            + if Sampled(measured[i]) then [Priced(catalog)(measured[i])] else []
  {
    FilterUpTo(Priced(catalog), Sampled, measured, i);
    Reassociate(synthetic, Map(Priced(catalog), Filter(Sampled, measured[..i])),
                if Sampled(measured[i]) then [Priced(catalog)(measured[i])] else []);
  }
}
