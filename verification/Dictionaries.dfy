/** Insertion-ordered dictionaries, as the sequence of their values; a value tells its key. */
module Dictionaries {
  import opened Options

  /** The dictionary after `x` is stored under its key: a value that is replaced keeps its place. */
  function Store<K(==), A>(key: A -> K, dict: seq<A>, x: A): seq<A> {
    if dict == [] then [x]
    else if key(dict[0]) == key(x) then [x] + dict[1..]
    else [dict[0]] + Store(key, dict[1..], x)
  }

  function StoreAll<K(==), A>(key: A -> K, xs: seq<A>): seq<A> {
    if xs == [] then [] else Store(key, StoreAll(key, xs[..|xs| - 1]), xs[|xs| - 1])
  }

  function Lookup<K(==), A>(key: A -> K, dict: seq<A>, k: K): (r: Option<A>)
    ensures r.Some? ==> r.value in dict && key(r.value) == k
    ensures r.None? ==> forall x :: x in dict ==> key(x) != k
  {
    if dict == [] then None else if key(dict[0]) == k then Some(dict[0]) else Lookup(key, dict[1..], k)
  }

  predicate DistinctKeys<K(==), A>(key: A -> K, xs: seq<A>) {
    forall i, j :: 0 <= i < j < |xs| ==> key(xs[i]) != key(xs[j])
  }

  /** Nothing written later has this key. */
  predicate IsLast<K(==), A>(key: A -> K, written: seq<A>, i: nat) {
    i < |written| && forall j :: i < j < |written| ==> key(written[i]) != key(written[j])
  }

  ghost predicate WrittenLast<K, A>(key: A -> K, written: seq<A>, x: A) {
    exists i: nat :: IsLast(key, written, i) && written[i] == x
  }

  /** `dict` holds exactly the last value written under each key, once. */
  ghost predicate HoldsLast<K, A(!new)>(key: A -> K, written: seq<A>, dict: seq<A>) {
    && DistinctKeys(key, dict)
    && forall x {:trigger WrittenLast(key, written, x)} :: x in dict <==> WrittenLast(key, written, x)
  }

  lemma {:induction false} StoreMembers<K, A(!new)>(key: A -> K, dict: seq<A>, x: A)
    requires DistinctKeys(key, dict)
    ensures DistinctKeys(key, Store(key, dict, x))
    ensures forall y :: y in Store(key, dict, x) <==> y == x || (y in dict && key(y) != key(x))
  {
    if dict != [] && key(dict[0]) != key(x) {
      StoreMembers(key, dict[1..], x);
      assert dict == [dict[0]] + dict[1..];
      var rest := Store(key, dict[1..], x);
      forall j | 0 <= j < |rest| ensures key(dict[0]) != key(rest[j]) {
        assert rest[j] in rest;
      }
    }
  }

  lemma WrittenLastSnoc<K, A>(key: A -> K, written: seq<A>, x: A, y: A)
    ensures WrittenLast(key, written + [x], y) <==> y == x || (WrittenLast(key, written, y) && key(y) != key(x))
  {
    var w := written + [x];
    assert IsLast(key, w, |written|);
    if i: nat :| IsLast(key, written, i) && written[i] == y && key(y) != key(x) {
      assert IsLast(key, w, i);
    }
    if i: nat :| IsLast(key, w, i) && w[i] == y && i < |written| {
      forall j | i < j < |written| ensures key(written[i]) != key(written[j]) {
        assert w[j] == written[j];
      }
      assert IsLast(key, written, i);
      assert key(w[i]) != key(w[|written|]);
    }
  }

  lemma StoreHoldsLast<K, A(!new)>(key: A -> K, written: seq<A>, dict: seq<A>, x: A)
    requires HoldsLast(key, written, dict)
    ensures HoldsLast(key, written + [x], Store(key, dict, x))
  {
    StoreMembers(key, dict, x);
    forall y ensures y in Store(key, dict, x) <==> WrittenLast(key, written + [x], y) {
      WrittenLastSnoc(key, written, x, y);
      assert y in dict <==> WrittenLast(key, written, y);
    }
  }

  lemma {:induction false} StoreNew<K, A>(key: A -> K, dict: seq<A>, x: A)
    requires forall i :: 0 <= i < |dict| ==> key(dict[i]) != key(x)
    ensures Store(key, dict, x) == dict + [x]
  {
    if dict != [] {
      StoreNew(key, dict[1..], x);
    }
  }

  /** Values with distinct keys are stored as they come. */
  lemma {:induction false} StoreDistinct<K, A>(key: A -> K, xs: seq<A>)
    requires DistinctKeys(key, xs)
    ensures StoreAll(key, xs) == xs
  {
    if xs != [] {
      StoreDistinct(key, xs[..|xs| - 1]);
      StoreNew(key, xs[..|xs| - 1], xs[|xs| - 1]);
    }
  }

  lemma {:induction false} StoreAllHoldsLast<K, A(!new)>(key: A -> K, xs: seq<A>)
    ensures HoldsLast(key, xs, StoreAll(key, xs))
  {
    if xs != [] {
      var before, last := xs[..|xs| - 1], xs[|xs| - 1];
      StoreAllHoldsLast(key, before);
      StoreHoldsLast(key, before, StoreAll(key, before), last);
      assert xs == before + [last];
    }
  }

  // ---------- the order of the values ----------

  /** Where a key was first written. */
  function FirstPlace<K(==), A>(key: A -> K, written: seq<A>, k: K): (n: nat)
    ensures n <= |written| && (n < |written| ==> key(written[n]) == k)
    ensures forall i :: 0 <= i < n ==> key(written[i]) != k
  {
    if written == [] || key(written[0]) == k then 0 else 1 + FirstPlace(key, written[1..], k)
  }

  /** The values stand in the order in which their keys were first written. */
  predicate InFirstOrder<K(==), A>(key: A -> K, written: seq<A>, dict: seq<A>) {
    && (forall i :: 0 <= i < |dict| ==> FirstPlace(key, written, key(dict[i])) < |written|)
    && forall i, j :: 0 <= i < j < |dict| ==>
         FirstPlace(key, written, key(dict[i])) < FirstPlace(key, written, key(dict[j]))
  }

  lemma {:induction false} FirstPlaceSnoc<K, A>(key: A -> K, written: seq<A>, x: A, k: K)
    ensures FirstPlace(key, written + [x], k)
         == if FirstPlace(key, written, k) < |written| then FirstPlace(key, written, k)
            else if key(x) == k then |written| else |written| + 1
  {
    if written != [] && key(written[0]) != k {
      FirstPlaceSnoc(key, written[1..], x, k);
      assert (written + [x])[1..] == written[1..] + [x];
    }
  }

  /** Storing replaces the value under a key in place, or adds one at the end. */
  lemma {:induction false} StoreKeys<K, A>(key: A -> K, dict: seq<A>, x: A)
    ensures |dict| <= |Store(key, dict, x)| <= |dict| + 1
    ensures forall i :: 0 <= i < |dict| ==> key(Store(key, dict, x)[i]) == key(dict[i])
    ensures |Store(key, dict, x)| == |dict| + 1 ==>
              key(Store(key, dict, x)[|dict|]) == key(x) && forall i :: 0 <= i < |dict| ==> key(dict[i]) != key(x)
  {
    if dict != [] && key(dict[0]) != key(x) {
      StoreKeys(key, dict[1..], x);
    }
  }

  lemma StoreKeepsOrder<K, A(!new)>(key: A -> K, written: seq<A>, dict: seq<A>, x: A)
    requires InFirstOrder(key, written, dict) && HoldsLast(key, written, dict)
    ensures InFirstOrder(key, written + [x], Store(key, dict, x))
  {
    var d := Store(key, dict, x);
    StoreKeys(key, dict, x);
    forall i | 0 <= i < |d|
      ensures FirstPlace(key, written + [x], key(d[i]))
           == if i < |dict| then FirstPlace(key, written, key(dict[i])) else |written|
    {
      FirstPlaceSnoc(key, written, x, key(d[i]));
      if i == |dict| {
        NewKeyIsUnwritten(key, written, dict, key(x));
      }
    }
    PlacesInOrder(key, written, dict, written + [x], d);
  }

  lemma PlacesInOrder<K, A>(key: A -> K, written: seq<A>, dict: seq<A>, w: seq<A>, d: seq<A>)
    requires InFirstOrder(key, written, dict) && |w| == |written| + 1 && |dict| <= |d| <= |dict| + 1
    requires forall i :: 0 <= i < |d| ==>
               FirstPlace(key, w, key(d[i])) == if i < |dict| then FirstPlace(key, written, key(dict[i])) else |written|
    ensures InFirstOrder(key, w, d)
  {
  }

  /** A key that the dictionary lacks was never written. */
  lemma NewKeyIsUnwritten<K, A(!new)>(key: A -> K, written: seq<A>, dict: seq<A>, k: K)
    requires HoldsLast(key, written, dict) && forall i :: 0 <= i < |dict| ==> key(dict[i]) != k
    ensures FirstPlace(key, written, k) == |written|
  {
    if FirstPlace(key, written, k) < |written| {
      var n := LastPlace(key, written, FirstPlace(key, written, k));
      assert WrittenLast(key, written, written[n]);
    }
  }

  lemma {:induction false} LastPlace<K, A>(key: A -> K, written: seq<A>, i: nat) returns (n: nat)
    requires i < |written|
    ensures IsLast(key, written, n) && key(written[n]) == key(written[i])
    decreases |written| - i
  {
    if IsLast(key, written, i) {
      return i;
    }
    var j :| i < j < |written| && key(written[i]) == key(written[j]);
    n := LastPlace(key, written, j);
  }
}
