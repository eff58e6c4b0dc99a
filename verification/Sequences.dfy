/** List comprehensions over sequences. */
module Sequences {

  function Map<A, B>(f: A -> B, xs: seq<A>): (r: seq<B>)
    ensures |r| == |xs| && forall i :: 0 <= i < |xs| ==> r[i] == f(xs[i])
  {
    if xs == [] then [] else [f(xs[0])] + Map(f, xs[1..])
  }

  function Filter<A(!new)>(p: A -> bool, xs: seq<A>): (r: seq<A>)
    ensures |r| <= |xs|
    ensures forall x :: x in r <==> x in xs && p(x)
  {
    if xs == [] then [] else (if p(xs[0]) then [xs[0]] else []) + Filter(p, xs[1..])
  }

  lemma SplitLast<A>(xs: seq<A>)
    requires xs != []
    ensures xs == xs[..|xs| - 1] + [xs[|xs| - 1]]
  {
  }

  lemma SplitFirst<A>(xs: seq<A>)
    requires xs != []
    ensures xs == [xs[0]] + xs[1..]
  {
  }

  lemma TakeOneMore<T>(xs: seq<T>, k: nat)
    requires k < |xs|
    ensures xs[k] == xs[k..][0] && xs[k + 1..] == xs[k..][1..] && xs[..k + 1] == xs[..k] + [xs[k]]
  {
  }

  lemma Reassociate<A>(a: seq<A>, b: seq<A>, c: seq<A>)
    ensures (a + b) + c == a + (b + c)
  {
  }

  function FlatMap<A, B>(f: A -> seq<B>, xs: seq<A>): seq<B> {
    if xs == [] then [] else f(xs[0]) + FlatMap(f, xs[1..])
  }

  lemma {:induction false} FlatMapConcat<A, B>(f: A -> seq<B>, xs: seq<A>, ys: seq<A>)
    ensures FlatMap(f, xs + ys) == FlatMap(f, xs) + FlatMap(f, ys)
  {
    if xs == [] {
      assert xs + ys == ys;
    } else {
      assert (xs + ys)[1..] == xs[1..] + ys;
      FlatMapConcat(f, xs[1..], ys);
    }
  }

  lemma FlatMapSnoc<A, B>(f: A -> seq<B>, xs: seq<A>, x: A)
    ensures FlatMap(f, xs + [x]) == FlatMap(f, xs) + f(x)
  {
    FlatMapConcat(f, xs, [x]);
  }

  lemma FlatMapUpTo<A, B>(f: A -> seq<B>, xs: seq<A>, i: nat)
    requires i < |xs|
    ensures FlatMap(f, xs[..i + 1]) == FlatMap(f, xs[..i]) + f(xs[i])
  {
    assert xs[..i + 1] == xs[..i] + [xs[i]];
    FlatMapSnoc(f, xs[..i], xs[i]);
  }

  lemma FlatMapFew<A, B>(f: A -> seq<B>, x: A, y: A)
    ensures FlatMap(f, [x]) == f(x) && FlatMap(f, [x, y]) == f(x) + f(y)
  {
    assert [y][1..] == [] && f(y) + [] == f(y) && f(x) + [] == f(x);
    assert FlatMap(f, [y]) == f(y);
    assert [x, y][1..] == [y];
  }

  lemma {:induction false} FlatMapAgrees<A, B, C>(f: A -> seq<C>, g: B -> seq<C>, xs: seq<A>, ys: seq<B>)
    requires |xs| == |ys| && forall i :: 0 <= i < |xs| ==> f(xs[i]) == g(ys[i])
    ensures FlatMap(f, xs) == FlatMap(g, ys)
  {
    if xs != [] {
      FlatMapAgrees(f, g, xs[1..], ys[1..]);
    }
  }

  /** Mapping twice, the first time one to many. */
  lemma {:induction false} FlatMapTwice<A(!new), B, C>(f: B -> seq<C>, g: A -> seq<B>, h: A -> seq<C>, xs: seq<A>)
    requires forall x :: x in xs ==> FlatMap(f, g(x)) == h(x)
    ensures FlatMap(f, FlatMap(g, xs)) == FlatMap(h, xs)
  {
    if xs != [] {
      FlatMapConcat(f, g(xs[0]), FlatMap(g, xs[1..]));
      FlatMapTwice(f, g, h, xs[1..]);
    }
  }

  lemma {:induction false} FlatMapMember<A, B>(f: A -> seq<B>, xs: seq<A>, y: B)
    ensures y in FlatMap(f, xs) <==> exists i :: 0 <= i < |xs| && y in f(xs[i])
  {
    if xs != [] {
      FlatMapMember(f, xs[1..], y);
      if i :| 0 <= i < |xs| && y in f(xs[i]) {
        assert i > 0 ==> xs[1..][i - 1] == xs[i];
      }
    }
  }

  lemma FlatMapHas<A, B>(f: A -> seq<B>, xs: seq<A>, i: nat, y: B)
    requires i < |xs| && y in f(xs[i])
    ensures y in FlatMap(f, xs)
  {
    FlatMapMember(f, xs, y);
  }

  lemma {:induction false} FilterConcat<A(!new)>(p: A -> bool, xs: seq<A>, ys: seq<A>)
    ensures Filter(p, xs + ys) == Filter(p, xs) + Filter(p, ys)
  {
    if xs == [] {
      assert xs + ys == ys;
    } else {
      assert (xs + ys)[1..] == xs[1..] + ys;
      FilterConcat(p, xs[1..], ys);
    }
  }

  lemma FilterSnoc<A(!new)>(p: A -> bool, xs: seq<A>, x: A)
    ensures Filter(p, xs + [x]) == Filter(p, xs) + if p(x) then [x] else []
  {
    FilterConcat(p, xs, [x]);
    assert [x][1..] == [];
    assert [x] + [] == [x];
  }

  lemma FilterUpTo<A(!new), B>(f: A -> B, p: A -> bool, xs: seq<A>, i: nat)
    requires i < |xs|
    ensures Map(f, Filter(p, xs[..i + 1])) == Map(f, Filter(p, xs[..i])) + if p(xs[i]) then [f(xs[i])] else []
  {
    assert xs[..i + 1] == xs[..i] + [xs[i]];
    FilterSnoc(p, xs[..i], xs[i]);
    var kept := Filter(p, xs[..i]);
    assert kept + [] == kept;
    assert Map(f, kept + [xs[i]]) == Map(f, kept) + [f(xs[i])];
  }

  lemma {:induction false} FilterAll<A(!new)>(p: A -> bool, xs: seq<A>)
    ensures Filter(p, xs) == xs <==> forall x :: x in xs ==> p(x)
  {
    if xs != [] {
      FilterAll(p, xs[1..]);
      FilterFull(p, xs[1..]);
    }
  }

  lemma {:induction false} FilterFull<A(!new)>(p: A -> bool, xs: seq<A>)
    ensures |Filter(p, xs)| == |xs| ==> Filter(p, xs) == xs
  {
    if xs != [] {
      FilterFull(p, xs[1..]);
    }
  }

  lemma {:induction false} FilterSame<A(!new)>(p: A -> bool, q: A -> bool, xs: seq<A>)
    requires forall x :: x in xs ==> p(x) == q(x)
    ensures Filter(p, xs) == Filter(q, xs)
  {
    if xs != [] {
      FilterSame(p, q, xs[1..]);
    }
  }

  /** Filtering commutes with a one-to-many map that filters alike. */
  lemma {:induction false} FilterFlatMap<A(!new), B(!new)>(p: B -> bool, f: A -> seq<B>, g: A -> seq<B>, xs: seq<A>)
    requires forall x :: x in xs ==> g(x) == Filter(p, f(x))
    ensures FlatMap(g, xs) == Filter(p, FlatMap(f, xs))
  {
    if xs != [] {
      FilterConcat(p, f(xs[0]), FlatMap(f, xs[1..]));
      FilterFlatMap(p, f, g, xs[1..]);
    }
  }

  /** A one-to-many map sees a filtered sequence as it sees the whole, when it ignores what was dropped. */
  lemma {:induction false} FlatMapFilter<A(!new), B>(f: A -> seq<B>, p: A -> bool, xs: seq<A>)
    requires forall x :: x in xs && !p(x) ==> f(x) == []
    ensures FlatMap(f, Filter(p, xs)) == FlatMap(f, xs)
  {
    if xs != [] {
      FlatMapFilter(f, p, xs[1..]);
      FlatMapConcat(f, if p(xs[0]) then [xs[0]] else [], Filter(p, xs[1..]));
    }
  }

  lemma {:induction false} MapConcat<A, B>(f: A -> B, xs: seq<A>, ys: seq<A>)
    ensures Map(f, xs + ys) == Map(f, xs) + Map(f, ys)
  {
  }

  /** A one-to-many map whose values are all mapped once more. */
  lemma {:induction false} FlatMapMapped<A, B>(f: A -> seq<B>, h: B -> B, xs: seq<A>, ys: seq<A>)
    requires |xs| == |ys| && forall i :: 0 <= i < |xs| ==> f(ys[i]) == Map(h, f(xs[i]))
    ensures FlatMap(f, ys) == Map(h, FlatMap(f, xs))
  {
    if xs != [] {
      FlatMapMapped(f, h, xs[1..], ys[1..]);
      MapConcat(h, f(xs[0]), FlatMap(f, xs[1..]));
    }
  }

  lemma MapInTurn<A, B, C>(f: A -> C, xs: seq<A>, g: B -> C, ys: seq<B>, k: nat)
    ensures k < |xs| ==> (Map(f, xs) + Map(g, ys))[k] == f(xs[k])
    ensures k < |ys| ==> (Map(f, xs) + Map(g, ys))[|xs| + k] == g(ys[k])
  {
  }

  predicate Distinct<A(==)>(xs: seq<A>) {
    forall i, j :: 0 <= i < j < |xs| ==> xs[i] != xs[j]
  }
}
