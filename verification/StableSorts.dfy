/** Sorting by a key without disturbing equal elements, and what comes first afterwards. */
module StableSorts {
  import opened Options
  import opened Sequences

  /** Before every element that is not smaller: `x` comes from before them all. */
  function Insert<A>(key: A -> real, x: A, xs: seq<A>): (r: seq<A>)
    ensures |r| == |xs| + 1
  {
    if xs == [] || key(x) <= key(xs[0]) then [x] + xs else [xs[0]] + Insert(key, x, xs[1..])
  }

  function SortBy<A>(key: A -> real, xs: seq<A>): (r: seq<A>)
    ensures |r| == |xs|
  {
    if xs == [] then [] else Insert(key, xs[0], SortBy(key, xs[1..]))
  }

  predicate Sorted<A>(key: A -> real, xs: seq<A>) {
    forall i, j :: 0 <= i < j < |xs| ==> key(xs[i]) <= key(xs[j])
  }

  lemma {:induction false} InsertKeepsMembers<A>(key: A -> real, x: A, xs: seq<A>)
    ensures multiset(Insert(key, x, xs)) == multiset(xs) + multiset{x}
  {
    if xs != [] {
      SplitFirst(xs);
      InsertKeepsMembers(key, x, xs[1..]);
    }
  }

  lemma SortedCons<A>(key: A -> real, x: A, xs: seq<A>)
    requires Sorted(key, xs) && forall y :: y in multiset(xs) ==> key(x) <= key(y)
    ensures Sorted(key, [x] + xs)
  {
  }

  lemma {:induction false} InsertSorts<A>(key: A -> real, x: A, xs: seq<A>)
    requires Sorted(key, xs)
    ensures Sorted(key, Insert(key, x, xs))
    ensures multiset(Insert(key, x, xs)) == multiset(xs) + multiset{x}
  {
    InsertKeepsMembers(key, x, xs);
    if xs != [] && key(x) > key(xs[0]) {
      InsertSorts(key, x, xs[1..]);
      InsertKeepsMembers(key, x, xs[1..]);
      SortedCons(key, xs[0], Insert(key, x, xs[1..]));
    } else {
      SortedCons(key, x, xs);
    }
  }

  lemma {:induction false} SortBySorts<A>(key: A -> real, xs: seq<A>)
    ensures Sorted(key, SortBy(key, xs))
    ensures multiset(SortBy(key, xs)) == multiset(xs)
  {
    if xs != [] {
      SortBySorts(key, xs[1..]);
      InsertSorts(key, xs[0], SortBy(key, xs[1..]));
      SplitFirst(xs);
    }
  }

  lemma FilterCons<A(!new)>(p: A -> bool, x: A, xs: seq<A>)
    ensures Filter(p, [x] + xs) == if p(x) then [x] + Filter(p, xs) else Filter(p, xs)
  {
  }

  lemma {:induction false} FilterInsert<A(!new)>(p: A -> bool, key: A -> real, x: A, xs: seq<A>)
    requires Sorted(key, xs)
    ensures Filter(p, Insert(key, x, xs)) == if p(x) then Insert(key, x, Filter(p, xs)) else Filter(p, xs)
  {
    if xs == [] || key(x) <= key(xs[0]) {
      FilterCons(p, x, xs);
      InsertInFront(key, x, Filter(p, xs));
    } else {
      FilterInsert(p, key, x, xs[1..]);
      var y, rest := xs[0], xs[1..];
      InsertLater(key, x, y, rest);
      InsertLater(key, x, y, Filter(p, rest));
      FilterCons(p, y, Insert(key, x, rest));
      FilterCons(p, y, rest);
      SplitFirst(xs);
    }
  }

  lemma InsertLater<A>(key: A -> real, x: A, y: A, xs: seq<A>)
    requires key(y) < key(x)
    ensures Insert(key, x, [y] + xs) == [y] + Insert(key, x, xs)
  {
  }

  lemma InsertInFront<A>(key: A -> real, x: A, xs: seq<A>)
    requires forall y :: y in xs ==> key(x) <= key(y)
    ensures Insert(key, x, xs) == [x] + xs
  {
  }

  lemma SortByCons<A>(key: A -> real, x: A, xs: seq<A>)
    ensures SortBy(key, [x] + xs) == Insert(key, x, SortBy(key, xs))
  {
  }

  /** Being stable, the sort commutes with filtering. */
  lemma {:induction false} FilterSortBy<A(!new)>(p: A -> bool, key: A -> real, xs: seq<A>)
    ensures Filter(p, SortBy(key, xs)) == SortBy(key, Filter(p, xs))
  {
    if xs != [] {
      SplitFirst(xs);
      FilterSortBy(p, key, xs[1..]);
      FilterCons(p, xs[0], xs[1..]);
      SortBySorts(key, xs[1..]);
      FilterInsert(p, key, xs[0], SortBy(key, xs[1..]));
      SortByCons(key, xs[0], Filter(p, xs[1..]));
    }
  }

  // ---------- the first smallest ----------

  function First<A>(xs: seq<A>): Option<A> { if xs == [] then None else Some(xs[0]) }

  predicate LexLess<A>(key: A -> real, tie: A -> real, x: A, y: A) {
    key(x) < key(y) || (key(x) == key(y) && tie(x) < tie(y))
  }

  /** The smallest by `key`, then by `tie`, then by position. */
  function Smallest<A>(key: A -> real, tie: A -> real, xs: seq<A>): Option<A> {
    if xs == [] then None
    else
      var rest := Smallest(key, tie, xs[1..]);
      if rest.Some? && LexLess(key, tie, rest.value, xs[0]) then rest else Some(xs[0])
  }

  /** The declarative form of it. */
  predicate IsSmallest<A>(p: A -> bool, key: A -> real, tie: A -> real, xs: seq<A>, i: nat) {
    && i < |xs| && p(xs[i])
    && forall j :: 0 <= j < |xs| && p(xs[j]) && j != i ==>
         LexLess(key, tie, xs[i], xs[j]) || (i < j && !LexLess(key, tie, xs[j], xs[i]))
  }

  /** Without a tie-break, it is what a stable sort puts first. */
  lemma {:induction false} FirstOfSort<A>(key: A -> real, xs: seq<A>)
    ensures First(SortBy(key, xs)) == Smallest(key, key, xs)
  {
    if xs != [] {
      FirstOfSort(key, xs[1..]);
    }
  }

  lemma {:induction false} SmallestIsMember<A>(key: A -> real, tie: A -> real, xs: seq<A>)
    ensures xs != [] ==> Smallest(key, tie, xs).Some? && Smallest(key, tie, xs).value in xs
  {
    if xs != [] {
      SmallestIsMember(key, tie, xs[1..]);
    }
  }

  lemma {:induction false} SmallestOfInsert<A>(key: A -> real, tie: A -> real, x: A, xs: seq<A>)
    requires Sorted(tie, xs)
    ensures Smallest(key, key, Insert(tie, x, xs))
         == var rest := Smallest(key, key, xs);
            if rest.Some? && LexLess(key, tie, rest.value, x) then rest else Some(x)
  {
    if xs != [] {
      SmallestOfInsert(key, tie, x, xs[1..]);
      SmallestIsMember(key, key, xs[1..]);
      SmallestIsMember(key, key, xs);
      if tie(x) <= tie(xs[0]) {
        assert ([x] + xs)[1..] == xs;
        var rest := Smallest(key, key, xs);
        assert tie(x) <= tie(rest.value);
      } else {
        var r := Insert(tie, x, xs);
        assert r[1..] == Insert(tie, x, xs[1..]);
      }
    }
  }

  /** Sorting twice, by the tie-break first and by the key after it, puts the lexicographically smallest first. */
  lemma {:induction false} SmallestOfSort<A>(key: A -> real, tie: A -> real, xs: seq<A>)
    ensures Smallest(key, key, SortBy(tie, xs)) == Smallest(key, tie, xs)
  {
    if xs != [] {
      SmallestOfSort(key, tie, xs[1..]);
      SortBySorts(tie, xs[1..]);
      SmallestOfInsert(key, tie, xs[0], SortBy(tie, xs[1..]));
    }
  }

  /** The smallest of the elements that pass the filter is the declarative one, and there is one if any passes. */
  lemma {:induction false} SmallestIsSmallest<A(!new)>(p: A -> bool, key: A -> real, tie: A -> real, xs: seq<A>)
    ensures Smallest(key, tie, Filter(p, xs)).None? <==> forall x :: x in xs ==> !p(x)
    ensures Smallest(key, tie, Filter(p, xs)).Some? ==>
              exists i: nat :: IsSmallest(p, key, tie, xs, i) && xs[i] == Smallest(key, tie, Filter(p, xs)).value
  {
    SmallestIsMember(key, tie, Filter(p, xs));
    if Filter(p, xs) == [] {
      NonePass(p, xs);
    } else {
      var i := SmallestIndex(p, key, tie, xs);
    }
  }

  lemma NonePass<A(!new)>(p: A -> bool, xs: seq<A>)
    requires Filter(p, xs) == []
    ensures forall x :: x in xs ==> !p(x)
  {
  }

  lemma {:induction false} SmallestIndex<A(!new)>(p: A -> bool, key: A -> real, tie: A -> real, xs: seq<A>)
    returns (i: nat)
    requires Filter(p, xs) != []
    ensures IsSmallest(p, key, tie, xs, i) && Smallest(key, tie, Filter(p, xs)) == Some(xs[i])
  {
    SplitFirst(xs);
    FilterCons(p, xs[0], xs[1..]);
    SmallestIsMember(key, tie, Filter(p, xs[1..]));
    if Filter(p, xs[1..]) == [] {
      NonePass(p, xs[1..]);
      forall j | 0 < j < |xs| ensures !p(xs[j]) {
        assert xs[j] == xs[1..][j - 1];
      }
      return 0;
    }
    i := SmallestIndex(p, key, tie, xs[1..]);
    SmallestCons(p, key, tie, xs, i);
    if !p(xs[0]) {
      return i + 1;
    }
    assert Filter(p, xs)[1..] == Filter(p, xs[1..]);
    if LexLess(key, tie, xs[i + 1], xs[0]) {
      return i + 1;
    }
    return 0;
  }

  lemma SmallestCons<A(!new)>(p: A -> bool, key: A -> real, tie: A -> real, xs: seq<A>, i: nat)
    requires xs != [] && IsSmallest(p, key, tie, xs[1..], i)
    ensures p(xs[0]) && !LexLess(key, tie, xs[i + 1], xs[0]) ==> IsSmallest(p, key, tie, xs, 0)
    ensures !p(xs[0]) || LexLess(key, tie, xs[i + 1], xs[0]) ==> IsSmallest(p, key, tie, xs, i + 1)
  {
  }

  lemma SmallestIsUnique<A>(p: A -> bool, key: A -> real, tie: A -> real, xs: seq<A>, i: nat, j: nat)
    requires IsSmallest(p, key, tie, xs, i) && IsSmallest(p, key, tie, xs, j)
    ensures i == j
  {
  }
}
