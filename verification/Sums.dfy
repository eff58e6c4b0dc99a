/** Sums over sequences. */
module Sums {

  function SumOf<A>(f: A -> real, xs: seq<A>): real {
    if xs == [] then 0.0 else SumOf(f, xs[..|xs| - 1]) + f(xs[|xs| - 1])
  }

  lemma SumSnoc<A>(f: A -> real, xs: seq<A>, x: A)
    ensures SumOf(f, xs + [x]) == SumOf(f, xs) + f(x)
  {
  }

  lemma SumUpTo<A>(f: A -> real, xs: seq<A>, i: nat)
    requires i < |xs|
    ensures SumOf(f, xs[..i + 1]) == SumOf(f, xs[..i]) + f(xs[i])
  {
    assert xs[..i + 1] == xs[..i] + [xs[i]];
    SumSnoc(f, xs[..i], xs[i]);
  }

  lemma {:induction false} SumConcat<A>(f: A -> real, xs: seq<A>, ys: seq<A>)
    ensures SumOf(f, xs + ys) == SumOf(f, xs) + SumOf(f, ys)
  {
    if ys == [] {
      assert xs + ys == xs;
    } else {
      var before, last := ys[..|ys| - 1], ys[|ys| - 1];
      SumConcat(f, xs, before);
      SumSnoc(f, xs + before, last);
      assert xs + ys == xs + before + [last];
    }
  }

  lemma {:induction false} SumAgrees<A, B>(f: A -> real, xs: seq<A>, g: B -> real, ys: seq<B>)
    requires |xs| == |ys| && forall i :: 0 <= i < |xs| ==> f(xs[i]) == g(ys[i])
    ensures SumOf(f, xs) == SumOf(g, ys)
  {
    if xs != [] {
      SumAgrees(f, xs[..|xs| - 1], g, ys[..|ys| - 1]);
    }
  }

  /** A function that differs in one place. */
  lemma {:induction false} SumChanges<A>(f: A -> real, g: A -> real, xs: seq<A>, k: nat, change: real)
    requires k < |xs| && g(xs[k]) == f(xs[k]) + change
    requires forall i :: 0 <= i < |xs| && i != k ==> g(xs[i]) == f(xs[i])
    ensures SumOf(g, xs) == SumOf(f, xs) + change
  {
    var before := xs[..|xs| - 1];
    if k == |before| {
      SumAgrees(g, before, f, before);
    } else {
      SumChanges(f, g, before, k, change);
    }
  }

  lemma {:induction false} SumZero<A>(f: A -> real, xs: seq<A>)
    requires forall i :: 0 <= i < |xs| ==> f(xs[i]) == 0.0
    ensures SumOf(f, xs) == 0.0
  {
    if xs != [] {
      SumZero(f, xs[..|xs| - 1]);
    }
  }

  predicate Within(x: real, y: real, bound: real) { y - bound <= x <= y + bound }

  /** Terms that are close in pairs have close sums. */
  lemma {:induction false} CloseSums<A, B>(f: A -> real, xs: seq<A>, g: B -> real, ys: seq<B>, bound: real)
    requires |xs| == |ys| && forall i :: 0 <= i < |xs| ==> Within(f(xs[i]), g(ys[i]), bound)
    ensures Within(SumOf(f, xs), SumOf(g, ys), |xs| as real * bound)
  {
    if xs != [] {
      var n := |xs| - 1;
      CloseSums(f, xs[..n], g, ys[..n], bound);
      assert Within(f(xs[n]), g(ys[n]), bound);
      assert (n + 1) as real * bound == n as real * bound + bound;
    }
  }

  lemma {:induction false} SumAdds<A>(f: A -> real, g: A -> real, h: A -> real, xs: seq<A>)
    requires forall i :: 0 <= i < |xs| ==> h(xs[i]) == f(xs[i]) + g(xs[i])
    ensures SumOf(h, xs) == SumOf(f, xs) + SumOf(g, xs)
  {
    if xs != [] {
      SumAdds(f, g, h, xs[..|xs| - 1]);
    }
  }

  lemma SumCons<A>(f: A -> real, x: A, xs: seq<A>)
    ensures SumOf(f, [x] + xs) == f(x) + SumOf(f, xs)
  {
    SumConcat(f, [x], xs);
    SumSnoc(f, [], x);
    assert [] + [x] == [x];
  }

  lemma {:induction false} SumNonNegative<A>(f: A -> real, xs: seq<A>)
    requires forall i :: 0 <= i < |xs| ==> f(xs[i]) >= 0.0
    ensures SumOf(f, xs) >= 0.0
    ensures SumOf(f, xs) == 0.0 <==> forall i :: 0 <= i < |xs| ==> f(xs[i]) == 0.0
  {
    if xs != [] {
      SumNonNegative(f, xs[..|xs| - 1]);
    }
  }

  lemma {:induction false} SumSingle<A>(f: A -> real, xs: seq<A>, k: nat)
    requires k < |xs| && forall i :: 0 <= i < |xs| && i != k ==> f(xs[i]) == 0.0
    ensures SumOf(f, xs) == f(xs[k])
  {
    var before := xs[..|xs| - 1];
    if k == |before| {
      SumZero(f, before);
    } else {
      SumSingle(f, before, k);
    }
  }

  /** `n` times `a`. */
  function Times(n: nat, a: real): real { if n == 0 then 0.0 else Times(n - 1, a) + a }

  lemma {:induction false} TimesIsProduct(n: nat, a: real)
    ensures Times(n, a) == n as real * a
  {
    if n > 0 {
      TimesIsProduct(n - 1, a);
      assert n as real * a == (n - 1) as real * a + a;
    }
  }

  lemma {:induction false} TimesZero(n: nat, a: real)
    requires a >= 0.0
    ensures Times(n, a) >= 0.0 && (Times(n, a) == 0.0 <==> n == 0 || a == 0.0)
  {
    if n > 0 {
      TimesZero(n - 1, a);
    }
  }
}
