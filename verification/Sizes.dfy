/** Sizes of finite sets of integers. */
module Sizes {

  lemma SubsetSize<T>(a: set<T>, b: set<T>)
    requires a <= b
    ensures |a| <= |b|
  {
    if a == {} {
    } else {
      var x :| x in a;
      SubsetSize(a - {x}, b - {x});
    }
  }

  function Range(lo: int, hi: int): (r: set<int>)
    ensures forall i :: i in r <==> lo <= i < hi
    ensures |r| == if lo <= hi then hi - lo else 0
    decreases hi - lo
  {
    if lo >= hi then {} else Range(lo + 1, hi) + {lo}
  }

  /** Integers within a spread of less than `n` of one another are at most `n`. */
  lemma SpreadBound(a: set<int>, n: nat)
    requires forall x, y | x in a && y in a :: y - x < n
    ensures |a| <= n
  {
    if a != {} {
      var lo := Least(a);
      assert a <= Range(lo, lo + n);
      SubsetSize(a, Range(lo, lo + n));
    }
  }

  lemma AnyOf<T>(a: set<T>) returns (x: T)
    requires a != {}
    ensures x in a
  {
    x :| x in a;
  }

  lemma {:induction false} Least(a: set<int>) returns (lo: int)
    requires a != {}
    ensures lo in a && forall x | x in a :: lo <= x
    decreases |a|
  {
    var x := AnyOf(a);
    lo := x;
    var others := a - {x};
    assert a == others + {x};
    if others != {} {
      var other := Least(others);
      if other < lo { lo := other; }
    }
  }

  /** Steps of at least `p` add up. */
  predicate Spaced(g: seq<int>, p: int) {
    forall i | 0 <= i < |g| - 1 :: g[i + 1] - g[i] >= p
  }

  lemma {:induction false} SpacedFar(g: seq<int>, p: int, i: nat, j: nat)
    requires Spaced(g, p) && i <= j < |g|
    ensures g[j] - g[i] >= (j - i) * p
    decreases j
  {
    if i < j {
      SpacedFar(g, p, i, j - 1);
      assert (j - i) * p == (j - 1 - i) * p + p;
      assert g[(j - 1) + 1] - g[j - 1] >= p;
    }
  }

  lemma SpacedCons(x: int, g: seq<int>, p: int)
    requires Spaced(g, p) && (g != [] ==> g[0] - x >= p)
    ensures Spaced([x] + g, p)
  {
    var h := [x] + g;
    forall i | 0 <= i < |h| - 1 ensures h[i + 1] - h[i] >= p {
      assert h[i + 1] == g[i];
      if i > 0 { assert h[i] == g[i - 1] && g[(i - 1) + 1] - g[i - 1] >= p; }
    }
  }

  lemma ProductOrder(a: int, b: int, k: int)
    requires a <= b && 0 <= k
    ensures a * k <= b * k
  {
  }

  function InWindow(g: seq<int>, from: int, width: int): set<int> {
    set i | 0 <= i < |g| && from <= g[i] < from + width
  }

  /** A window narrower than `n` steps holds at most `n` entries. */
  lemma WindowBound(g: seq<int>, p: nat, from: int, width: int, n: nat)
    requires Spaced(g, p) && width <= n * p
    ensures |InWindow(g, from, width)| <= n
  {
    var w := InWindow(g, from, width);
    forall i, j | i in w && j in w ensures j - i < n {
      if i <= j {
        SpacedFar(g, p, i, j);
        if n <= j - i { ProductOrder(n, j - i, p); }
      }
    }
    SpreadBound(w, n);
  }

  /** Integers at least `step` apart in a window of at most `n` steps are at most `n`. */
  lemma {:induction false} ApartBound(a: set<int>, step: nat, lo: int, hi: int, n: nat)
    requires 1 <= step && hi - lo <= n * step
    requires forall x | x in a :: lo <= x < hi
    requires forall x, y | x in a && y in a && x < y :: step <= y - x
    ensures |a| <= n
    decreases n
  {
    if a != {} {
      var x := Least(a);
      if n == 0 {
        assert false;
      } else {
        assert (n - 1) * step == n * step - step;
        ApartBound(a - {x}, step, x + step, hi, n - 1);
      }
    }
  }
}
