/** Scans over row ranges, order-preserving duplicate removal and
    filtering: the shapes in which the matcher's output is specified,
    independent of what a cell holds. */
module Unique {
  import opened Outcomes

  /** `f(i)` for every index `lo <= i < hi` with `ok(i)`, in index order:
      a `for i in range(lo, hi)` loop that keeps the rows passing a test. */
  function Hits<T>(ok: int -> bool, f: int -> T, lo: int, hi: int): (r: seq<T>)
    decreases hi - lo
  {
    if hi <= lo then [] else Hits(ok, f, lo, hi - 1) + (if ok(hi - 1) then [f(hi - 1)] else [])
  }

  /** `g(lo) + g(lo + 1) + ... + g(hi - 1)`. */
  function Concat<T>(g: int -> seq<T>, lo: int, hi: int): (r: seq<T>)
    decreases hi - lo
  {
    if hi <= lo then [] else Concat(g, lo, hi - 1) + g(hi - 1)
  }

  /** One more index extends the hits by that index exactly when it
      passes. */
  lemma HitsNext<T>(ok: int -> bool, f: int -> T, lo: int, hi: int, prefix: seq<T>)
    requires lo <= hi
    ensures !ok(hi) ==> prefix + Hits(ok, f, lo, hi + 1) == prefix + Hits(ok, f, lo, hi)
    ensures ok(hi) ==> prefix + Hits(ok, f, lo, hi + 1) == (prefix + Hits(ok, f, lo, hi)) + [f(hi)]
  {
    var h := Hits(ok, f, lo, hi);
    if !ok(hi) {
      assert Hits(ok, f, lo, hi + 1) == h + [];
      assert h + [] == h;
    }
  }

  lemma ConcatNext<T>(g: int -> seq<T>, lo: int, hi: int, prefix: seq<T>)
    requires lo <= hi
    ensures prefix + Concat(g, lo, hi + 1) == (prefix + Concat(g, lo, hi)) + g(hi)
  {
  }

  /** The hits are exactly the images of the passing indices. */
  lemma {:induction false} HitsElements<T>(ok: int -> bool, f: int -> T, lo: int, hi: int, x: T)
    ensures x in Hits(ok, f, lo, hi) <==> exists i :: lo <= i < hi && ok(i) && f(i) == x
    decreases hi - lo
  {
    if hi > lo {
      var init := Hits(ok, f, lo, hi - 1);
      HitsElements(ok, f, lo, hi - 1, x);
      if x in Hits(ok, f, lo, hi) && x !in init {
        assert ok(hi - 1) && f(hi - 1) == x;
      }
    }
  }

  /** An element of a concatenation comes from one of its parts. */
  lemma {:induction false} ConcatElements<T>(g: int -> seq<T>, lo: int, hi: int, x: T)
    ensures x in Concat(g, lo, hi) <==> exists i :: lo <= i < hi && x in g(i)
    decreases hi - lo
  {
    if hi > lo {
      ConcatElements(g, lo, hi - 1, x);
      if x in Concat(g, lo, hi) && x !in Concat(g, lo, hi - 1) {
        assert x in g(hi - 1);
      }
    }
  }

  /** Strengthening the test by a property of the kept value filters the
      hits. */
  lemma {:induction false} HitsFilter<T>(ok: int -> bool, stricter: int -> bool, p: T -> bool,
                                         f: int -> T, lo: int, hi: int)
    requires forall i :: lo <= i < hi ==> stricter(i) == (ok(i) && p(f(i)))
    ensures Hits(stricter, f, lo, hi) == Filter(p, Hits(ok, f, lo, hi))
    decreases hi - lo
  {
    if hi > lo {
      HitsFilter(ok, stricter, p, f, lo, hi - 1);
      var tail := if ok(hi - 1) then [f(hi - 1)] else [];
      FilterAppend(p, Hits(ok, f, lo, hi - 1), tail);
      if ok(hi - 1) {
        assert Filter(p, tail) == if p(f(hi - 1)) then [f(hi - 1)] else [];
      }
    }
  }

  /** Filtering every part filters the concatenation. */
  lemma {:induction false} ConcatFilter<T>(g: int -> seq<T>, filtered: int -> seq<T>, p: T -> bool,
                                           lo: int, hi: int)
    requires forall i :: lo <= i < hi ==> filtered(i) == Filter(p, g(i))
    ensures Concat(filtered, lo, hi) == Filter(p, Concat(g, lo, hi))
    decreases hi - lo
  {
    if hi > lo {
      ConcatFilter(g, filtered, p, lo, hi - 1);
      FilterAppend(p, Concat(g, lo, hi - 1), g(hi - 1));
    }
  }

  /** The elements of `xs` that are not equal to an earlier element, in
      their original order: what a scan that records every element in a
      `set` and skips the ones already recorded lets through. */
  function Dedup<T(==)>(xs: seq<T>): (r: seq<T>) {
    if xs == [] then []
    else
      var init := xs[..|xs| - 1];
      var x := xs[|xs| - 1];
      if x in init then Dedup(init) else Dedup(init) + [x]
  }

  /** The elements of `xs` satisfying `p`, in order. */
  function Filter<T>(p: T -> bool, xs: seq<T>): (r: seq<T>) {
    if xs == [] then []
    else
      var init := xs[..|xs| - 1];
      var x := xs[|xs| - 1];
      if p(x) then Filter(p, init) + [x] else Filter(p, init)
  }

  predicate Distinct<T(==)>(xs: seq<T>) {
    forall i, j :: 0 <= i < j < |xs| ==> xs[i] != xs[j]
  }

  /** `Dedup` drops exactly the repeats: it keeps every value of `xs` and
      keeps none twice. */
  lemma {:induction false} DedupElements<T>(xs: seq<T>)
    ensures forall x :: x in Dedup(xs) <==> x in xs
    ensures Distinct(Dedup(xs))
    ensures |Dedup(xs)| <= |xs|
  {
    if xs != [] {
      var init := xs[..|xs| - 1];
      DedupElements(init);
      assert xs == init + [xs[|xs| - 1]];
    }
  }

  /** The survivors of `Dedup` are first occurrences taken in increasing
      position: the result keeps the order of `xs`. */
  lemma {:induction false} DedupPositions<T>(xs: seq<T>) returns (idx: seq<nat>)
    ensures |idx| == |Dedup(xs)|
    ensures forall k :: 0 <= k < |idx| ==> idx[k] < |xs| && Dedup(xs)[k] == xs[idx[k]]
    ensures forall k :: 0 <= k < |idx| ==> xs[idx[k]] !in xs[..idx[k]]
    ensures forall k, l :: 0 <= k < l < |idx| ==> idx[k] < idx[l]
  {
    if xs == [] {
      idx := [];
    } else {
      var n := |xs| - 1;
      var init := xs[..n];
      var before := DedupPositions(init);
      assert forall k :: 0 <= k < |before| ==> xs[..before[k]] == init[..before[k]];
      if xs[n] in init {
        idx := before;
      } else {
        idx := before + [n];
      }
    }
  }

  lemma {:induction false} FilterElements<T>(p: T -> bool, xs: seq<T>)
    ensures forall x :: x in Filter(p, xs) <==> x in xs && p(x)
    ensures |Filter(p, xs)| <= |xs|
  {
    if xs != [] {
      FilterElements(p, xs[..|xs| - 1]);
      assert xs == xs[..|xs| - 1] + [xs[|xs| - 1]];
    }
  }

  /** Filtering by a property of the element itself commutes with
      duplicate removal: an element and its repeats pass or fail together. */
  lemma {:induction false} DedupFilter<T>(p: T -> bool, xs: seq<T>)
    ensures Dedup(Filter(p, xs)) == Filter(p, Dedup(xs))
  {
    if xs != [] {
      var init := xs[..|xs| - 1];
      var x := xs[|xs| - 1];
      DedupFilter(p, init);
      FilterElements(p, init);
      var fi := Filter(p, init);
      if p(x) {
        assert Filter(p, xs) == fi + [x];
        assert (fi + [x])[..|fi|] == fi;
        if x !in init {
          assert Filter(p, Dedup(init) + [x]) == Filter(p, Dedup(init)) + [x] by {
            assert (Dedup(init) + [x])[..|Dedup(init)|] == Dedup(init);
          }
        }
      } else if x !in init {
        assert (Dedup(init) + [x])[..|Dedup(init)|] == Dedup(init);
      }
    }
  }

  lemma {:induction false} FilterAppend<T>(p: T -> bool, xs: seq<T>, ys: seq<T>)
    ensures Filter(p, xs + ys) == Filter(p, xs) + Filter(p, ys)
  {
    if ys == [] {
      assert xs + ys == xs;
    } else {
      var init := ys[..|ys| - 1];
      FilterAppend(p, xs, init);
      assert (xs + ys)[..|xs + ys| - 1] == xs + init;
    }
  }

  /** The least index `lo <= i < hi` with `p(i)`: a `for` loop over the
      range that stops at its first hit. */
  function First(p: int -> bool, lo: int, hi: int): (r: Option<int>)
    decreases hi - lo
  {
    if hi <= lo then None
    else if p(lo) then Some(lo)
    else First(p, lo + 1, hi)
  }

  /** `First` finds an index exactly when some index of the range passes,
      and then the least passing one. */
  lemma {:induction false} FirstLeast(p: int -> bool, lo: int, hi: int)
    ensures var m := First(p, lo, hi);
      && (m.Some? ==> lo <= m.value < hi && p(m.value))
      && (m.Some? ==> forall q :: lo <= q < m.value ==> !p(q))
      && (m.None? <==> forall q :: lo <= q < hi ==> !p(q))
    decreases hi - lo
  {
    if lo < hi && !p(lo) {
      FirstLeast(p, lo + 1, hi);
      if First(p, lo + 1, hi).None? {
        forall q | lo <= q < hi ensures !p(q) {
          if q > lo { assert lo + 1 <= q < hi; }
        }
      }
    }
  }
}
