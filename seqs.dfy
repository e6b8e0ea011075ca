/** Order-preserving filtering and the facts about it that the model relies on. */
module Seqs {

  /** The elements of `xs` that satisfy `keep`, in their original order. */
  function Filter<T>(xs: seq<T>, keep: T -> bool): (r: seq<T>)
    ensures |r| <= |xs|
  {
    if xs == [] then []
    else
      var n := |xs| - 1;
      Filter(xs[..n], keep) + (if keep(xs[n]) then [xs[n]] else [])
  }

  /** No two positions of `xs` hold the same element. */
  predicate Distinct<T(==)>(xs: seq<T>)
  {
    forall i, j :: 0 <= i < j < |xs| ==> xs[i] != xs[j]
  }

  lemma {:induction false} FilterMember<T>(xs: seq<T>, keep: T -> bool, x: T)
    ensures x in Filter(xs, keep) <==> x in xs && keep(x)
  {
    if xs != [] {
      var n := |xs| - 1;
      FilterMember(xs[..n], keep, x);
      assert xs == xs[..n] + [xs[n]];
    }
  }

  /** Filtering commutes with concatenation: it keeps relative order. */
  lemma {:induction false} FilterAppend<T>(xs: seq<T>, ys: seq<T>, keep: T -> bool)
    ensures Filter(xs + ys, keep) == Filter(xs, keep) + Filter(ys, keep)
  {
    if ys == [] {
      assert xs + ys == xs;
    } else {
      var n := |ys| - 1;
      assert (xs + ys)[..|xs| + n] == xs + ys[..n];
      FilterAppend(xs, ys[..n], keep);
    }
  }

  lemma {:induction false} FilterKeepsAll<T>(xs: seq<T>, keep: T -> bool)
    requires forall i :: 0 <= i < |xs| ==> keep(xs[i])
    ensures Filter(xs, keep) == xs
  {
    if xs != [] {
      var n := |xs| - 1;
      FilterKeepsAll(xs[..n], keep);
      assert xs == xs[..n] + [xs[n]];
    }
  }

  lemma {:induction false} FilterKeepsNone<T>(xs: seq<T>, keep: T -> bool)
    requires forall i :: 0 <= i < |xs| ==> !keep(xs[i])
    ensures Filter(xs, keep) == []
  {
    if xs != [] {
      FilterKeepsNone(xs[..|xs| - 1], keep);
    }
  }

  /** Filtering by a test and by its negation splits the multiset of `xs`. */
  lemma {:induction false} FilterComplement<T>(xs: seq<T>, keep: T -> bool, drop: T -> bool)
    requires forall x :: drop(x) == !keep(x)
    ensures multiset(Filter(xs, keep)) + multiset(Filter(xs, drop)) == multiset(xs)
  {
    if xs != [] {
      var n := |xs| - 1;
      var init, last := xs[..n], xs[n];
      FilterComplement(init, keep, drop);
      assert xs == init + [last];
      if keep(last) {
        assert Filter(xs, drop) == Filter(init, drop);
        assert multiset(Filter(xs, keep)) == multiset(Filter(init, keep)) + multiset{last};
      } else {
        assert Filter(xs, keep) == Filter(init, keep);
        assert multiset(Filter(xs, drop)) == multiset(Filter(init, drop)) + multiset{last};
      }
    }
  }
}
