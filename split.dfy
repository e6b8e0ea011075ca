/**
 * `split_triples`: shuffle a copy of the triples with a seeded generator and
 * cut it into a training prefix and a validation suffix.
 *
 * The generator is abstract: `shuffle(seed, n)` is the order in which
 * `random.shuffle` leaves a list of length n after `random.seed(seed)`,
 * given as the list of original positions. It depends on the seed and the
 * length only, never on the elements.
 */
module Split {
  import opened Samples

  type Pos = n: int | n > 0 witness 1

  /** The float `train_ratio` (or `val_ratio`) as the exact fraction num / den. */
  datatype Ratio = Ratio(num: int, den: Pos)

  /** Python's `int(a / d)` for a positive d: rounds toward zero (Dafny's `/` rounds down). */
  function TruncDiv(a: int, d: Pos): (q: int)
    ensures a >= 0 ==> 0 <= q && q * d <= a < q * d + d
    ensures a < 0 ==> q <= 0 && a <= q * d < a + d
  {
    if a >= 0 then
      DivBounds(a, d);
      a / d
    else
      DivBounds(-a, d);
      -((-a) / d)
  }

  lemma DivBounds(m: nat, d: Pos)
    ensures 0 <= m / d
    ensures (m / d) * d <= m < (m / d) * d + d
  {
    var q, r := m / d, m % d;
    assert m == q * d + r && 0 <= r < d;
  }

  /** Python's normalisation of a slice bound `k` on a list of length n. */
  function SliceBound(k: int, n: nat): (b: nat)
    ensures b <= n
  {
    if k < 0 then (if k + n < 0 then 0 else k + n)
    else if k > n then n
    else k
  }

  /** How Python reads a slice bound: a negative bound counts from the end. */
  function Relative(k: int, n: nat): int
  {
    if k < 0 then k + n else k
  }

  /** The elements of `xs` whose index satisfies `keep`, in order: what a slice selects. */
  function SelectIndices<T>(xs: seq<T>, keep: int -> bool): seq<T>
  {
    if xs == [] then []
    else
      var n := |xs| - 1;
      SelectIndices(xs[..n], keep) + (if keep(n) then [xs[n]] else [])
  }

  function Below(j: int): int -> bool
  {
    i => i < j
  }

  function AtLeast(j: int): int -> bool
  {
    i => i >= j
  }

  function Clamp(j: int, n: nat): nat
  {
    if j < 0 then 0 else if j > n then n else j
  }

  lemma SliceBoundClamp(k: int, n: nat)
    ensures SliceBound(k, n) == Clamp(Relative(k, n), n)
  {
  }

  lemma {:induction false} SelectBelow<T>(xs: seq<T>, j: int)
    ensures SelectIndices(xs, Below(j)) == xs[..Clamp(j, |xs|)]
  {
    if xs != [] {
      var n := |xs| - 1;
      SelectBelow(xs[..n], j);
      if n < j {
        assert xs[..Clamp(j, |xs|)] == xs[..n] + [xs[n]];
      } else {
        assert xs[..Clamp(j, |xs|)] == xs[..n][..Clamp(j, n)];
      }
    }
  }

  lemma {:induction false} SelectAtLeast<T>(xs: seq<T>, j: int)
    ensures SelectIndices(xs, AtLeast(j)) == xs[Clamp(j, |xs|)..]
  {
    if xs != [] {
      var n := |xs| - 1;
      SelectAtLeast(xs[..n], j);
      if n >= j {
        assert xs[Clamp(j, |xs|)..] == xs[..n][Clamp(j, n)..] + [xs[n]];
      } else {
        assert xs[..n][Clamp(j, n)..] == [];
      }
    }
  }

  /**
   * Cutting at the normalised bound is Python's slice rule: `xs[:k]` holds
   * the elements whose index is below k and `xs[k:]` those whose index is
   * at least k, a negative k being read relative to the end.
   */
  lemma SliceBoundSelects<T>(xs: seq<T>, k: int)
    ensures xs[..SliceBound(k, |xs|)] == SelectIndices(xs, Below(Relative(k, |xs|)))
    ensures xs[SliceBound(k, |xs|)..] == SelectIndices(xs, AtLeast(Relative(k, |xs|)))
  {
    var j := Relative(k, |xs|);
    SliceBoundClamp(k, |xs|);
    SelectBelow(xs, j);
    SelectAtLeast(xs, j);
  }

  /** `int(len(shuffled) * train_ratio)` */
  function TrainSize(n: nat, trainRatio: Ratio): int
  {
    TruncDiv(n * trainRatio.num, trainRatio.den)
  }

  function Range(n: nat): seq<nat>
  {
    seq(n, i requires 0 <= i < n => i)
  }

  predicate InBounds(order: seq<nat>, n: nat)
  {
    forall i :: 0 <= i < |order| ==> order[i] < n
  }

  /** `order` lists each position 0 .. n-1 exactly once. */
  predicate IsPermutation(order: seq<nat>, n: nat)
  {
    |order| == n && InBounds(order, n) && multiset(order) == multiset(Range(n))
  }

  /** The elements of `xs` taken in the order `order` names them. */
  function Permute<T>(xs: seq<T>, order: seq<nat>): seq<T>
    requires InBounds(order, |xs|)
  {
    seq(|order|, i requires 0 <= i < |order| => xs[order[i]])
  }

  /**
   * `split_triples`: the first `int(n * train_ratio)` shuffled triples are
   * for training and the rest for validation; `val_ratio` is accepted and
   * not used.
   */
  function SplitTriples(triples: seq<Triple>, trainRatio: Ratio, valRatio: Ratio, seed: int, shuffle: (int, nat) -> seq<nat>)
    : (r: (seq<Triple>, seq<Triple>))
    requires IsPermutation(shuffle(seed, |triples|), |triples|)
    ensures |r.0| == SliceBound(TrainSize(|triples|, trainRatio), |triples|)
    ensures |r.0| + |r.1| == |triples|
    ensures forall i :: 0 <= i < |r.0| ==> r.0[i] == triples[shuffle(seed, |triples|)[i]]
    ensures forall j :: 0 <= j < |r.1| ==> r.1[j] == triples[shuffle(seed, |triples|)[|r.0| + j]]
  {
    var order := shuffle(seed, |triples|);
    var shuffled := Permute(triples, order);
    var trainSize := TrainSize(|shuffled|, trainRatio);
    var cut := SliceBound(trainSize, |shuffled|);
    (shuffled[..cut], shuffled[cut..])
  }

  // ---------------------------------------------------------------------------

  lemma PermuteAppend<T>(xs: seq<T>, a: seq<nat>, b: seq<nat>)
    requires InBounds(a, |xs|) && InBounds(b, |xs|)
    ensures InBounds(a + b, |xs|)
    ensures Permute(xs, a + b) == Permute(xs, a) + Permute(xs, b)
  {
  }

  /** Position k of `b`, put back, restores the multiset of `b`. */
  lemma RemoveAtMultiset(b: seq<nat>, k: nat)
    requires k < |b|
    ensures multiset(b) == multiset(b[..k] + b[k + 1..]) + multiset{b[k]}
  {
    assert b == b[..k] + [b[k]] + b[k + 1..];
  }

  lemma MultisetCancel(m1: multiset<nat>, m2: multiset<nat>, x: nat)
    requires m1 + multiset{x} == m2 + multiset{x}
    ensures m1 == m2
  {
    assert forall y :: m1[y] == (m1 + multiset{x})[y] - multiset{x}[y];
    assert forall y :: m2[y] == (m2 + multiset{x})[y] - multiset{x}[y];
  }

  /** Taking one position out of an order takes its element out of the reordered multiset. */
  lemma PermuteRemoveAt<T>(xs: seq<T>, b: seq<nat>, k: nat)
    requires InBounds(b, |xs|) && k < |b|
    ensures InBounds(b[..k] + b[k + 1..], |xs|)
    ensures multiset(Permute(xs, b)) == multiset(Permute(xs, b[..k] + b[k + 1..])) + multiset{xs[b[k]]}
  {
    var front, x, back := b[..k], b[k], b[k + 1..];
    assert b == front + [x] + back;
    PermuteAppend(xs, front, [x]);
    PermuteAppend(xs, front + [x], back);
    PermuteAppend(xs, front, back);
    var pf, pb := Permute(xs, front), Permute(xs, back);
    assert Permute(xs, [x]) == [xs[x]];
    assert Permute(xs, b) == pf + [xs[x]] + pb;
    assert Permute(xs, front + back) == pf + pb;
  }

  lemma PermuteHead<T>(xs: seq<T>, a: seq<nat>)
    requires InBounds(a, |xs|) && a != []
    ensures InBounds(a[1..], |xs|)
    ensures multiset(Permute(xs, a)) == multiset(Permute(xs, a[1..])) + multiset{xs[a[0]]}
  {
    assert Permute(xs, a) == [xs[a[0]]] + Permute(xs, a[1..]);
  }

  lemma FindIndex(b: seq<nat>, x: nat) returns (k: nat)
    requires x in multiset(b)
    ensures k < |b| && b[k] == x
  {
    assert x in b;
    k :| 0 <= k < |b| && b[k] == x;
  }

  /** Reordering by orders with the same positions gives the same multiset. */
  lemma {:induction false} PermuteMultiset<T>(xs: seq<T>, a: seq<nat>, b: seq<nat>)
    requires InBounds(a, |xs|) && InBounds(b, |xs|) && multiset(a) == multiset(b)
    ensures multiset(Permute(xs, a)) == multiset(Permute(xs, b))
    decreases |a|
  {
    if a == [] {
      assert |multiset(b)| == 0;
    } else {
      var x := a[0];
      var k := FindIndex(b, x);
      var restA, restB := a[1..], b[..k] + b[k + 1..];
      assert a == [x] + restA;
      RemoveAtMultiset(b, k);
      MultisetCancel(multiset(restA), multiset(restB), x);
      PermuteHead(xs, a);
      PermuteRemoveAt(xs, b, k);
      PermuteMultiset(xs, restA, restB);
    }
  }

  /** The training and validation sets together are a permutation of the input. */
  lemma SplitIsPermutation(triples: seq<Triple>, trainRatio: Ratio, valRatio: Ratio, seed: int, shuffle: (int, nat) -> seq<nat>)
    requires IsPermutation(shuffle(seed, |triples|), |triples|)
    ensures var (train, val) := SplitTriples(triples, trainRatio, valRatio, seed, shuffle);
            multiset(train + val) == multiset(triples)
  {
    var n := |triples|;
    var order := shuffle(seed, n);
    assert InBounds(Range(n), n);
    PermuteMultiset(triples, order, Range(n));
    assert Permute(triples, Range(n)) == triples;
    var (train, val) := SplitTriples(triples, trainRatio, valRatio, seed, shuffle);
    assert train + val == Permute(triples, order);
  }

  lemma MulMono(n: nat, a: int, b: int)
    requires a <= b
    ensures n * a <= n * b
  {
  }

  /** For 0 <= num <= den the train size is floor(n * num / den), between 0 and n. */
  lemma TrainSizeWithin(n: nat, r: Ratio)
    requires 0 <= r.num <= r.den
    ensures TrainSize(n, r) == (n * r.num) / r.den
    ensures 0 <= TrainSize(n, r) <= n
  {
    MulMono(n, r.num, r.den);
    MulMono(n, 0, r.num);
    var q := TrainSize(n, r);
    if q > n {
      MulMono(r.den, n + 1, q);
    }
  }

  /** For num >= den the train size is at least n. */
  lemma TrainSizeAtLeast(n: nat, r: Ratio)
    requires r.num >= r.den
    ensures TrainSize(n, r) >= n
  {
    MulMono(n, r.den, r.num);
    var q := TrainSize(n, r);
    if q < n {
      MulMono(r.den, q + 1, n);
    }
  }

  /**
   * The split size law, for 0 <= train_ratio <= 1: the training set has
   * floor(n * train_ratio) elements and the two sets n together.
   */
  lemma SplitSizeLaw(triples: seq<Triple>, trainRatio: Ratio, valRatio: Ratio, seed: int, shuffle: (int, nat) -> seq<nat>)
    requires IsPermutation(shuffle(seed, |triples|), |triples|)
    requires 0 <= trainRatio.num <= trainRatio.den
    ensures var (train, val) := SplitTriples(triples, trainRatio, valRatio, seed, shuffle);
            && |train| == (|triples| * trainRatio.num) / trainRatio.den
            && |train| + |val| == |triples|
  {
    TrainSizeWithin(|triples|, trainRatio);
  }

  /**
   * The edge cases: a zero ratio leaves nothing for training, a ratio of at
   * least one nothing for validation, and an empty input gives two empty sets.
   */
  lemma SplitEdgeCases(triples: seq<Triple>, trainRatio: Ratio, valRatio: Ratio, seed: int, shuffle: (int, nat) -> seq<nat>)
    requires IsPermutation(shuffle(seed, |triples|), |triples|)
    ensures var (train, val) := SplitTriples(triples, trainRatio, valRatio, seed, shuffle);
            && (trainRatio.num == 0 ==> train == [])
            && (trainRatio.num >= trainRatio.den ==> val == [])
            && (triples == [] ==> train == [] && val == [])
  {
    if trainRatio.num >= trainRatio.den {
      TrainSizeAtLeast(|triples|, trainRatio);
    }
  }

  /** `val_ratio` has no effect on the split. */
  lemma SplitIgnoresValRatio(triples: seq<Triple>, trainRatio: Ratio, v1: Ratio, v2: Ratio, seed: int, shuffle: (int, nat) -> seq<nat>)
    requires IsPermutation(shuffle(seed, |triples|), |triples|)
    ensures SplitTriples(triples, trainRatio, v1, seed, shuffle) == SplitTriples(triples, trainRatio, v2, seed, shuffle)
  {
  }
}
