/** Sums of real sequences, as Python's accumulation loops and `sum` compute them (left to right). */
module Series {

  /** The sum of `xs`, accumulated left to right. */
  function Sum(xs: seq<real>): real
  {
    if xs == [] then 0.0 else Sum(xs[..|xs| - 1]) + xs[|xs| - 1]
  }

  /** Running totals: entry `i` is the sum of entries `0..i` of `xs`. */
  function PrefixSums(xs: seq<real>): seq<real>
  {
    seq(|xs|, i requires 0 <= i < |xs| => Sum(xs[..i + 1]))
  }

  /** The arithmetic mean of a non-empty sequence. */
  function Mean(xs: seq<real>): real
    requires |xs| > 0
  {
    Sum(xs) / |xs| as real
  }

  /** Appending one value adds it to the sum. */
  lemma SumSnoc(xs: seq<real>, x: real)
    ensures Sum(xs + [x]) == Sum(xs) + x
  {
    assert (xs + [x])[..|xs|] == xs;
  }

  /** Appending one value to a sequence appends the new running total to its running totals. */
  lemma PrefixSumsSnoc(xs: seq<real>, x: real)
    ensures PrefixSums(xs + [x]) == PrefixSums(xs) + [Sum(xs) + x]
  {
    var ys := xs + [x];
    assert ys[..|xs| + 1] == ys && ys[..|ys| - 1] == xs;
    forall i | 0 <= i < |xs|
      ensures PrefixSums(ys)[i] == PrefixSums(xs)[i]
    {
      assert ys[..i + 1] == xs[..i + 1];
    }
  }

  /** Partial sums of non-negative values never decrease as more values are added. */
  lemma {:induction false} SumPrefixMonotone(xs: seq<real>, i: nat, j: nat)
    requires i <= j <= |xs|
    requires forall k :: 0 <= k < |xs| ==> 0.0 <= xs[k]
    ensures Sum(xs[..i]) <= Sum(xs[..j])
    decreases j - i
  {
    if i < j {
      SumPrefixMonotone(xs, i, j - 1);
      assert xs[..j][..j - 1] == xs[..j - 1];
    }
  }

  /** A sum of values in [0, 1] lies in [0, number of values]. */
  lemma {:induction false} SumUnitBounds(xs: seq<real>)
    requires forall k :: 0 <= k < |xs| ==> 0.0 <= xs[k] <= 1.0
    ensures 0.0 <= Sum(xs) <= |xs| as real
  {
    if xs != [] {
      SumUnitBounds(xs[..|xs| - 1]);
    }
  }

  /** Running totals of non-negative values form a non-decreasing sequence. */
  lemma PrefixSumsNondecreasing(xs: seq<real>)
    requires forall k :: 0 <= k < |xs| ==> 0.0 <= xs[k]
    ensures forall i, j :: 0 <= i <= j < |xs| ==> PrefixSums(xs)[i] <= PrefixSums(xs)[j]
  {
    forall i, j | 0 <= i <= j < |xs|
      ensures PrefixSums(xs)[i] <= PrefixSums(xs)[j]
    {
      SumPrefixMonotone(xs, i + 1, j + 1);
    }
  }

  /** Running totals of values in [0, 1]: entry `i` lies in [0, i + 1]. */
  lemma PrefixSumsUnitBounds(xs: seq<real>)
    requires forall k :: 0 <= k < |xs| ==> 0.0 <= xs[k] <= 1.0
    ensures forall i :: 0 <= i < |xs| ==> 0.0 <= PrefixSums(xs)[i] <= (i + 1) as real
  {
    forall i | 0 <= i < |xs|
      ensures 0.0 <= PrefixSums(xs)[i] <= (i + 1) as real
    {
      SumUnitBounds(xs[..i + 1]);
    }
  }

  /** The mean of `n` copies of `e` is `e`. */
  lemma {:induction false} SumOfConstant(xs: seq<real>, e: real)
    requires forall k :: 0 <= k < |xs| ==> xs[k] == e
    ensures Sum(xs) == |xs| as real * e
  {
    if xs != [] {
      SumOfConstant(xs[..|xs| - 1], e);
      assert (|xs| - 1) as real * e + e == |xs| as real * e;
    }
  }

  /** The mean of a sequence whose entries all equal `e` is `e`. */
  lemma MeanOfConstant(xs: seq<real>, e: real)
    requires |xs| > 0
    requires forall k :: 0 <= k < |xs| ==> xs[k] == e
    ensures Mean(xs) == e
  {
    SumOfConstant(xs, e);
  }
}
