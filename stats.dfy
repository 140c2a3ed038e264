/** Whole-column statistics on exact numbers: the extremes of a column and
    the min-max normalisation that both the creator aggregate and the
    recommendation page apply to a column of a frame. */
module Stats {

  /** `sum(xs)` of a list of numbers. */
  function Sum(xs: seq<real>): real {
    if xs == [] then 0.0 else Sum(xs[..|xs| - 1]) + xs[|xs| - 1]
  }

  /** `col.min()` of a non-empty column. */
  function Min(xs: seq<real>): (m: real)
    requires xs != []
    ensures m in xs
    ensures forall x :: x in xs ==> m <= x
  {
    if |xs| == 1 then xs[0]
    else
      var rest := Min(xs[1..]);
      assert xs == [xs[0]] + xs[1..];
      if xs[0] <= rest then xs[0] else rest
  }

  /** `col.max()` of a non-empty column. */
  function Max(xs: seq<real>): (m: real)
    requires xs != []
    ensures m in xs
    ensures forall x :: x in xs ==> x <= m
  {
    if |xs| == 1 then xs[0]
    else
      var rest := Max(xs[1..]);
      assert xs == [xs[0]] + xs[1..];
      if xs[0] >= rest then xs[0] else rest
  }

  /** One entry of a normalised column: `(x - min) / (max - min)` when the
      column is not constant, and the fixed `flat` value otherwise. */
  function Rescale(x: real, lo: real, hi: real, flat: real): real {
    if hi > lo then (x - lo) / (hi - lo) else flat
  }

  /** The column expression
        `(col - col.min()) / (col.max() - col.min())  if col.max() > col.min()`
        `flat                                          otherwise`
      An empty column stays empty. */
  function Normalize(xs: seq<real>, flat: real): (r: seq<real>)
    ensures |r| == |xs|
  {
    if xs == [] then []
    else
      var lo := Min(xs);
      var hi := Max(xs);
      seq(|xs|, i requires 0 <= i < |xs| => Rescale(xs[i], lo, hi, flat))
  }

  /** A quotient of a part by a larger positive whole lies in [0, 1]. */
  lemma QuotientInUnit(a: real, b: real)
    requires 0.0 <= a <= b && b > 0.0
    ensures 0.0 <= a / b <= 1.0
  {
    assert a / b * b == a;
  }

  /** Dividing by a positive number keeps the order. */
  lemma QuotientMonotone(a: real, c: real, b: real)
    requires a <= c && b > 0.0
    ensures a / b <= c / b
  {
    assert c / b - a / b == (c - a) / b;
    QuotientInUnit(0.0, b);
    assert (c - a) / b * b == c - a;
  }

  /** Every normalised entry lies in [0, 1] when the flat value does. */
  lemma NormalizeInUnit(xs: seq<real>, flat: real, i: nat)
    requires 0.0 <= flat <= 1.0 && i < |xs|
    ensures 0.0 <= Normalize(xs, flat)[i] <= 1.0
  {
    var lo, hi := Min(xs), Max(xs);
    if hi > lo {
      assert xs[i] in xs;
      QuotientInUnit(xs[i] - lo, hi - lo);
    }
  }

  /** Normalisation keeps the order of the entries. */
  lemma NormalizeMonotone(xs: seq<real>, flat: real, i: nat, j: nat)
    requires i < |xs| && j < |xs| && xs[i] <= xs[j]
    ensures Normalize(xs, flat)[i] <= Normalize(xs, flat)[j]
  {
    var lo, hi := Min(xs), Max(xs);
    if hi > lo {
      QuotientMonotone(xs[i] - lo, xs[j] - lo, hi - lo);
    }
  }

  /** In a column that is not constant the smallest entries become 0 and the
      largest become 1. */
  lemma NormalizeExtremes(xs: seq<real>, flat: real, i: nat)
    requires i < |xs| && Min(xs) < Max(xs)
    ensures xs[i] == Min(xs) ==> Normalize(xs, flat)[i] == 0.0
    ensures xs[i] == Max(xs) ==> Normalize(xs, flat)[i] == 1.0
  {
    var lo, hi := Min(xs), Max(xs);
    assert Normalize(xs, flat)[i] == Rescale(xs[i], lo, hi, flat);
    RescaleEnds(lo, hi, flat);
  }

  /** The ends of a non-empty range rescale to 0 and 1. */
  lemma RescaleEnds(lo: real, hi: real, flat: real)
    requires lo < hi
    ensures Rescale(lo, lo, hi, flat) == 0.0 && Rescale(hi, lo, hi, flat) == 1.0
  {
    var d := hi - lo;
    assert d > 0.0;
    assert d / d == 1.0;
  }

  /** A constant column normalises to the flat value everywhere. */
  lemma NormalizeConstant(xs: seq<real>, flat: real, i: nat)
    requires i < |xs|
    requires forall j :: 0 <= j < |xs| ==> xs[j] == xs[0]
    ensures Normalize(xs, flat)[i] == flat
  {
    var lo, hi := Min(xs), Max(xs);
    var p :| 0 <= p < |xs| && xs[p] == lo;
    var q :| 0 <= q < |xs| && xs[q] == hi;
    assert lo == hi;
  }
}
