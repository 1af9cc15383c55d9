/** The precision / recall / F1 / average formulas that both the evaluation
    run (utils/evaluation.py) and the stored-result view (utils/metrics.py)
    apply, each guarded against a zero denominator. Ratios are exact reals;
    the `round(x, 2)` applied for display is not modelled. */
module Scoring {

  /** `r` is the share `part / (part + rest)`, and 0 when both are 0. */
  predicate IsRatio(r: real, part: nat, rest: nat) {
    && 0.0 <= r <= 1.0
    && (part + rest == 0 ==> r == 0.0)
    && (part + rest > 0 ==> r * (part + rest) as real == part as real)
  }

  /** The counts determine the ratio: two values that are both the share of
      `part` in `part + rest` are equal. */
  lemma {:induction false} RatioUnique(r1: real, r2: real, part: nat, rest: nat)
    requires IsRatio(r1, part, rest) && IsRatio(r2, part, rest)
    ensures r1 == r2
  {
    if part + rest > 0 {
      var n := (part + rest) as real;
      assert (r1 - r2) * n == 0.0;
    }
  }

  /** `part / (part + rest) if (part + rest) > 0 else 0`. */
  function Ratio(part: nat, rest: nat): (r: real)
    ensures IsRatio(r, part, rest)
    ensures r == 0.0 <==> part == 0
    ensures r == 1.0 <==> part > 0 && rest == 0
  {
    if part + rest > 0 then part as real / (part + rest) as real else 0.0
  }

  /** Precision = TP / (TP + FP). */
  function Precision(tp: nat, fp: nat): (p: real)
    ensures IsRatio(p, tp, fp)
  {
    Ratio(tp, fp)
  }

  /** Recall = TP / (TP + FN). */
  function Recall(tp: nat, fn: nat): (r: real)
    ensures IsRatio(r, tp, fn)
  {
    Ratio(tp, fn)
  }

  /** `2 * (p * r) / (p + r)` when `p + r > 0`, else 0.0. For ratios in
      [0, 1] it is a value in [0, 1] that lies between the two. */
  function F1(p: real, r: real): (f: real)
    ensures p + r > 0.0 ==> f * (p + r) == 2.0 * p * r
    ensures p + r <= 0.0 ==> f == 0.0
    ensures 0.0 <= p <= 1.0 && 0.0 <= r <= 1.0 ==> 0.0 <= f <= 1.0
    ensures 0.0 <= p && 0.0 <= r && p <= r ==> p <= f <= r
    ensures 0.0 <= p && 0.0 <= r && r <= p ==> r <= f <= p
  {
    if p + r > 0.0 then
      var f := 2.0 * (p * r) / (p + r);
      F1Bounds(p, r, f);
      f
    else 0.0
  }

  /** `F1` is the guarded expression the source writes out. */
  lemma {:induction false} F1Formula(p: real, r: real)
    ensures F1(p, r) == if p + r > 0.0 then 2.0 * (p * r) / (p + r) else 0.0
  {
  }

  /** The harmonic mean lies between its two arguments. */
  lemma {:induction false} F1Bounds(p: real, r: real, f: real)
    requires p + r > 0.0 && f * (p + r) == 2.0 * (p * r)
    ensures 0.0 <= p && 0.0 <= r && p <= r ==> p <= f <= r
    ensures 0.0 <= p && 0.0 <= r && r <= p ==> r <= f <= p
    ensures 0.0 <= p <= 1.0 && 0.0 <= r <= 1.0 ==> 0.0 <= f <= 1.0
  {
    if 0.0 <= p && 0.0 <= r {
      // f - p = p (r - p) / (p + r) and r - f = r (r - p) / (p + r)
      assert (f - p) * (p + r) == p * (r - p);
      assert (r - f) * (p + r) == r * (r - p);
      if p <= r {
        NonNegativeProduct(p, r - p);
        NonNegativeProduct(r, r - p);
        PositiveFactor(f - p, p + r);
        PositiveFactor(r - f, p + r);
      } else {
        NonNegativeProduct(p, p - r);
        NonNegativeProduct(r, p - r);
        assert (p - f) * (p + r) == p * (p - r);
        assert (f - r) * (p + r) == r * (p - r);
        PositiveFactor(p - f, p + r);
        PositiveFactor(f - r, p + r);
      }
    }
  }

  lemma {:induction false} PositiveFactor(x: real, y: real)
    requires y > 0.0 && x * y >= 0.0
    ensures x >= 0.0
  {
  }

  lemma {:induction false} NonNegativeProduct(x: real, y: real)
    requires x >= 0.0 && y >= 0.0
    ensures x * y >= 0.0
  {
  }

  /** The F1 score in closed form over the counts:
      2·TP / (2·TP + FP + FN), and 0 when there is no TP. */
  function ClosedFormF1(tp: nat, fp: nat, fn: nat): real {
    if tp == 0 then 0.0 else 2.0 * tp as real / (2 * tp + fp + fn) as real
  }

  /** The harmonic mean of precision and recall is the closed form. */
  lemma {:induction false} F1OfCounts(tp: nat, fp: nat, fn: nat)
    ensures F1(Precision(tp, fp), Recall(tp, fn)) == ClosedFormF1(tp, fp, fn)
  {
    var p, r := Precision(tp, fp), Recall(tp, fn);
    if tp > 0 {
      var t, a, b := tp as real, (tp + fp) as real, (tp + fn) as real;
      var f := F1(p, r);
      HarmonicOfShares(t, a, b, p, r, f);
      assert a + b == (2 * tp + fp + fn) as real;
      Quotient(f, a + b, 2.0 * t);
    }
  }

  /** With p = t / a and r = t / b, the harmonic mean f of p and r satisfies
      f · (a + b) = 2t. */
  lemma {:induction false} HarmonicOfShares(t: real, a: real, b: real, p: real, r: real, f: real)
    requires t > 0.0 && a > 0.0 && b > 0.0 && p * a == t && r * b == t
    requires p + r > 0.0 && f * (p + r) == 2.0 * p * r
    ensures f * (a + b) == 2.0 * t
  {
    // Multiplying through by a * b:
    assert (p + r) * (a * b) == t * (a + b) by {
      calc {
        (p + r) * (a * b);
        (p * a) * b + (r * b) * a;
        t * b + t * a;
      }
    }
    assert (2.0 * p * r) * (a * b) == 2.0 * t * t by {
      calc {
        (2.0 * p * r) * (a * b);
        2.0 * (p * a) * (r * b);
      }
    }
    assert f * t * (a + b) == 2.0 * t * t by {
      calc {
        f * t * (a + b);
        f * ((p + r) * (a * b));
        (f * (p + r)) * (a * b);
        (2.0 * p * r) * (a * b);
      }
    }
  }

  /** Dividing out a positive factor. */
  lemma {:induction false} Quotient(x: real, y: real, z: real)
    requires y > 0.0 && x * y == z
    ensures x == z / y
  {
  }

  /** Sum of a sequence of reals. */
  function Sum(xs: seq<real>): real {
    if xs == [] then 0.0 else xs[0] + Sum(xs[1..])
  }

  lemma {:induction false} SumAppend(xs: seq<real>, x: real)
    ensures Sum(xs + [x]) == Sum(xs) + x
  {
    if xs == [] {
      assert xs + [x] == [x];
    } else {
      assert (xs + [x])[1..] == xs[1..] + [x];
      SumAppend(xs[1..], x);
    }
  }

  lemma {:induction false} SumBounds(xs: seq<real>, lo: real, hi: real)
    requires forall i :: 0 <= i < |xs| ==> lo <= xs[i] <= hi
    ensures |xs| as real * lo <= Sum(xs) <= |xs| as real * hi
  {
    if xs != [] {
      SumBounds(xs[1..], lo, hi);
    }
  }

  /** `sum(times) / len(times) if times else 0`. */
  function Average(xs: seq<real>): (a: real)
    ensures xs == [] ==> a == 0.0
    ensures xs != [] ==> a * |xs| as real == Sum(xs)
  {
    if xs == [] then 0.0 else Sum(xs) / |xs| as real
  }

  /** The mean of timings lies within the range of the timings. */
  lemma {:induction false} AverageBounds(xs: seq<real>, lo: real, hi: real)
    requires xs != []
    requires forall i :: 0 <= i < |xs| ==> lo <= xs[i] <= hi
    ensures lo <= Average(xs) <= hi
  {
    SumBounds(xs, lo, hi);
    var n := |xs| as real;
    assert Average(xs) * n == Sum(xs);
  }

  /** The worked example: 3 correct, 1 incorrect, 1 unanswered give
      precision, recall and F1 of 0.75. */
  lemma {:induction false} ThreeOneOneExample()
    ensures Precision(3, 1) == 0.75 && Recall(3, 1) == 0.75
    ensures F1(Precision(3, 1), Recall(3, 1)) == 0.75
  {
    F1OfCounts(3, 1, 1);
  }
}
