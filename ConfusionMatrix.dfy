/**
  The reconstruction of a confusion matrix from reported metrics and the error
  reductions between two matrices (figures/generate_confusion_matrices.py,
  compute_confusion_matrix and plot_error_reduction).  Metrics are reals; the
  plotting is not part of this model.
*/
module ConfusionMatrix {
  import opened Floats

  /** Python's round() to an int: to the nearest integer, ties to the even one. */
  function RoundHalfEven(x: real): (n: int)
    ensures x - 0.5 <= n as real <= x + 0.5
    ensures x - 0.5 < n as real < x + 0.5 || n % 2 == 0
  {
    var f := x.Floor;
    var d := x - f as real;
    if d < 0.5 then f
    else if d > 0.5 then f + 1
    else if f % 2 == 0 then f else f + 1
  }

  /** An integer rounds to itself. */
  lemma RoundIntegral(n: int)
    ensures RoundHalfEven(n as real) == n
  {
  }

  /** The four cells before rounding (lines 36-52). */
  datatype Cells = Cells(tp: real, fp: real, fn: real, tn: real)

  /** Lines 36-52: half the items are taken to be positive, TP follows from the
      recall and FP from the precision; accuracy is not used. */
  function ExactCells(accuracy: real, precision: real, recall: real, total: real): (c: Cells)
    ensures c.tp == recall / 100.0 * (total / 2.0)
    ensures precision > 0.0 ==> c.fp == c.tp / (precision / 100.0) - c.tp
    ensures precision <= 0.0 ==> c.fp == 0.0
    ensures c.tp + c.fn == total / 2.0 && c.fp + c.tn == total / 2.0
    ensures c.tp + c.fp + c.fn + c.tn == total
  {
    var nPositive := total / 2.0;
    var nNegative := total / 2.0;
    var tp := recall / 100.0 * nPositive;
    var fp := if precision > 0.0 then tp / (precision / 100.0) - tp else 0.0;
    Cells(tp, fp, nPositive - tp, nNegative - fp)
  }

  /** compute_confusion_matrix: `[[TP, FN], [FP, TN]]` after rounding each cell. */
  function ComputeConfusionMatrix(accuracy: real, precision: real, recall: real, total: real): (cm: seq<seq<int>>)
    ensures |cm| == 2 && |cm[0]| == 2 && |cm[1]| == 2
    ensures var c := ExactCells(accuracy, precision, recall, total);
      && cm[0][0] == RoundHalfEven(c.tp) && cm[0][1] == RoundHalfEven(c.fn)
      && cm[1][0] == RoundHalfEven(c.fp) && cm[1][1] == RoundHalfEven(c.tn)
  {
    var c := ExactCells(accuracy, precision, recall, total);
    [[RoundHalfEven(c.tp), RoundHalfEven(c.fn)], [RoundHalfEven(c.fp), RoundHalfEven(c.tn)]]
  }

  /** The cells recover the metrics they came from: with a recall in (0, 100] and
      a positive precision, TP / (TP + FN) and TP / (TP + FP) are those values. */
  lemma CellsRecoverMetrics(accuracy: real, precision: real, recall: real, total: real)
    requires total > 0.0 && 0.0 < recall <= 100.0 && precision > 0.0
    ensures var c := ExactCells(accuracy, precision, recall, total);
      && c.tp > 0.0
      && c.tp / (c.tp + c.fn) * 100.0 == recall
      && c.tp / (c.tp + c.fp) * 100.0 == precision
  {
    var c := ExactCells(accuracy, precision, recall, total);
    var n := total / 2.0;
    assert c.tp == recall / 100.0 * n;
    assert c.tp > 0.0 by {
      assert recall / 100.0 > 0.0 && n > 0.0;
      ProductPositive(recall / 100.0, n);
    }
    assert c.tp + c.fn == n;
    assert c.tp / n == recall / 100.0;
    var q := precision / 100.0;
    assert c.tp + c.fp == c.tp / q;
    DivideByQuotient(c.tp, q);
  }

  lemma ProductPositive(a: real, b: real)
    requires a > 0.0 && b > 0.0
    ensures a * b > 0.0
  {
  }

  lemma DivideByQuotient(t: real, q: real)
    requires t > 0.0 && q > 0.0
    ensures t / (t / q) * 100.0 == q * 100.0
  {
    assert t / (t / q) == q;
  }

  /** Every rounded cell lies within 1/2 of the exact one, so the rounded matrix
      sums to within 2 of total. */
  lemma RoundedSumNearTotal(accuracy: real, precision: real, recall: real, total: real)
    ensures var cm := ComputeConfusionMatrix(accuracy, precision, recall, total);
      var s := cm[0][0] + cm[0][1] + cm[1][0] + cm[1][1];
      total - 2.0 <= s as real <= total + 2.0
  {
  }

  /** The balanced-data assumption can contradict the metrics: a precision low
      enough for the recall makes FP exceed total / 2 and TN negative. */
  lemma NegativeTrueNegatives()
    ensures ExactCells(0.0, 40.0, 100.0, 100.0) == Cells(50.0, 75.0, 0.0, -25.0)
    ensures ComputeConfusionMatrix(0.0, 40.0, 100.0, 100.0) == [[50, 0], [75, -25]]
  {
    RoundIntegral(50);
    RoundIntegral(0);
    RoundIntegral(75);
    RoundIntegral(-25);
  }

  /** TN is not negative exactly when FP is at most half the items. */
  lemma TrueNegativesNonNegative(accuracy: real, precision: real, recall: real, total: real)
    ensures ExactCells(accuracy, precision, recall, total).tn >= 0.0 <==>
      ExactCells(accuracy, precision, recall, total).fp <= total / 2.0
  {
  }

  // ---------------------------------------------------------------------------
  // plot_error_reduction (lines 127-138)

  /** The three reductions, in percent. */
  datatype Reductions = Reductions(fp: real, fn: real, total: Ext)

  /** `(b - c) / b * 100 if b > 0 else 0`. */
  function GuardedReduction(b: int, c: int): real {
    if b > 0 then (b - c) as real / b as real * 100.0 else 0.0
  }

  /** `x * 100` on a float. */
  function Scale(x: Ext): Ext {
    match x
    case Num(r) => Num(r * 100.0)
    case _ => x
  }

  /** Lines 127-138: FP is read at cm[1][0] and FN at cm[0][1]; the total
      reduction divides without a guard. */
  function ErrorReduction(cmBaseline: seq<seq<int>>, cmCombined: seq<seq<int>>): (r: Reductions)
    requires |cmBaseline| == 2 && |cmBaseline[0]| == 2 && |cmBaseline[1]| == 2
    requires |cmCombined| == 2 && |cmCombined[0]| == 2 && |cmCombined[1]| == 2
  {
    var baselineFp, baselineFn := cmBaseline[1][0], cmBaseline[0][1];
    var combinedFp, combinedFn := cmCombined[1][0], cmCombined[0][1];
    var totalBaseline := baselineFp + baselineFn;
    var totalCombined := combinedFp + combinedFn;
    Reductions(GuardedReduction(baselineFp, combinedFp), GuardedReduction(baselineFn, combinedFn),
               Scale(Div((totalBaseline - totalCombined) as real, totalBaseline as real)))
  }

  /** On matrices built by compute_confusion_matrix the reductions compare the
      rounded FP and FN cells. */
  lemma ReductionReadsErrorCells(a: real, p: real, r: real, n: real, a': real, p': real, r': real, n': real)
    ensures var cb, cc := ComputeConfusionMatrix(a, p, r, n), ComputeConfusionMatrix(a', p', r', n');
      var b, c := ExactCells(a, p, r, n), ExactCells(a', p', r', n');
      var red := ErrorReduction(cb, cc);
      && red.fp == GuardedReduction(RoundHalfEven(b.fp), RoundHalfEven(c.fp))
      && red.fn == GuardedReduction(RoundHalfEven(b.fn), RoundHalfEven(c.fn))
  {
  }

  /** A guarded reduction is 0 on a zero baseline; otherwise it is positive iff the
      count fell, 100 iff it fell to 0, and at most 100 for a non-negative count. */
  lemma GuardedReductionCases(b: int, c: int)
    ensures b <= 0 ==> GuardedReduction(b, c) == 0.0
    ensures b > 0 ==> (GuardedReduction(b, c) > 0.0 <==> c < b)
    ensures b > 0 ==> (GuardedReduction(b, c) == 100.0 <==> c == 0)
    ensures b > 0 && c >= 0 ==> GuardedReduction(b, c) <= 100.0
  {
    if b > 0 {
      var q := (b - c) as real / b as real;
      assert q * b as real == (b - c) as real;
      if q == 1.0 {
        assert c == 0;
      }
    }
  }

  /** With no baseline errors the total reduction is not a number: NaN when the
      combined method has none either, -inf when it has some. */
  lemma TotalReductionUnguarded(cmBaseline: seq<seq<int>>, cmCombined: seq<seq<int>>)
    requires |cmBaseline| == 2 && |cmBaseline[0]| == 2 && |cmBaseline[1]| == 2
    requires |cmCombined| == 2 && |cmCombined[0]| == 2 && |cmCombined[1]| == 2
    requires cmBaseline[1][0] + cmBaseline[0][1] == 0
    ensures cmCombined[1][0] + cmCombined[0][1] == 0 ==> ErrorReduction(cmBaseline, cmCombined).total == NaN
    ensures cmCombined[1][0] + cmCombined[0][1] > 0 ==> ErrorReduction(cmBaseline, cmCombined).total == NegInf
  {
  }

  /** With baseline errors the total reduction is the guarded formula on the sums. */
  lemma TotalReductionDefined(cmBaseline: seq<seq<int>>, cmCombined: seq<seq<int>>)
    requires |cmBaseline| == 2 && |cmBaseline[0]| == 2 && |cmBaseline[1]| == 2
    requires |cmCombined| == 2 && |cmCombined[0]| == 2 && |cmCombined[1]| == 2
    requires cmBaseline[1][0] + cmBaseline[0][1] > 0
    ensures ErrorReduction(cmBaseline, cmCombined).total ==
      Num(GuardedReduction(cmBaseline[1][0] + cmBaseline[0][1], cmCombined[1][0] + cmCombined[0][1]))
  {
  }
}
