/**
  The scorers and the improvement summary of the comprehensive report
  (generate_comprehensive_report.py).  Its extract_answer_pope and its
  `gen_dict` are the enhanced report's, so EnhancedReport.ExtractAnswer and
  EnhancedReport.GenDict serve both; what differs is stated here and related
  to the enhanced report by lemmas.
*/
module ComprehensiveReport {
  import opened Wrappers
  import opened PyStr
  import EvalPope
  import opened EnhancedReport

  /** Lines 46-67: the label is read before the match test, so a missing label
      fails even on an item without a generation. */
  function PopeTallyEager(gt: seq<GtItem>, d: map<int, string>): Result<Tally, EvalError> {
    if |gt| == 0 then Ok(Tally(0, 0, 0, 0, 0))
    else
      match PopeTallyEager(gt[..|gt| - 1], d)
      case Err(e) => Err(e)
      case Ok(t) =>
        var item := gt[|gt| - 1];
        if item.truth.None? then Err(MissingLabel(item.questionId))
        else if item.questionId !in d then Ok(t)
        else Ok(Count(t, EvalPope.Normalize(item.truth.value), ExtractAnswer(d[item.questionId])))
  }

  /** When every label is present both scorers count the same; the comprehensive
      scorer fails whenever the enhanced one does, and also on a missing label of
      an unmatched item. */
  lemma {:induction false} EagerTallyAgrees(gt: seq<GtItem>, d: map<int, string>)
    ensures PopeTallyEager(gt, d).Ok? ==> PopeTally(gt, d) == PopeTallyEager(gt, d)
    ensures PopeTally(gt, d).Err? ==> PopeTallyEager(gt, d).Err?
    ensures PopeTallyEager(gt, d).Err? <==> exists k :: 0 <= k < |gt| && gt[k].truth.None?
  {
    if |gt| > 0 {
      var init := gt[..|gt| - 1];
      EagerTallyAgrees(init, d);
      assert forall k :: 0 <= k < |init| ==> init[k] == gt[k];
      if PopeTallyEager(gt, d).Err? && PopeTallyEager(init, d).Ok? {
        assert gt[|gt| - 1].truth.None?;
      }
    }
  }

  /** The values of evaluate_pope_results' dictionary: there is no 'total' key. */
  datatype Ratios = Ratios(accuracy: real, precision: real, recall: real, f1: real, yesProportion: real)

  /** `x / y if y > 0 else 0`. */
  function Fraction(x: nat, y: nat): real {
    if y > 0 then x as real / y as real else 0.0
  }

  /** Lines 69-84: the ratios in [0, 1], scaled by 100 when returned. */
  function PopeRatios(t: Tally): Ratios {
    var total := t.tp + t.tn + t.fp + t.fn;
    var precision := Fraction(t.tp, t.tp + t.fp);
    var recall := Fraction(t.tp, t.tp + t.fn);
    Ratios(Fraction(t.tp + t.tn, total) * 100.0, precision * 100.0, recall * 100.0,
           Harmonic(precision, recall) * 100.0, Fraction(t.yes, total) * 100.0)
  }

  function RatiosOf(r: Result<Tally, EvalError>): Result<Ratios, EvalError> {
    match r
    case Err(e) => Err(e)
    case Ok(t) => Ok(PopeRatios(t))
  }

  lemma {:induction false} EagerErrorPersists(gt: seq<GtItem>, d: map<int, string>, i: nat)
    requires i <= |gt| && PopeTallyEager(gt[..i], d).Err?
    ensures PopeTallyEager(gt, d) == PopeTallyEager(gt[..i], d)
    decreases |gt| - i
  {
    if i < |gt| {
      assert gt[..i + 1][..i] == gt[..i];
      EagerErrorPersists(gt, d, i + 1);
    } else {
      assert gt[..i] == gt;
    }
  }

  /** evaluate_pope_results on the loaded records. */
  method EvaluatePopeResults(gt: seq<GtItem>, gen: seq<EvalPope.GenRecord>) returns (r: Result<Ratios, EvalError>)
    ensures r == RatiosOf(PopeTallyEager(gt, GenDict(gen)))
  {
    var genDict := GenDict(gen);
    var counts := Tally(0, 0, 0, 0, 0);
    var i := 0;
    while i < |gt|
      invariant 0 <= i <= |gt|
      invariant PopeTallyEager(gt[..i], genDict) == Ok(counts)
    {
      assert gt[..i + 1][..i] == gt[..i];
      var qid := gt[i].questionId;
      if gt[i].truth.None? {
        r := Err(MissingLabel(qid));
        EagerErrorPersists(gt, genDict, i + 1);
        return;
      }
      var gtAnswer := EvalPope.Normalize(gt[i].truth.value);
      if qid in genDict {
        var genAnswer := ExtractAnswer(genDict[qid]);
        counts := CountItem(counts, gtAnswer, genAnswer);
      }
      i := i + 1;
    }
    assert gt[..|gt|] == gt;
    r := Ok(PopeRatios(counts));
  }

  /** Scaling after the division is scaling before it: on the same counts the two
      reports give the same accuracy, precision, recall, f1 and yes proportion. */
  lemma RatiosAgreeWithPercentages(t: Tally)
    ensures var q := PopeRatios(t); var s := PopeScores(t);
      && q.accuracy == s.accuracy && q.precision == s.precision && q.recall == s.recall
      && q.f1 == s.f1 && q.yesProportion == s.yesProportion
  {
    var p, r := Fraction(t.tp, t.tp + t.fp), Fraction(t.tp, t.tp + t.fn);
    FractionScales(t.tp + t.tn, t.tp + t.tn + t.fp + t.fn);
    FractionScales(t.tp, t.tp + t.fp);
    FractionScales(t.tp, t.tp + t.fn);
    FractionScales(t.yes, t.tp + t.tn + t.fp + t.fn);
    FractionNonneg(t.tp, t.tp + t.fp);
    FractionNonneg(t.tp, t.tp + t.fn);
    HarmonicScales(p, r, 100.0);
  }

  lemma FractionScales(x: nat, y: nat)
    ensures Fraction(x, y) * 100.0 == Percent(x, y)
  {
  }

  lemma FractionNonneg(x: nat, y: nat)
    ensures Fraction(x, y) >= 0.0
  {
  }

  /** The harmonic mean commutes with a positive scale factor. */
  lemma HarmonicScales(p: real, r: real, c: real)
    requires p >= 0.0 && r >= 0.0 && c > 0.0
    ensures Harmonic(p, r) * c == Harmonic(p * c, r * c)
  {
    if p + r > 0.0 {
      assert p * c + r * c == (p + r) * c;
      assert 2.0 * (p * c) * (r * c) == (2.0 * p * r) * c * c;
      assert (p * c + r * c) > 0.0 by {
        assert (p + r) * c > 0.0;
      }
    } else {
      assert p == 0.0 && r == 0.0;
    }
  }

  // ---------------------------------------------------------------------------
  // evaluate_hallucinogen_results

  /** Lines 105-116: no non-empty guard. */
  function HallucinogenTallyUnguarded(gt: seq<GtItem>, d: map<int, string>): (c: HalluTally)
    ensures c.correct <= c.total
    ensures c.total == Matched(gt, d)
  {
    if |gt| == 0 then HalluTally(0, 0)
    else
      var c := HallucinogenTallyUnguarded(gt[..|gt| - 1], d);
      var item := gt[|gt| - 1];
      if item.questionId !in d then c
      else
        var gtAnswer, genAnswer := EvalPope.Normalize(AnswerText(item)), EvalPope.Normalize(d[item.questionId]);
        if Contains(genAnswer, gtAnswer) || StartsWith(genAnswer, gtAnswer) then HalluTally(c.correct + 1, c.total + 1)
        else HalluTally(c.correct, c.total + 1)
  }

  /** Lines 118-128: accuracy stands for every metric; no 'total' key. */
  function HallucinogenRatios(c: HalluTally): Ratios {
    var accuracy := Percent(c.correct, c.total);
    Ratios(accuracy, accuracy, accuracy, accuracy, 50.0)
  }

  /** evaluate_hallucinogen_results on the loaded records. */
  method EvaluateHallucinogenResults(gt: seq<GtItem>, gen: seq<EvalPope.GenRecord>) returns (s: Ratios)
    ensures s == HallucinogenRatios(HallucinogenTallyUnguarded(gt, GenDict(gen)))
  {
    var genDict := GenDict(gen);
    var correct, total := 0, 0;
    var i := 0;
    while i < |gt|
      invariant 0 <= i <= |gt|
      invariant HallucinogenTallyUnguarded(gt[..i], genDict) == HalluTally(correct, total)
    {
      assert gt[..i + 1][..i] == gt[..i];
      var qid := gt[i].questionId;
      if qid in genDict {
        var gtAnswer := EvalPope.Normalize(AnswerText(gt[i]));
        var genAnswer := EvalPope.Normalize(genDict[qid]);
        if Contains(genAnswer, gtAnswer) || StartsWith(genAnswer, gtAnswer) {
          correct := correct + 1;
        }
        total := total + 1;
      }
      i := i + 1;
    }
    assert gt[..|gt|] == gt;
    var accuracy := if total > 0 then correct as real / total as real * 100.0 else 0.0;
    s := Ratios(accuracy, accuracy, accuracy, accuracy, 50.0);
  }

  /** The matched items whose normalized answer is empty. */
  function EmptyAnswers(gt: seq<GtItem>, d: map<int, string>): nat {
    if |gt| == 0 then 0
    else
      var item := gt[|gt| - 1];
      EmptyAnswers(gt[..|gt| - 1], d) + (if item.questionId in d && EvalPope.Normalize(AnswerText(item)) == "" then 1 else 0)
  }

  /** Without the guard every empty answer is counted correct: the two scorers
      match the same items and differ exactly by the empty answers. */
  lemma {:induction false} UnguardedCountsEmptyAnswers(gt: seq<GtItem>, d: map<int, string>)
    ensures HallucinogenTallyUnguarded(gt, d).total == HallucinogenTally(gt, d).total
    ensures HallucinogenTallyUnguarded(gt, d).correct == HallucinogenTally(gt, d).correct + EmptyAnswers(gt, d)
  {
    if |gt| > 0 {
      var init := gt[..|gt| - 1];
      UnguardedCountsEmptyAnswers(init, d);
      var item := gt[|gt| - 1];
      if item.questionId in d {
        var a := EvalPope.Normalize(AnswerText(item));
        if a == "" {
          EmptyContained(EvalPope.Normalize(d[item.questionId]));
        }
      }
    }
  }

  // ---------------------------------------------------------------------------
  // The improvement summary (lines 247-284)

  const Datasets: seq<string> := ["coco_pope", "aokvqa_pope", "hallucinogen_identification",
    "hallucinogen_localization", "hallucinogen_visual_context", "hallucinogen_counterfactual"]

  /** results[model][dataset][method]. */
  type Table = map<string, map<string, map<string, Ratios>>>

  /** `combined_f1 - baseline_f1` when results[model][dataset] has both methods. */
  function GainOf(results: Table, model: string, dataset: string): Option<real> {
    if model in results && dataset in results[model]
       && "baseline" in results[model][dataset] && "combined" in results[model][dataset]
    then Some(results[model][dataset]["combined"].f1 - results[model][dataset]["baseline"].f1)
    else None
  }

  /** A table cell: a signed improvement, or "-" when a method is missing. */
  datatype Cell = Missing | Improvement(value: real)

  function CellOf(g: Option<real>): Cell {
    match g
    case None => Missing
    case Some(x) => Improvement(x)
  }

  /** Lines 247-260: one row per dataset, one cell per model. */
  method ImprovementRows(results: Table) returns (rows: seq<seq<Cell>>)
    ensures |rows| == |Datasets|
    ensures forall i :: 0 <= i < |rows| ==> |rows[i]| == |Models|
    ensures forall i, k :: 0 <= i < |rows| && 0 <= k < |Models| ==>
      rows[i][k] == CellOf(GainOf(results, Models[k], Datasets[i]))
  {
    rows := [];
    var i := 0;
    while i < |Datasets|
      invariant 0 <= i <= |Datasets| && |rows| == i
      invariant forall i' :: 0 <= i' < i ==> |rows[i']| == |Models|
      invariant forall i', k :: 0 <= i' < i && 0 <= k < |Models| ==>
        rows[i'][k] == CellOf(GainOf(results, Models[k], Datasets[i']))
    {
      var datasetKey := Datasets[i];
      var improvements := ImprovementRow(results, datasetKey);
      rows := rows + [improvements];
      i := i + 1;
    }
  }

  /** The inner loop of lines 248-258: one cell per model for one dataset. */
  method ImprovementRow(results: Table, datasetKey: string) returns (improvements: seq<Cell>)
    ensures |improvements| == |Models|
    ensures forall k :: 0 <= k < |Models| ==> improvements[k] == CellOf(GainOf(results, Models[k], datasetKey))
  {
    improvements := [];
    var m := 0;
    while m < |Models|
      invariant 0 <= m <= |Models| && |improvements| == m
      invariant forall k :: 0 <= k < m ==> improvements[k] == CellOf(GainOf(results, Models[k], datasetKey))
    {
      var model := Models[m];
      if model in results && datasetKey in results[model]
         && "baseline" in results[model][datasetKey] && "combined" in results[model][datasetKey] {
        var baselineF1 := results[model][datasetKey]["baseline"].f1;
        var combinedF1 := results[model][datasetKey]["combined"].f1;
        improvements := improvements + [Improvement(combinedF1 - baselineF1)];
      } else {
        improvements := improvements + [Missing];
      }
      m := m + 1;
    }
  }

  /** The gains of a model over the datasets that have both methods, in order. */
  function ModelGains(results: Table, model: string, datasets: seq<string>): (g: seq<real>)
    ensures |g| <= |datasets|
  {
    if |datasets| == 0 then []
    else
      var g := ModelGains(results, model, datasets[..|datasets| - 1]);
      match GainOf(results, model, datasets[|datasets| - 1])
      case None => g
      case Some(x) => g + [x]
  }

  /** A model gets an average line iff some dataset has both of its methods. */
  lemma {:induction false} ModelGainsEmpty(results: Table, model: string, datasets: seq<string>)
    ensures |ModelGains(results, model, datasets)| == 0 <==>
      forall i :: 0 <= i < |datasets| ==> GainOf(results, model, datasets[i]).None?
  {
    if |datasets| > 0 {
      var init := datasets[..|datasets| - 1];
      ModelGainsEmpty(results, model, init);
      assert forall i :: 0 <= i < |init| ==> init[i] == datasets[i];
    }
  }

  /** Lines 266-284: the average of each model, None where no line is written. */
  method ModelAverages(results: Table) returns (avgs: seq<Option<real>>)
    ensures |avgs| == |Models|
    ensures forall k :: 0 <= k < |Models| ==>
      avgs[k] == (var g := ModelGains(results, Models[k], Datasets); if |g| == 0 then None else Some(Mean(g)))
  {
    avgs := [];
    var m := 0;
    while m < |Models|
      invariant 0 <= m <= |Models| && |avgs| == m
      invariant forall k :: 0 <= k < m ==>
        avgs[k] == (var g := ModelGains(results, Models[k], Datasets); if |g| == 0 then None else Some(Mean(g)))
    {
      var model := Models[m];
      var improvements := ModelImprovements(results, model);
      if |improvements| > 0 {
        avgs := avgs + [Some(Sum(improvements) / |improvements| as real)];
      } else {
        avgs := avgs + [None];
      }
      m := m + 1;
    }
  }

  /** The inner loop of lines 272-279: one model's gains over the datasets. */
  method ModelImprovements(results: Table, model: string) returns (improvements: seq<real>)
    ensures improvements == ModelGains(results, model, Datasets)
  {
    improvements := [];
    var i := 0;
    while i < |Datasets|
      invariant 0 <= i <= |Datasets|
      invariant improvements == ModelGains(results, model, Datasets[..i])
    {
      assert Datasets[..i + 1][..i] == Datasets[..i];
      var datasetKey := Datasets[i];
      if model in results && datasetKey in results[model]
         && "baseline" in results[model][datasetKey] && "combined" in results[model][datasetKey] {
        var baselineF1 := results[model][datasetKey]["baseline"].f1;
        var combinedF1 := results[model][datasetKey]["combined"].f1;
        improvements := improvements + [combinedF1 - baselineF1];
      }
      i := i + 1;
    }
    assert Datasets[..|Datasets|] == Datasets;
  }

  /** The per-model average is taken over exactly the datasets of the row cells
      that are not "-": each average lies between the smallest and largest of them. */
  lemma {:induction false} ModelGainsAreCells(results: Table, model: string, datasets: seq<string>, j: int)
    requires 0 <= j < |ModelGains(results, model, datasets)|
    ensures exists i :: 0 <= i < |datasets| && GainOf(results, model, datasets[i]) == Some(ModelGains(results, model, datasets)[j])
  {
    var init := datasets[..|datasets| - 1];
    var g := ModelGains(results, model, init);
    if j < |g| {
      ModelGainsAreCells(results, model, init, j);
      var i :| 0 <= i < |init| && GainOf(results, model, init[i]) == Some(g[j]);
      assert datasets[i] == init[i];
    } else {
      assert GainOf(results, model, datasets[|datasets| - 1]) == Some(ModelGains(results, model, datasets)[j]);
    }
  }

  /** An average line lies within the range of the model's improvement cells. */
  lemma AverageWithinCells(results: Table, model: string, lo: real, hi: real)
    requires forall i :: 0 <= i < |Datasets| && GainOf(results, model, Datasets[i]).Some? ==>
      lo <= GainOf(results, model, Datasets[i]).value <= hi
    requires |ModelGains(results, model, Datasets)| > 0
    ensures lo <= Mean(ModelGains(results, model, Datasets)) <= hi
  {
    var g := ModelGains(results, model, Datasets);
    forall j | 0 <= j < |g| ensures lo <= g[j] <= hi {
      ModelGainsAreCells(results, model, Datasets, j);
    }
    MeanBounds(g, lo, hi);
  }
}
