/**
  The scorers of the enhanced report (generate_enhanced_report.py): the yes/no
  extraction, evaluate_pope and evaluate_hallucinogen over the loaded JSONL
  records, and the average F1 improvement of the executive summary.  Loading
  the files and writing the markdown are not part of this model.
*/
module EnhancedReport {
  import opened Wrappers
  import opened PyStr
  import opened EvalPope

  /** A ground-truth line: its question id and its 'label' and 'answer' keys,
      each None when the key is absent. */
  datatype GtItem = GtItem(questionId: int, truth: Option<string>, answer: Option<string>)

  /** extract_answer_pope: "yes" wins over "no", and "yes" is the default. */
  function ExtractAnswer(text: string): (a: string)
    ensures a == "yes" || a == "no"
  {
    var t := Normalize(text);
    if Contains(t, "yes") then "yes" else if Contains(t, "no") then "no" else "yes"
  }

  /** The answer is "no" exactly when the normalized text holds "no" but not "yes". */
  lemma ExtractAnswerCases(text: string)
    ensures Contains(Normalize(text), "yes") ==> ExtractAnswer(text) == "yes"
    ensures !Contains(Normalize(text), "yes") && !Contains(Normalize(text), "no") ==> ExtractAnswer(text) == "yes"
    ensures ExtractAnswer(text) == "no" <==> !Contains(Normalize(text), "yes") && Contains(Normalize(text), "no")
  {
  }

  /** `{item['question_id']: item for item in gen_data}`, keeping the text: the
      keys are the ids that occur, and a later record replaces an earlier one. */
  function GenDict(gen: seq<GenRecord>): (d: map<int, string>)
    ensures forall k :: 0 <= k < |gen| ==> gen[k].questionId in d
    ensures forall id :: id in d ==> exists k :: 0 <= k < |gen| && gen[k].questionId == id
  {
    if |gen| == 0 then map[]
    else
      var last := gen[|gen| - 1];
      var d := GenDict(gen[..|gen| - 1]);
      assert forall k :: 0 <= k < |gen| - 1 ==> gen[..|gen| - 1][k] == gen[k];
      d[last.questionId := last.text]
  }

  /** The text kept for an id is that of the last record with that id. */
  lemma {:induction false} LastRecordWins(gen: seq<GenRecord>, k: int)
    requires 0 <= k < |gen|
    requires forall j :: k < j < |gen| ==> gen[j].questionId != gen[k].questionId
    ensures GenDict(gen)[gen[k].questionId] == gen[k].text
  {
    if k < |gen| - 1 {
      var init := gen[..|gen| - 1];
      assert init[k] == gen[k];
      assert forall j :: k < j < |init| ==> init[j] == gen[j];
      LastRecordWins(init, k);
    }
  }

  /** The five counters of lines 39-61. */
  datatype Tally = Tally(tp: nat, tn: nat, fp: nat, fn: nat, yes: nat)

  /** `gt_item['label']` of a matched item is missing: a KeyError. */
  datatype EvalError = MissingLabel(questionId: int)

  /** Lines 49-61: the increments for one matched item. */
  function Count(t: Tally, gtAnswer: string, genAnswer: string): Tally {
    var yes := if genAnswer == "yes" then t.yes + 1 else t.yes;
    if gtAnswer == "yes" then
      if genAnswer == "yes" then t.(tp := t.tp + 1, yes := yes) else t.(fn := t.fn + 1, yes := yes)
    else
      if genAnswer == "yes" then t.(fp := t.fp + 1, yes := yes) else t.(tn := t.tn + 1, yes := yes)
  }

  /** Lines 41-61: unmatched items are skipped, and every label other than "yes"
      counts as negative. */
  function PopeTally(gt: seq<GtItem>, d: map<int, string>): Result<Tally, EvalError> {
    if |gt| == 0 then Ok(Tally(0, 0, 0, 0, 0))
    else
      match PopeTally(gt[..|gt| - 1], d)
      case Err(e) => Err(e)
      case Ok(t) =>
        var item := gt[|gt| - 1];
        if item.questionId !in d then Ok(t)
        else if item.truth.None? then Err(MissingLabel(item.questionId))
        else Ok(Count(t, Normalize(item.truth.value), ExtractAnswer(d[item.questionId])))
  }

  /** The number of items that have a generated record. */
  function Matched(gt: seq<GtItem>, d: map<int, string>): nat {
    if |gt| == 0 then 0
    else Matched(gt[..|gt| - 1], d) + (if gt[|gt| - 1].questionId in d then 1 else 0)
  }

  /** The matched items whose normalized label is "yes". */
  function Positives(gt: seq<GtItem>, d: map<int, string>): nat {
    if |gt| == 0 then 0
    else
      var item := gt[|gt| - 1];
      Positives(gt[..|gt| - 1], d)
        + (if item.questionId in d && item.truth.Some? && Normalize(item.truth.value) == "yes" then 1 else 0)
  }

  /** The matched items whose extracted answer is "yes". */
  function YesAnswers(gt: seq<GtItem>, d: map<int, string>): nat {
    if |gt| == 0 then 0
    else
      var item := gt[|gt| - 1];
      YesAnswers(gt[..|gt| - 1], d)
        + (if item.questionId in d && ExtractAnswer(d[item.questionId]) == "yes" then 1 else 0)
  }

  /** The counters partition the matched items: tp + fn are the positives,
      tp + fp and yes_count are the "yes" answers, and the four cells sum to the
      number of matched items. */
  lemma {:induction false} PopeTallyPartitions(gt: seq<GtItem>, d: map<int, string>)
    requires PopeTally(gt, d).Ok?
    ensures var t := PopeTally(gt, d).value;
      && t.tp + t.tn + t.fp + t.fn == Matched(gt, d)
      && t.tp + t.fn == Positives(gt, d)
      && t.tp + t.fp == YesAnswers(gt, d)
      && t.yes == t.tp + t.fp
  {
    if |gt| > 0 {
      var init := gt[..|gt| - 1];
      var item := gt[|gt| - 1];
      PopeTallyPartitions(init, d);
      var t := PopeTally(init, d).value;
      if item.questionId in d {
        var g, a := Normalize(item.truth.value), ExtractAnswer(d[item.questionId]);
        assert PopeTally(gt, d).value == Count(t, g, a);
        assert Positives(gt, d) == Positives(init, d) + (if g == "yes" then 1 else 0);
        assert YesAnswers(gt, d) == YesAnswers(init, d) + (if a == "yes" then 1 else 0);
        CountStep(t, g, a);
      }
    }
  }

  /** One matched item adds one cell, to the positives iff its label is "yes" and
      to the "yes" answers iff its answer is "yes". */
  lemma CountStep(t: Tally, g: string, a: string)
    ensures var u := Count(t, g, a);
      && u.tp + u.tn + u.fp + u.fn == t.tp + t.tn + t.fp + t.fn + 1
      && u.tp + u.fn == t.tp + t.fn + (if g == "yes" then 1 else 0)
      && u.tp + u.fp == t.tp + t.fp + (if a == "yes" then 1 else 0)
      && u.yes - (u.tp + u.fp) == t.yes - (t.tp + t.fp)
  {
  }

  /** A label missing on a matched item is an error, whatever comes after;
      labels of unmatched items are never read. */
  lemma {:induction false} PopeTallyErrors(gt: seq<GtItem>, d: map<int, string>)
    ensures PopeTally(gt, d).Err? <==>
      exists k :: 0 <= k < |gt| && gt[k].questionId in d && gt[k].truth.None?
  {
    if |gt| > 0 {
      var init := gt[..|gt| - 1];
      PopeTallyErrors(init, d);
      assert forall k :: 0 <= k < |init| ==> init[k] == gt[k];
      if PopeTally(gt, d).Err? && PopeTally(init, d).Ok? {
        assert gt[|gt| - 1].questionId in d && gt[|gt| - 1].truth.None?;
      }
    }
  }

  /** The values of evaluate_pope's result dictionary. */
  datatype Scores = Scores(accuracy: real, precision: real, recall: real, f1: real,
                           yesProportion: real, total: nat)

  /** `x / y * 100 if y > 0 else 0`. */
  function Percent(x: nat, y: nat): real {
    if y > 0 then x as real / y as real * 100.0 else 0.0
  }

  /** `2 * p * r / (p + r) if (p + r) > 0 else 0`. */
  function Harmonic(p: real, r: real): real {
    if p + r > 0.0 then 2.0 * p * r / (p + r) else 0.0
  }

  /** Lines 63-77. */
  function PopeScores(t: Tally): Scores {
    var total := t.tp + t.tn + t.fp + t.fn;
    var precision := Percent(t.tp, t.tp + t.fp);
    var recall := Percent(t.tp, t.tp + t.fn);
    Scores(Percent(t.tp + t.tn, total), precision, recall, Harmonic(precision, recall),
           Percent(t.yes, total), total)
  }

  function ScoresOf(r: Result<Tally, EvalError>): Result<Scores, EvalError> {
    match r
    case Err(e) => Err(e)
    case Ok(t) => Ok(PopeScores(t))
  }

  /** The first error of a prefix is the error of the whole. */
  lemma {:induction false} ErrorPersists(gt: seq<GtItem>, d: map<int, string>, i: nat)
    requires i <= |gt| && PopeTally(gt[..i], d).Err?
    ensures PopeTally(gt, d) == PopeTally(gt[..i], d)
    decreases |gt| - i
  {
    if i < |gt| {
      assert gt[..i + 1][..i] == gt[..i];
      ErrorPersists(gt, d, i + 1);
    } else {
      assert gt[..i] == gt;
    }
  }

  /** Lines 49-61 as statements. */
  method CountItem(t: Tally, gtAnswer: string, genAnswer: string) returns (u: Tally)
    ensures u == Count(t, gtAnswer, genAnswer)
  {
    var tp, tn, fp, fn, yesCount := t.tp, t.tn, t.fp, t.fn, t.yes;
    if genAnswer == "yes" {
      yesCount := yesCount + 1;
    }
    if gtAnswer == "yes" {
      if genAnswer == "yes" {
        tp := tp + 1;
      } else {
        fn := fn + 1;
      }
    } else {
      if genAnswer == "yes" {
        fp := fp + 1;
      } else {
        tn := tn + 1;
      }
    }
    u := Tally(tp, tn, fp, fn, yesCount);
  }

  /** evaluate_pope on the loaded records; the five counters are held in one record. */
  method EvaluatePope(gt: seq<GtItem>, gen: seq<GenRecord>) returns (r: Result<Scores, EvalError>)
    ensures r == ScoresOf(PopeTally(gt, GenDict(gen)))
  {
    var genDict := GenDict(gen);
    var counts := Tally(0, 0, 0, 0, 0);
    var i := 0;
    while i < |gt|
      invariant 0 <= i <= |gt|
      invariant PopeTally(gt[..i], genDict) == Ok(counts)
    {
      assert gt[..i + 1][..i] == gt[..i];
      var qid := gt[i].questionId;
      if qid in genDict {
        if gt[i].truth.None? {
          r := Err(MissingLabel(qid));
          ErrorPersists(gt, genDict, i + 1);
          return;
        }
        var gtAnswer := Normalize(gt[i].truth.value);
        var genAnswer := ExtractAnswer(genDict[qid]);
        counts := CountItem(counts, gtAnswer, genAnswer);
      }
      i := i + 1;
    }
    assert gt[..|gt|] == gt;
    r := Ok(PopeScores(counts));
  }

  /** Every percentage lies in [0, 100], is 0 on a zero denominator, and total is
      the number of matched items. */
  lemma PopeScoresBounds(gt: seq<GtItem>, d: map<int, string>)
    requires PopeTally(gt, d).Ok?
    ensures var t := PopeTally(gt, d).value; var s := PopeScores(t);
      && s.total == Matched(gt, d)
      && 0.0 <= s.accuracy <= 100.0 && 0.0 <= s.precision <= 100.0 && 0.0 <= s.recall <= 100.0
      && 0.0 <= s.f1 <= 100.0 && 0.0 <= s.yesProportion <= 100.0
      && (s.total == 0 ==> s.accuracy == 0.0 && s.yesProportion == 0.0)
      && (t.tp + t.fp == 0 ==> s.precision == 0.0)
      && (t.tp + t.fn == 0 ==> s.recall == 0.0)
  {
    PopeTallyPartitions(gt, d);
    TallyScoresBounds(PopeTally(gt, d).value);
  }

  lemma TallyScoresBounds(t: Tally)
    requires t.yes == t.tp + t.fp
    ensures var s := PopeScores(t);
      && s.total == t.tp + t.tn + t.fp + t.fn
      && 0.0 <= s.accuracy <= 100.0 && 0.0 <= s.precision <= 100.0 && 0.0 <= s.recall <= 100.0
      && 0.0 <= s.f1 <= 100.0 && 0.0 <= s.yesProportion <= 100.0
      && (s.total == 0 ==> s.accuracy == 0.0 && s.yesProportion == 0.0)
      && (t.tp + t.fp == 0 ==> s.precision == 0.0)
      && (t.tp + t.fn == 0 ==> s.recall == 0.0)
  {
    var total := t.tp + t.tn + t.fp + t.fn;
    PercentBounds(t.tp + t.tn, total);
    PercentBounds(t.tp, t.tp + t.fp);
    PercentBounds(t.tp, t.tp + t.fn);
    PercentBounds(t.yes, total);
    HarmonicBounds(Percent(t.tp, t.tp + t.fp), Percent(t.tp, t.tp + t.fn), 100.0);
  }

  lemma PercentBounds(x: nat, y: nat)
    requires x <= y
    ensures 0.0 <= Percent(x, y) <= 100.0
  {
    if y > 0 {
      assert x as real / y as real <= 1.0;
    }
  }

  lemma ProductNonneg(a: real, b: real)
    requires a >= 0.0 && b >= 0.0
    ensures a * b >= 0.0
  {
  }

  /** The harmonic mean of two values in [0, m] lies in [0, m]. */
  lemma HarmonicBounds(p: real, r: real, m: real)
    requires 0.0 <= p <= m && 0.0 <= r <= m
    ensures 0.0 <= Harmonic(p, r) <= m
  {
    if p + r > 0.0 {
      ProductNonneg(p, r);
      ProductNonneg(p, m - r);
      ProductNonneg(r, m - p);
      assert 2.0 * p * r <= m * (p + r);
    }
  }

  // ---------------------------------------------------------------------------
  // evaluate_hallucinogen

  /** `str(gt_item.get('answer', gt_item.get('label', '')))`. */
  function AnswerText(item: GtItem): string {
    match item.answer
    case Some(a) => a
    case None => match item.truth case Some(l) => l case None => ""
  }

  /** Line 99: a non-empty answer held in, or starting, the generation. */
  predicate Correct(gtAnswer: string, genText: string) {
    |gtAnswer| > 0 && (Contains(genText, gtAnswer) || StartsWith(genText, gtAnswer))
  }

  /** The startswith clause adds nothing: an answer is correct iff it is non-empty
      and a substring of the generation. */
  lemma CorrectIsContainment(gtAnswer: string, genText: string)
    ensures Correct(gtAnswer, genText) <==> |gtAnswer| > 0 && Contains(genText, gtAnswer)
  {
    if StartsWith(genText, gtAnswer) {
      StartsWithImpliesContains(genText, gtAnswer);
    }
  }

  datatype HalluTally = HalluTally(correct: nat, total: nat)

  /** Lines 89-102. */
  function HallucinogenTally(gt: seq<GtItem>, d: map<int, string>): (c: HalluTally)
    ensures c.correct <= c.total
    ensures c.total == Matched(gt, d)
  {
    if |gt| == 0 then HalluTally(0, 0)
    else
      var c := HallucinogenTally(gt[..|gt| - 1], d);
      var item := gt[|gt| - 1];
      if item.questionId !in d then c
      else if Correct(Normalize(AnswerText(item)), Normalize(d[item.questionId])) then HalluTally(c.correct + 1, c.total + 1)
      else HalluTally(c.correct, c.total + 1)
  }

  /** Lines 104-113: accuracy stands for every metric and yes_proportion is 50. */
  function HallucinogenScores(c: HalluTally): Scores {
    var accuracy := Percent(c.correct, c.total);
    Scores(accuracy, accuracy, accuracy, accuracy, 50.0, c.total)
  }

  /** evaluate_hallucinogen on the loaded records. */
  method EvaluateHallucinogen(gt: seq<GtItem>, gen: seq<GenRecord>) returns (s: Scores)
    ensures s == HallucinogenScores(HallucinogenTally(gt, GenDict(gen)))
  {
    var genDict := GenDict(gen);
    var correct, total := 0, 0;
    var i := 0;
    while i < |gt|
      invariant 0 <= i <= |gt|
      invariant HallucinogenTally(gt[..i], genDict) == HalluTally(correct, total)
    {
      assert gt[..i + 1][..i] == gt[..i];
      var qid := gt[i].questionId;
      if qid in genDict {
        var gtAnswer := Normalize(AnswerText(gt[i]));
        var genText := Normalize(genDict[qid]);
        if |gtAnswer| > 0 && (Contains(genText, gtAnswer) || StartsWith(genText, gtAnswer)) {
          correct := correct + 1;
        }
        total := total + 1;
      }
      i := i + 1;
    }
    assert gt[..|gt|] == gt;
    var accuracy := if total > 0 then correct as real / total as real * 100.0 else 0.0;
    s := Scores(accuracy, accuracy, accuracy, accuracy, 50.0, total);
  }

  /** The four metrics coincide, lie in [0, 100], and total counts the matched items. */
  lemma HallucinogenScoresAgree(gt: seq<GtItem>, d: map<int, string>)
    ensures var s := HallucinogenScores(HallucinogenTally(gt, d));
      && s.precision == s.accuracy && s.recall == s.accuracy && s.f1 == s.accuracy
      && 0.0 <= s.accuracy <= 100.0 && s.yesProportion == 50.0 && s.total == Matched(gt, d)
  {
    var c := HallucinogenTally(gt, d);
    PercentBounds(c.correct, c.total);
  }

  // ---------------------------------------------------------------------------
  // The average F1 improvement (lines 190-198)

  const Models: seq<string> := ["llava15", "llava16", "qwenvl"]

  /** results[model][dataset]: the scores of each method. */
  type Methods = map<string, Scores>

  /** A dataset entry of results[model], in insertion order. */
  datatype DatasetEntry = DatasetEntry(dataset: string, methods: Methods)

  /** `combined_f1 - baseline_f1` of a dataset that has both methods. */
  function Gain(m: Methods): Option<real> {
    if "baseline" in m && "combined" in m then Some(m["combined"].f1 - m["baseline"].f1) else None
  }

  /** The gains of the datasets that have both methods, in order. */
  function Gains(entries: seq<DatasetEntry>): (g: seq<real>)
    ensures |g| <= |entries|
  {
    if |entries| == 0 then []
    else
      var g := Gains(entries[..|entries| - 1]);
      match Gain(entries[|entries| - 1].methods)
      case None => g
      case Some(x) => g + [x]
  }

  /** all_improvements: the gains of every model in turn; a missing model has none. */
  function AllGains(results: map<string, seq<DatasetEntry>>, models: seq<string>): seq<real> {
    if |models| == 0 then []
    else
      AllGains(results, models[..|models| - 1])
        + (if models[|models| - 1] in results then Gains(results[models[|models| - 1]]) else [])
  }

  function Sum(xs: seq<real>): real {
    if |xs| == 0 then 0.0 else Sum(xs[..|xs| - 1]) + xs[|xs| - 1]
  }

  /** `sum(xs) / len(xs) if xs else 0`. */
  function Mean(xs: seq<real>): real {
    if |xs| == 0 then 0.0 else Sum(xs) / |xs| as real
  }

  /** Lines 190-198. */
  method AverageImprovement(results: map<string, seq<DatasetEntry>>) returns (avg: real)
    ensures avg == Mean(AllGains(results, Models))
  {
    var allImprovements: seq<real> := [];
    var m := 0;
    while m < |Models|
      invariant 0 <= m <= |Models|
      invariant allImprovements == AllGains(results, Models[..m])
    {
      var model := Models[m];
      var entries := if model in results then results[model] else [];
      var gains := EntryGains(entries);
      allImprovements := allImprovements + gains;
      assert Models[..m + 1][..m] == Models[..m];
      m := m + 1;
    }
    assert Models[..|Models|] == Models;
    avg := if |allImprovements| > 0 then Sum(allImprovements) / |allImprovements| as real else 0.0;
  }

  /** The inner loop of lines 192-196 over one model's entries. */
  method EntryGains(entries: seq<DatasetEntry>) returns (gains: seq<real>)
    ensures gains == Gains(entries)
  {
    gains := [];
    var k := 0;
    while k < |entries|
      invariant 0 <= k <= |entries|
      invariant gains == Gains(entries[..k])
    {
      assert entries[..k + 1][..k] == entries[..k];
      var methods := entries[k].methods;
      if "baseline" in methods && "combined" in methods {
        var baselineF1 := methods["baseline"].f1;
        var combinedF1 := methods["combined"].f1;
        gains := gains + [combinedF1 - baselineF1];
      }
      k := k + 1;
    }
    assert entries[..|entries|] == entries;
  }

  /** A sum of terms in [lo, hi] lies between n * lo and n * hi. */
  lemma {:induction false} SumBounds(xs: seq<real>, lo: real, hi: real)
    requires forall i :: 0 <= i < |xs| ==> lo <= xs[i] <= hi
    ensures |xs| as real * lo <= Sum(xs) <= |xs| as real * hi
  {
    if |xs| > 0 {
      SumBounds(xs[..|xs| - 1], lo, hi);
    }
  }

  /** The mean of terms in [lo, hi] lies in [lo, hi]. */
  lemma MeanBounds(xs: seq<real>, lo: real, hi: real)
    requires |xs| > 0
    requires forall i :: 0 <= i < |xs| ==> lo <= xs[i] <= hi
    ensures lo <= Mean(xs) <= hi
  {
    SumBounds(xs, lo, hi);
    var n := |xs| as real;
    assert n * lo <= Sum(xs) <= n * hi;
    DivideBounds(Sum(xs), n, lo, hi);
  }

  lemma DivideBounds(s: real, n: real, lo: real, hi: real)
    requires n > 0.0 && n * lo <= s <= n * hi
    ensures lo <= s / n <= hi
  {
  }

  /** Each gain belongs to a dataset entry that has both methods. */
  lemma {:induction false} GainsComeFromCompleteEntries(entries: seq<DatasetEntry>, i: int)
    requires 0 <= i < |Gains(entries)|
    ensures exists k :: 0 <= k < |entries| && Gain(entries[k].methods) == Some(Gains(entries)[i])
  {
    var init := entries[..|entries| - 1];
    var g := Gains(init);
    if i < |g| {
      GainsComeFromCompleteEntries(init, i);
      var k :| 0 <= k < |init| && Gain(init[k].methods) == Some(g[i]);
      assert entries[k] == init[k];
    } else {
      assert Gain(entries[|entries| - 1].methods) == Some(Gains(entries)[i]);
    }
  }

  /** Every complete dataset of every model has a positive gain. */
  predicate ConsistentGains(results: map<string, seq<DatasetEntry>>) {
    forall model, k :: model in results && 0 <= k < |results[model]| && Gain(results[model][k].methods).Some? ==>
      Gain(results[model][k].methods).value > 0.0
  }

  /** If the combined method beats the baseline on every complete dataset of every
      model, the average improvement is positive, or 0 when no dataset is complete. */
  lemma {:induction false} ConsistentGainsGivePositiveAverage(results: map<string, seq<DatasetEntry>>)
    requires ConsistentGains(results)
    ensures |AllGains(results, Models)| == 0 ==> Mean(AllGains(results, Models)) == 0.0
    ensures |AllGains(results, Models)| > 0 ==> Mean(AllGains(results, Models)) > 0.0
  {
    var xs := AllGains(results, Models);
    if |xs| > 0 {
      AllGainsPositive(results, Models);
      SumPositive(xs);
    }
  }

  lemma {:induction false} AllGainsPositive(results: map<string, seq<DatasetEntry>>, models: seq<string>)
    requires ConsistentGains(results)
    ensures forall i :: 0 <= i < |AllGains(results, models)| ==> AllGains(results, models)[i] > 0.0
  {
    if |models| > 0 {
      var init := models[..|models| - 1];
      AllGainsPositive(results, init);
      var model := models[|models| - 1];
      if model in results {
        var g := Gains(results[model]);
        forall i | 0 <= i < |g| ensures g[i] > 0.0 {
          GainsComeFromCompleteEntries(results[model], i);
        }
      }
    }
  }

  lemma {:induction false} SumPositive(xs: seq<real>)
    requires |xs| > 0
    requires forall i :: 0 <= i < |xs| ==> xs[i] > 0.0
    ensures Sum(xs) > 0.0
  {
    var init := xs[..|xs| - 1];
    if |init| > 0 {
      SumPositive(init);
    }
  }
}
