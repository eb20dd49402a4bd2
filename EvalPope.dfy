/**
  The POPE scorer (eval_pope.py, evaluate_pope): every ground-truth item is
  matched with the first generated record of the same question id and
  classified into the confusion matrix by substring tests; the metrics follow.
  Reading the JSON files and printing are not part of this model: the records
  are inputs.
*/
module EvalPope {
  import opened Wrappers
  import opened PyStr

  /** A ground-truth line; a key the JSON object lacks is None. */
  datatype GtRecord = GtRecord(questionId: Option<int>, truth: Option<string>)
  /** A generated line of the JSONL file; a key it lacks is None. */
  datatype GenLine = GenLine(questionId: Option<int>, text: Option<string>)
  /** A generated record with both keys, as the reports' dictionaries hold them. */
  datatype GenRecord = GenRecord(questionId: int, text: string)

  datatype Outcome = TruePos | TrueNeg | FalsePos | FalseNeg | Unknown

  /** accuracy, yes_proportion and unknown_proportion divide by len(gt) unguarded;
      a subscript of a missing key raises KeyError with that key. */
  datatype EvalError = ZeroDivision | KeyError(key: string)

  /** Every record before position n carries a question_id different from id. */
  predicate PassedOver(gen: seq<GenLine>, id: int, n: int)
    requires 0 <= n <= |gen|
  {
    forall j :: 0 <= j < n ==> gen[j].questionId.Some? && gen[j].questionId.value != id
  }

  /** The search of lines 54-58: the position of the first generated record for a
      question id, or None; reading a record without question_id before the match
      raises KeyError. */
  function FirstMatch(gen: seq<GenLine>, id: int): (r: Result<Option<nat>, EvalError>)
    ensures r.Ok? && r.value.Some? ==>
      r.value.value < |gen| && gen[r.value.value].questionId == Some(id) && PassedOver(gen, id, r.value.value)
    ensures r == Ok(None) <==> PassedOver(gen, id, |gen|)
    ensures r.Err? ==> r.error == KeyError("question_id")
    ensures r.Err? ==> exists j :: 0 <= j < |gen| && gen[j].questionId.None? && PassedOver(gen, id, j)
  {
    if |gen| == 0 then Ok(None)
    else if gen[0].questionId.None? then
      assert PassedOver(gen, id, 0);
      Err(KeyError("question_id"))
    else if gen[0].questionId.value == id then Ok(Some(0))
    else
      var rest := FirstMatch(gen[1..], id);
      assert forall n :: 0 <= n < |gen| ==> (PassedOver(gen[1..], id, n) <==> PassedOver(gen, id, n + 1)) by {
        forall n | 0 <= n < |gen|
          ensures PassedOver(gen[1..], id, n) <==> PassedOver(gen, id, n + 1)
        {
          assert forall j :: 0 <= j < n ==> gen[1..][j] == gen[j + 1];
        }
      }
      match rest
      case Err(e) =>
        assert exists j :: 0 <= j < |gen| - 1 && gen[1..][j].questionId.None? && PassedOver(gen[1..], id, j);
        Err(e)
      case Ok(None) => Ok(None)
      case Ok(Some(j)) => Ok(Some(j + 1))
  }

  /** `s.lower().strip()`. */
  function Normalize(s: string): string {
    Strip(Lower(s))
  }

  /** Lines 72-87, on normalized strings. */
  function Classify(truth: string, answer: string): Outcome {
    if truth == "yes" then (if Contains(answer, "yes") then TruePos else FalseNeg)
    else if truth == "no" then (if Contains(answer, "no") then TrueNeg else FalsePos)
    else Unknown
  }

  /** The outcome of one ground-truth item, with the KeyErrors of lines 50, 51, 56
      and 65 in the order the source raises them; an item without a generation is
      unknown. */
  function OutcomeOf(item: GtRecord, gen: seq<GenLine>): (r: Result<Outcome, EvalError>)
    ensures r.Err? ==> r.error.KeyError?
  {
    if item.questionId.None? then Err(KeyError("question_id"))
    else if item.truth.None? then Err(KeyError("label"))
    else match FirstMatch(gen, item.questionId.value)
      case Err(e) => Err(e)
      case Ok(None) => Ok(Unknown)
      case Ok(Some(j)) => LineOutcome(item.truth.value, Some(gen[j]))
  }

  /** The outcome of an item with label `truth` whose first generated record, if
      any, is `genLine`. */
  function LineOutcome(truth: string, genLine: Option<GenLine>): (r: Result<Outcome, EvalError>)
    ensures r.Err? <==> genLine.Some? && genLine.value.text.None?
    ensures r.Err? ==> r.error == KeyError("text")
  {
    match genLine
    case None => Ok(Unknown)
    case Some(g) =>
      if g.text.None? then Err(KeyError("text"))
      else Ok(Classify(Normalize(truth), Normalize(g.text.value)))
  }

  datatype Counts = Counts(truePos: nat, trueNeg: nat, falsePos: nat, falseNeg: nat, unknown: nat, yesAnswers: nat)

  /** The counter increments of one item. */
  function Add(c: Counts, o: Outcome): Counts {
    match o
    case TruePos => c.(truePos := c.truePos + 1, yesAnswers := c.yesAnswers + 1)
    case TrueNeg => c.(trueNeg := c.trueNeg + 1)
    case FalsePos => c.(falsePos := c.falsePos + 1, yesAnswers := c.yesAnswers + 1)
    case FalseNeg => c.(falseNeg := c.falseNeg + 1)
    case Unknown => c.(unknown := c.unknown + 1)
  }

  /** The values of rs in order, or the first error among them. */
  function FirstErrorOr(rs: seq<Result<Outcome, EvalError>>): Result<seq<Outcome>, EvalError>
    decreases |rs|
  {
    if |rs| == 0 then Ok([])
    else
      match FirstErrorOr(rs[..|rs| - 1])
      case Err(e) => Err(e)
      case Ok(os) =>
        match rs[|rs| - 1]
        case Err(e) => Err(e)
        case Ok(o) => Ok(os + [o])
  }

  /** The result of each ground-truth item, in order. */
  function ItemResults(gt: seq<GtRecord>, gen: seq<GenLine>): seq<Result<Outcome, EvalError>> {
    seq(|gt|, i requires 0 <= i < |gt| => OutcomeOf(gt[i], gen))
  }

  /** The outcomes of the ground-truth items in order, or the error of the first
      item that raises one (OutcomesPerItem). */
  function Outcomes(gt: seq<GtRecord>, gen: seq<GenLine>): Result<seq<Outcome>, EvalError> {
    FirstErrorOr(ItemResults(gt, gen))
  }

  /** The counters after a sequence of outcomes. */
  function Tally(os: seq<Outcome>): Counts {
    if |os| == 0 then Counts(0, 0, 0, 0, 0, 0)
    else Add(Tally(os[..|os| - 1]), os[|os| - 1])
  }

  /** The number of occurrences of an outcome. */
  function CountOutcome(os: seq<Outcome>, o: Outcome): nat {
    if |os| == 0 then 0
    else CountOutcome(os[..|os| - 1], o) + (if os[|os| - 1] == o then 1 else 0)
  }

  datatype PopeResult = PopeResult(
    precision: real, recall: real, f1: real, accuracy: real,
    yesProportion: real, unknownProportion: real,
    truePos: nat, trueNeg: nat, falsePos: nat, falseNeg: nat, total: nat)

  /** `x / y if y > 0 else 0`. */
  function Ratio(x: real, y: real): real {
    if y > 0.0 then x / y else 0.0
  }

  /** `2 * p * r / (p + r) if (p + r) > 0 else 0`. */
  function F1(p: real, r: real): real {
    Ratio(2.0 * p * r, p + r)
  }

  /** Lines 90-109. */
  function Metrics(c: Counts, total: nat): Result<PopeResult, EvalError> {
    var precision := Ratio(c.truePos as real, (c.truePos + c.falsePos) as real);
    var recall := Ratio(c.truePos as real, (c.truePos + c.falseNeg) as real);
    var f1 := F1(precision, recall);
    if total == 0 then Err(ZeroDivision)
    else Ok(PopeResult(precision, recall, f1,
                       (c.truePos + c.trueNeg) as real / total as real,
                       c.yesAnswers as real / total as real,
                       c.unknown as real / total as real,
                       c.truePos, c.trueNeg, c.falsePos, c.falseNeg, total))
  }

  /** evaluate_pope: the first error of the items, or the metrics of their outcomes. */
  function Evaluation(gt: seq<GtRecord>, gen: seq<GenLine>): Result<PopeResult, EvalError> {
    match Outcomes(gt, gen)
    case Err(e) => Err(e)
    case Ok(os) => Metrics(Tally(os), |gt|)
  }

  /** The inner search of lines 54-58: the first record with the question id. */
  method FindGeneration(gen: seq<GenLine>, idx: int) returns (genLine: Result<Option<GenLine>, EvalError>)
    ensures FirstMatch(gen, idx).Err? ==> genLine == Err(FirstMatch(gen, idx).error)
    ensures FirstMatch(gen, idx) == Ok(None) ==> genLine == Ok(None)
    ensures FirstMatch(gen, idx).Ok? && FirstMatch(gen, idx).value.Some? ==>
      genLine == Ok(Some(gen[FirstMatch(gen, idx).value.value]))
  {
    var j := 0;
    while j < |gen|
      invariant 0 <= j <= |gen|
      invariant PassedOver(gen, idx, j)
    {
      if gen[j].questionId.None? {
        FirstMatchPassed(gen, idx, j);
        return Err(KeyError("question_id"));
      }
      if gen[j].questionId.value == idx {
        FirstMatchPassed(gen, idx, j);
        return Ok(Some(gen[j]));
      }
      j := j + 1;
    }
    return Ok(None);
  }

  /** Past records that all carry another question id, the search is decided by
      the record at position n. */
  lemma {:induction false} FirstMatchPassed(gen: seq<GenLine>, id: int, n: nat)
    requires n < |gen| && PassedOver(gen, id, n)
    ensures gen[n].questionId.None? ==> FirstMatch(gen, id) == Err(KeyError("question_id"))
    ensures gen[n].questionId == Some(id) ==> FirstMatch(gen, id) == Ok(Some(n))
    decreases n
  {
    if n > 0 {
      assert PassedOver(gen[1..], id, n - 1) by {
        assert forall j :: 0 <= j < n - 1 ==> gen[1..][j] == gen[j + 1];
      }
      FirstMatchPassed(gen[1..], id, n - 1);
    }
  }

  /** The counter updates of lines 60-87 for one item, or the KeyError of line 65. */
  method Score(c: Counts, truth: string, genLine: Option<GenLine>) returns (d: Result<Counts, EvalError>)
    ensures LineOutcome(truth, genLine).Err? ==> d == Err(LineOutcome(truth, genLine).error)
    ensures LineOutcome(truth, genLine).Ok? ==> d == Ok(Add(c, LineOutcome(truth, genLine).value))
  {
    if genLine.None? {
      d := Ok(c.(unknown := c.unknown + 1));
    } else if genLine.value.text.None? {
      d := Err(KeyError("text"));
    } else {
      var gtAnswer := Strip(Lower(truth));
      var genAnswer := Strip(Lower(genLine.value.text.value));
      var counts := ScoreAnswer(c, gtAnswer, genAnswer);
      d := Ok(counts);
    }
  }

  /** Lines 72-87: the increments for a normalized label and answer. */
  method ScoreAnswer(c: Counts, gtAnswer: string, genAnswer: string) returns (d: Counts)
    ensures d == Add(c, Classify(gtAnswer, genAnswer))
  {
    var truePos, trueNeg, falsePos, falseNeg, unknown, yesAnswers :=
      c.truePos, c.trueNeg, c.falsePos, c.falseNeg, c.unknown, c.yesAnswers;
    if gtAnswer == "yes" {
      if Contains(genAnswer, "yes") {
        truePos := truePos + 1;
        yesAnswers := yesAnswers + 1;
      } else {
        falseNeg := falseNeg + 1;
      }
    } else if gtAnswer == "no" {
      if Contains(genAnswer, "no") {
        trueNeg := trueNeg + 1;
      } else {
        yesAnswers := yesAnswers + 1;
        falsePos := falsePos + 1;
      }
    } else {
      unknown := unknown + 1;
    }
    d := Counts(truePos, trueNeg, falsePos, falseNeg, unknown, yesAnswers);
  }

  /** The metric computation of lines 90-109. */
  method ComputeMetrics(c: Counts, totalQuestions: nat) returns (r: Result<PopeResult, EvalError>)
    ensures r == Metrics(c, totalQuestions)
  {
    var truePos, falsePos, falseNeg := c.truePos, c.falsePos, c.falseNeg;
    var precision := if truePos + falsePos > 0 then truePos as real / (truePos + falsePos) as real else 0.0;
    var recall := if truePos + falseNeg > 0 then truePos as real / (truePos + falseNeg) as real else 0.0;
    var f1 := if precision + recall > 0.0 then 2.0 * precision * recall / (precision + recall) else 0.0;
    assert precision == Ratio(c.truePos as real, (c.truePos + c.falsePos) as real);
    assert recall == Ratio(c.truePos as real, (c.truePos + c.falseNeg) as real);
    assert f1 == F1(precision, recall);
    if totalQuestions == 0 {
      return Err(ZeroDivision);
    }
    var accuracy := (truePos + c.trueNeg) as real / totalQuestions as real;
    var yesProportion := c.yesAnswers as real / totalQuestions as real;
    var unknownProp := c.unknown as real / totalQuestions as real;
    r := Ok(PopeResult(precision, recall, f1, accuracy, yesProportion, unknownProp,
                       truePos, c.trueNeg, falsePos, falseNeg, totalQuestions));
  }

  /** evaluate_pope on the loaded records; the six counters are held in one record.
      An empty ground truth is the only ZeroDivision. */
  method EvaluatePope(gt: seq<GtRecord>, gen: seq<GenLine>) returns (r: Result<PopeResult, EvalError>)
    ensures r == Evaluation(gt, gen)
    ensures r == Err(ZeroDivision) <==> |gt| == 0
  {
    var counts := Counts(0, 0, 0, 0, 0, 0);
    ghost var os: seq<Outcome> := [];
    var i := 0;
    while i < |gt|
      invariant 0 <= i <= |gt|
      invariant Outcomes(gt[..i], gen) == Ok(os)
      invariant counts == Tally(os)
    {
      OutcomesSnoc(gt, gen, i, os);
      var scored := ScoreItem(counts, gt[i], gen);
      if scored.Err? {
        OutcomesFirstError(gt, gen, i + 1);
        return Err(scored.error);
      }
      counts := scored.value;
      ghost var next := os + [OutcomeOf(gt[i], gen).value];
      assert next[..|os|] == os;
      os := next;
      i := i + 1;
    }
    assert gt[..|gt|] == gt;
    r := ComputeMetrics(counts, |gt|);
    EvaluationErrors(gt, gen);
  }

  /** The body of the loop of lines 49-87 for one item: its counter updates, or
      the KeyError it raises. */
  method ScoreItem(counts: Counts, item: GtRecord, gen: seq<GenLine>) returns (r: Result<Counts, EvalError>)
    ensures OutcomeOf(item, gen).Err? ==> r == Err(OutcomeOf(item, gen).error)
    ensures OutcomeOf(item, gen).Ok? ==> r == Ok(Add(counts, OutcomeOf(item, gen).value))
  {
    if item.questionId.None? {
      return Err(KeyError("question_id"));
    }
    var idx := item.questionId.value;
    if item.truth.None? {
      return Err(KeyError("label"));
    }
    var genLine := FindGeneration(gen, idx);
    if genLine.Err? {
      return Err(genLine.error);
    }
    r := Score(counts, item.truth.value, genLine.value);
  }

  /** One more item extends the outcomes by its own, or ends them with its error. */
  lemma OutcomesSnoc(gt: seq<GtRecord>, gen: seq<GenLine>, i: nat, os: seq<Outcome>)
    requires i < |gt| && Outcomes(gt[..i], gen) == Ok(os)
    ensures OutcomeOf(gt[i], gen).Err? ==> Outcomes(gt[..i + 1], gen) == Err(OutcomeOf(gt[i], gen).error)
    ensures OutcomeOf(gt[i], gen).Ok? ==> Outcomes(gt[..i + 1], gen) == Ok(os + [OutcomeOf(gt[i], gen).value])
  {
    var rs := ItemResults(gt[..i + 1], gen);
    assert rs[..i] == ItemResults(gt[..i], gen);
  }

  // ---------------------------------------------------------------------------
  // Properties

  /** Each counter counts exactly the items of its outcome, the five outcomes
      partition the items, and yes_answers = tp + fp. */
  lemma {:induction false} TallyPartitions(os: seq<Outcome>)
    ensures Tally(os).truePos == CountOutcome(os, TruePos)
    ensures Tally(os).trueNeg == CountOutcome(os, TrueNeg)
    ensures Tally(os).falsePos == CountOutcome(os, FalsePos)
    ensures Tally(os).falseNeg == CountOutcome(os, FalseNeg)
    ensures Tally(os).unknown == CountOutcome(os, Unknown)
    ensures var c := Tally(os);
      c.truePos + c.trueNeg + c.falsePos + c.falseNeg + c.unknown == |os|
    ensures Tally(os).yesAnswers == Tally(os).truePos + Tally(os).falsePos
  {
    if |os| > 0 {
      TallyPartitions(os[..|os| - 1]);
    }
  }

  /** The outcomes succeed iff every item does, and then hold each item's own
      outcome; otherwise the error is that of the first item that raises. */
  lemma OutcomesPerItem(gt: seq<GtRecord>, gen: seq<GenLine>)
    ensures Outcomes(gt, gen).Ok? <==> forall i :: 0 <= i < |gt| ==> OutcomeOf(gt[i], gen).Ok?
    ensures Outcomes(gt, gen).Ok? ==>
      var os := Outcomes(gt, gen).value;
      |os| == |gt| && forall i :: 0 <= i < |gt| ==> OutcomeOf(gt[i], gen) == Ok(os[i])
    ensures Outcomes(gt, gen).Err? ==>
      exists i :: 0 <= i < |gt| && OutcomeOf(gt[i], gen) == Err(Outcomes(gt, gen).error) &&
                  forall k :: 0 <= k < i ==> OutcomeOf(gt[k], gen).Ok?
  {
    var rs := ItemResults(gt, gen);
    var r := FirstErrorOr(rs);
    assert forall i :: 0 <= i < |gt| ==> rs[i] == OutcomeOf(gt[i], gen);
    if r.Err? {
      FirstErrorOrErr(rs);
      var i :| 0 <= i < |rs| && rs[i] == Err(r.error) && forall k :: 0 <= k < i ==> rs[k].Ok?;
      assert OutcomeOf(gt[i], gen) == Err(r.error);
      assert forall k :: 0 <= k < i ==> OutcomeOf(gt[k], gen).Ok?;
    } else {
      FirstErrorOrOk(rs);
      assert forall i :: 0 <= i < |gt| ==> OutcomeOf(gt[i], gen) == Ok(r.value[i]);
    }
  }

  lemma {:induction false} FirstErrorOrOk(rs: seq<Result<Outcome, EvalError>>)
    ensures FirstErrorOr(rs).Ok? ==>
      |FirstErrorOr(rs).value| == |rs| && forall i :: 0 <= i < |rs| ==> rs[i] == Ok(FirstErrorOr(rs).value[i])
    decreases |rs|
  {
    if |rs| > 0 && FirstErrorOr(rs).Ok? {
      var init := rs[..|rs| - 1];
      FirstErrorOrOk(init);
      var os := FirstErrorOr(init).value;
      assert FirstErrorOr(rs).value == os + [rs[|rs| - 1].value];
      assert forall i :: 0 <= i < |init| ==> init[i] == rs[i];
    }
  }

  lemma {:induction false} FirstErrorOrErr(rs: seq<Result<Outcome, EvalError>>)
    ensures FirstErrorOr(rs).Err? ==>
      exists i :: 0 <= i < |rs| && rs[i] == Err(FirstErrorOr(rs).error) &&
                  forall k :: 0 <= k < i ==> rs[k].Ok?
    decreases |rs|
  {
    if |rs| > 0 && FirstErrorOr(rs).Err? {
      var init := rs[..|rs| - 1];
      var e := FirstErrorOr(rs).error;
      assert forall k :: 0 <= k < |init| ==> init[k] == rs[k];
      if FirstErrorOr(init).Err? {
        FirstErrorOrErr(init);
        var i :| 0 <= i < |init| && init[i] == Err(e) && forall k :: 0 <= k < i ==> init[k].Ok?;
        assert rs[i] == Err(e);
      } else {
        FirstErrorOrOk(init);
        assert rs[|rs| - 1] == Err(e);
      }
    }
  }

  /** Once an item raises, the evaluation ends with that error: the outcomes of
      the whole ground truth are those of the prefix through that item. */
  lemma OutcomesFirstError(gt: seq<GtRecord>, gen: seq<GenLine>, n: nat)
    requires n <= |gt| && Outcomes(gt[..n], gen).Err?
    ensures Outcomes(gt, gen) == Outcomes(gt[..n], gen)
  {
    assert ItemResults(gt[..n], gen) == ItemResults(gt, gen)[..n];
    FirstErrorOrPrefix(ItemResults(gt, gen), n);
  }

  lemma {:induction false} FirstErrorOrPrefix(rs: seq<Result<Outcome, EvalError>>, n: nat)
    requires n <= |rs| && FirstErrorOr(rs[..n]).Err?
    ensures FirstErrorOr(rs) == FirstErrorOr(rs[..n])
    decreases |rs| - n
  {
    if n < |rs| {
      var init := rs[..|rs| - 1];
      assert init[..n] == rs[..n];
      FirstErrorOrPrefix(init, n);
    } else {
      assert rs[..n] == rs;
    }
  }

  /** The evaluation fails with ZeroDivision exactly on an empty ground truth;
      every other failure is a KeyError. */
  lemma EvaluationErrors(gt: seq<GtRecord>, gen: seq<GenLine>)
    ensures Evaluation(gt, gen) == Err(ZeroDivision) <==> |gt| == 0
    ensures Evaluation(gt, gen).Err? && |gt| > 0 ==> Evaluation(gt, gen).error.KeyError?
  {
    var r := Outcomes(gt, gen);
    OutcomesPerItem(gt, gen);
    if r.Err? {
      var i :| 0 <= i < |gt| && OutcomeOf(gt[i], gen) == Err(r.error) &&
        forall k :: 0 <= k < i ==> OutcomeOf(gt[k], gen).Ok?;
    }
  }

  /** The KeyErrors in the order the source raises them: the item's question_id,
      its label, the question_id of a generated record read before the match, and
      the text of the matched record. */
  lemma MissingKeys(item: GtRecord, gen: seq<GenLine>)
    ensures item.questionId.None? ==> OutcomeOf(item, gen) == Err(KeyError("question_id"))
    ensures item.questionId.Some? && item.truth.None? ==> OutcomeOf(item, gen) == Err(KeyError("label"))
    ensures item.questionId.Some? && item.truth.Some? && FirstMatch(gen, item.questionId.value).Err? ==>
      OutcomeOf(item, gen) == Err(KeyError("question_id"))
    ensures item.questionId.Some? && item.truth.Some? ==>
      var m := FirstMatch(gen, item.questionId.value);
      m.Ok? && m.value.Some? ==> (OutcomeOf(item, gen).Err? <==> gen[m.value.value].text.None?)
  {
  }

  /** The first generated record of a question id decides; later records with the
      same id, or without any question_id, are never read. */
  lemma FirstRecordWins(item: GtRecord, gen: seq<GenLine>, later: seq<GenLine>)
    requires item.questionId.Some?
    requires FirstMatch(gen, item.questionId.value).Ok? && FirstMatch(gen, item.questionId.value).value.Some?
    ensures OutcomeOf(item, gen + later) == OutcomeOf(item, gen)
  {
    FirstMatchOfExtension(gen, later, item.questionId.value);
  }

  lemma FirstMatchOfExtension(gen: seq<GenLine>, later: seq<GenLine>, id: int)
    requires FirstMatch(gen, id).Ok? && FirstMatch(gen, id).value.Some?
    ensures FirstMatch(gen + later, id) == FirstMatch(gen, id)
    ensures (gen + later)[FirstMatch(gen, id).value.value] == gen[FirstMatch(gen, id).value.value]
  {
    var g := gen + later;
    var j := FirstMatch(gen, id).value.value;
    assert g[j] == gen[j];
    assert PassedOver(g, id, j) by {
      assert forall k :: 0 <= k < j ==> g[k] == gen[k];
    }
    FirstMatchPassed(g, id, j);
  }

  /** An item without a generated record, or whose label is neither yes nor no
      after normalization, is unknown. */
  lemma UnknownCases(item: GtRecord, gen: seq<GenLine>)
    requires item.questionId.Some? && item.truth.Some?
    ensures PassedOver(gen, item.questionId.value, |gen|) ==> OutcomeOf(item, gen) == Ok(Unknown)
    ensures Normalize(item.truth.value) != "yes" && Normalize(item.truth.value) != "no" ==>
      OutcomeOf(item, gen).Err? || OutcomeOf(item, gen) == Ok(Unknown)
  {
  }

  /** The tests are substring tests: an answer that holds both words is credited
      for either label. */
  lemma HedgedAnswerCreditedBothWays(answer: string)
    requires Contains(answer, "yes") && Contains(answer, "no")
    ensures Classify("yes", answer) == TruePos && Classify("no", answer) == TrueNeg
  {
  }

  /** "not" holds "no": a negated answer to a 'no' question always counts as correct. */
  lemma AnswerNotContainsNo()
    ensures Classify("no", "not") == TrueNeg
  {
    assert OccursAt("not", "no", 0);
  }

  /** The guarded ratios are 0 on a zero denominator, the rest need a non-empty
      ground truth, and every ratio lies in [0, 1]. */
  lemma MetricsGuardsAndBounds(os: seq<Outcome>)
    ensures Metrics(Tally(os), |os|).Err? <==> |os| == 0
    ensures Metrics(Tally(os), |os|).Ok? ==>
      var m := Metrics(Tally(os), |os|).value;
      && (m.truePos + m.falsePos == 0 ==> m.precision == 0.0)
      && (m.truePos + m.falseNeg == 0 ==> m.recall == 0.0)
      && 0.0 <= m.precision <= 1.0 && 0.0 <= m.recall <= 1.0 && 0.0 <= m.f1 <= 1.0
      && 0.0 <= m.accuracy <= 1.0 && 0.0 <= m.yesProportion <= 1.0 && 0.0 <= m.unknownProportion <= 1.0
      && m.total == |os|
  {
    TallyPartitions(os);
    var c := Tally(os);
    if |os| > 0 {
      var n := |os| as real;
      var precision := Ratio(c.truePos as real, (c.truePos + c.falsePos) as real);
      var recall := Ratio(c.truePos as real, (c.truePos + c.falseNeg) as real);
      RatioInUnit(c.truePos as real, (c.truePos + c.falsePos) as real);
      RatioInUnit(c.truePos as real, (c.truePos + c.falseNeg) as real);
      F1InUnit(precision, recall);
      var m := Metrics(c, |os|).value;
      assert m.precision == precision && m.recall == recall;
      assert m.f1 == F1(precision, recall);
      RatioInUnit((c.truePos + c.trueNeg) as real, n);
      RatioInUnit(c.yesAnswers as real, n);
      RatioInUnit(c.unknown as real, n);
    }
  }

  lemma RatioInUnit(x: real, y: real)
    requires 0.0 <= x <= y
    ensures 0.0 <= Ratio(x, y) <= 1.0
  {
  }

  lemma MulNonneg(a: real, b: real)
    requires a >= 0.0 && b >= 0.0
    ensures a * b >= 0.0
  {
  }

  /** The harmonic mean of two values in [0, 1] lies in [0, 1]. */
  lemma F1InUnit(p: real, r: real)
    requires 0.0 <= p <= 1.0 && 0.0 <= r <= 1.0
    ensures 0.0 <= F1(p, r) <= 1.0
  {
    MulNonneg(p, r);
    if p + r > 0.0 {
      MulNonneg(p, 1.0 - r);
      MulNonneg(r, 1.0 - p);
      RatioInUnit(2.0 * p * r, p + r);
    }
  }
}
