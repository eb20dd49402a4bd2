/**
  The autoregressive controller of the contrastive sampler (sample_vcd_agla.py,
  sample_vcd_agla, lines 71-287).

  What the source obtains from code that is not part of this model is an
  ORACLE here:
  - `forward` is the model's forward pass; it maps the prepared inputs of a
    branch to the last-position logits of every row and the new cache;
  - `update` is transformers' _update_model_kwargs_for_generation;
  - `choose` stands for torch.multinomial: for (step, row, gated row) it names
    the k-th admissible position (counted modulo their number), so the sampled
    token is always a position with finite logit, and every such position can
    be drawn;
  - `stop` is the caller's stopping criteria beyond the length limit.
  The stopping criteria always include a maximal length (transformers' generate
  adds a MaxLengthCriteria): the loop stops once the rows reach `maxLength`.
*/
module Generation {
  import opened Wrappers
  import opened Fusion
  import opened BranchInputs

  /** `outputs.logits[:, -1, :]` (one row per sequence) and the returned cache. */
  datatype ModelOutput = ModelOutput(logits: seq<seq<real>>, pastKeyValues: Option<Cache>)

  datatype Oracle = Oracle(
    forward: ModelInputs -> ModelOutput,
    update: (ModelOutput, Kwargs) -> Kwargs,
    choose: (nat, nat, seq<Logit>) -> nat,
    stop: TokenIds -> bool)

  /** pad_token_id and eos_token_id after their defaults are resolved (an int
      eos_token_id is already the one-element list), the maximal length, and
      torch.log. */
  datatype Config = Config(pad: Option<int>, eos: Option<seq<int>>, maxLength: nat, ln: real -> Logit)

  datatype GenError =
    | PadUndefined                           // the ValueError of line 219
    | MalformedLogits(step: nat)             // logits whose shapes the tensor operations reject
    | DegenerateDistribution(step: nat)      // a row with every position -inf: multinomial fails

  /** The loop's variables: input_ids, unfinished_sequences, the three model_kwargs
      (the auxiliary ones None when their branch is off) and step. */
  datatype Session = Session(
    ids: TokenIds,
    unfinished: seq<int>,
    kw: Kwargs,
    kwCd: Option<Kwargs>,
    kwAgla: Option<Kwargs>,
    step: nat)

  predicate Rectangular(ids: TokenIds) {
    |ids| > 0 && forall k :: 0 <= k < |ids| ==> |ids[k]| == |ids[0]|
  }

  /** A session of a batch: rectangular token rows, a 0/1 mask per row. */
  predicate Valid(s: Session) {
    && Rectangular(s.ids)
    && |s.unfinished| == |s.ids|
    && forall k :: 0 <= k < |s.unfinished| ==> s.unfinished[k] == 0 || s.unfinished[k] == 1
  }

  /** The state before the first iteration (lines 104-133): a branch is active
      exactly when its image keyword argument is not None, and then starts from
      a copy of model_kwargs. */
  function Init(ids: TokenIds, kw: Kwargs): (s: Session)
    ensures s.kwCd.Some? <==> kw.imagesCd.Some?
    ensures s.kwAgla.Some? <==> kw.imagesAgla.Some?
    ensures s.kwCd.Some? ==> s.kwCd.value == kw
    ensures s.kwAgla.Some? ==> s.kwAgla.value == kw
    ensures |s.unfinished| == |ids| && forall k :: 0 <= k < |ids| ==> s.unfinished[k] == 1
    ensures s.ids == ids && s.step == 0
  {
    Session(ids, seq(|ids|, _ => 1), kw,
            if kw.imagesCd.Some? then Some(kw) else None,
            if kw.imagesAgla.Some? then Some(kw) else None,
            0)
  }

  /** The fusion parameters, read once from the initial model_kwargs. */
  function ParamsOf(kw: Kwargs): Params {
    ResolveParams(kw.cdAlpha, kw.cdBeta, kw.aglaAlpha, kw.aglaBeta)
  }

  /** The forward pass of an auxiliary branch, when it is active. */
  function AuxForward(v: Variant, ids: TokenIds, kw: Option<Kwargs>, o: Oracle): (r: Option<ModelOutput>)
    ensures r.Some? <==> kw.Some?
  {
    match kw
    case Some(k) => Some(o.forward(PrepareInputs(v, ids, k)))
    case None => None
  }

  function RowOf(out: Option<ModelOutput>, k: nat): Option<seq<real>>
    requires out.Some? ==> k < |out.value.logits|
  {
    match out
    case Some(m) => Some(m.logits[k])
    case None => None
  }

  /** Every branch returns one logit row per sequence, and each row has shapes the
      fusion accepts. */
  predicate WellShaped(b: nat, base: ModelOutput, noise: Option<ModelOutput>, aug: Option<ModelOutput>) {
    && |base.logits| == b
    && (noise.Some? ==> |noise.value.logits| == b)
    && (aug.Some? ==> |aug.value.logits| == b)
    && forall k :: 0 <= k < b ==> ShapesAgree(base.logits[k], RowOf(noise, k), RowOf(aug, k))
  }

  /** final_logits of every row. */
  function GatedRows(b: nat, base: ModelOutput, noise: Option<ModelOutput>, aug: Option<ModelOutput>,
                     p: Params, ln: real -> Logit): (g: seq<seq<Logit>>)
    requires WellShaped(b, base, noise, aug)
    ensures |g| == b
  {
    seq(b, k requires 0 <= k < b => Fuse(base.logits[k], RowOf(noise, k), RowOf(aug, k), p, ln))
  }

  /** The token that the sampler draws from a gated row. */
  function SampleRow(g: seq<Logit>, choice: nat): (t: int)
    requires |Admissible(g)| > 0
    ensures 0 <= t < |g| && g[t].Fin?
  {
    var a := Admissible(g);
    a[choice % |a|]
  }

  predicate Degenerate(g: seq<seq<Logit>>) {
    exists k :: 0 <= k < |g| && |Admissible(g[k])| == 0
  }

  /** The sampled tokens of one step (lines 213-214). */
  function Sampled(g: seq<seq<Logit>>, step: nat, o: Oracle): (t: seq<int>)
    requires !Degenerate(g)
    ensures |t| == |g|
  {
    seq(|g|, k requires 0 <= k < |g| => SampleRow(g[k], o.choose(step, k, g[k])))
  }

  /** The length limit or the caller's criteria fire on the new ids. */
  predicate Stops(ids: TokenIds, cfg: Config, o: Oracle)
    requires |ids| > 0
  {
    |ids[0]| >= cfg.maxLength || o.stop(ids)
  }

  predicate AllFinished(u: seq<int>) {
    forall k :: 0 <= k < |u| ==> u[k] == 0
  }

  /** The loop exits after an iteration that finished every row (with EOS
      defined) or on which the stopping criteria fired. */
  predicate Done(s: Session, cfg: Config, o: Oracle)
    requires |s.ids| > 0
  {
    (cfg.eos.Some? && AllFinished(s.unfinished)) || Stops(s.ids, cfg, o)
  }

  /** The three forward passes of a step (lines 141-175); an auxiliary branch
      runs only when it is active. */
  function BaseOut(s: Session, o: Oracle): ModelOutput {
    o.forward(PrepareInputs(Base, s.ids, s.kw))
  }

  function NoiseOut(s: Session, o: Oracle): (r: Option<ModelOutput>)
    ensures r.Some? <==> s.kwCd.Some?
  {
    AuxForward(Noise, s.ids, s.kwCd, o)
  }

  function AugOut(s: Session, o: Oracle): (r: Option<ModelOutput>)
    ensures r.Some? <==> s.kwAgla.Some?
  {
    AuxForward(Augmented, s.ids, s.kwAgla, o)
  }

  predicate Shaped(s: Session, o: Oracle) {
    WellShaped(|s.ids|, BaseOut(s, o), NoiseOut(s, o), AugOut(s, o))
  }

  /** final_logits of a step (lines 179-206). */
  function Gated(s: Session, p: Params, cfg: Config, o: Oracle): (g: seq<seq<Logit>>)
    requires Shaped(s, o)
    ensures |g| == |s.ids|
  {
    GatedRows(|s.ids|, BaseOut(s, o), NoiseOut(s, o), AugOut(s, o), p, cfg.ln)
  }

  /** One iteration of the loop, lines 141-266, in the source's order: the three
      forward passes, fusion, sampling, the pad check, the pad substitution for
      finished rows, appending, the cache updates, the EOS mask. */
  function Step(s: Session, p: Params, cfg: Config, o: Oracle): (r: Result<Session, GenError>)
    requires Valid(s)
  {
    if !Shaped(s, o) then Err(MalformedLogits(s.step))
    else if Degenerate(Gated(s, p, cfg, o)) then Err(DegenerateDistribution(s.step))
    else if cfg.eos.Some? && cfg.pad.None? then Err(PadUndefined)
    else Ok(Advance(s, BaseOut(s, o), NoiseOut(s, o), AugOut(s, o),
                    Sampled(Gated(s, p, cfg, o), s.step, o), cfg, o))
  }

  /** next_tokens after the pad substitution: a finished row receives the pad. */
  function NextTokens(u: seq<int>, sampled: seq<int>, cfg: Config): (t: seq<int>)
    requires |u| == |sampled| && (cfg.eos.Some? ==> cfg.pad.Some?)
    ensures |t| == |u|
  {
    seq(|u|, k requires 0 <= k < |u| => if cfg.eos.Some? && u[k] == 0 then cfg.pad.value else sampled[k])
  }

  /** unfinished_sequences after the step: a row finishes when it emits an EOS token. */
  function NewMask(u: seq<int>, next: seq<int>, cfg: Config): (m: seq<int>)
    requires |u| == |next|
    ensures |m| == |u|
  {
    seq(|u|, k requires 0 <= k < |u| => if cfg.eos.Some? && next[k] in cfg.eos.value then 0 else u[k])
  }

  /** `torch.cat([input_ids, next_tokens[:, None]], dim=-1)`. */
  function Appended(ids: TokenIds, next: seq<int>): (r: TokenIds)
    requires |ids| == |next|
    ensures |r| == |ids|
  {
    seq(|ids|, k requires 0 <= k < |ids| => ids[k] + [next[k]])
  }

  /** The state after the tokens of a step are known (lines 217-266); each
      branch's keyword arguments are updated from that branch's own outputs. */
  function Advance(s: Session, base: ModelOutput, noise: Option<ModelOutput>, aug: Option<ModelOutput>,
                   sampled: seq<int>, cfg: Config, o: Oracle): Session
    requires Valid(s) && |sampled| == |s.ids| && (cfg.eos.Some? ==> cfg.pad.Some?)
    requires s.kwCd.Some? ==> noise.Some?
    requires s.kwAgla.Some? ==> aug.Some?
  {
    var next := NextTokens(s.unfinished, sampled, cfg);
    Session(
      Appended(s.ids, next),
      NewMask(s.unfinished, next, cfg),
      o.update(base, s.kw),
      if s.kwCd.Some? then Some(o.update(noise.value, s.kwCd.value)) else None,
      if s.kwAgla.Some? then Some(o.update(aug.value, s.kwAgla.value)) else None,
      s.step + 1)
  }

  /** The number of tokens the rows may still grow by before the length limit. */
  function Room(s: Session, cfg: Config): nat
    requires |s.ids| > 0
  {
    if |s.ids[0]| < cfg.maxLength then cfg.maxLength - |s.ids[0]| else 0
  }

  /** A successful step keeps the session valid and appends exactly one token per
      row: the old row is a prefix of the new one. */
  lemma StepAppendsOne(s: Session, p: Params, cfg: Config, o: Oracle)
    requires Valid(s) && Step(s, p, cfg, o).Ok?
    ensures Valid(Step(s, p, cfg, o).value)
    ensures |Step(s, p, cfg, o).value.ids| == |s.ids|
    ensures forall k :: 0 <= k < |s.ids| ==>
      |Step(s, p, cfg, o).value.ids[k]| == |s.ids[k]| + 1 &&
      Step(s, p, cfg, o).value.ids[k][..|s.ids[k]|] == s.ids[k]
  {
    var s' := Step(s, p, cfg, o).value;
    forall k | 0 <= k < |s.ids|
      ensures |s'.ids[k]| == |s.ids[k]| + 1 && s'.ids[k][..|s.ids[k]|] == s.ids[k]
    {
      assert s'.ids[k] == s.ids[k] + [s'.ids[k][|s.ids[k]|]];
    }
  }

  /** Invariant of the loop: the sequences are the full recurrence from here on. */
  function RunFrom(s: Session, p: Params, cfg: Config, o: Oracle): (r: Result<Session, GenError>)
    requires Valid(s)
    decreases Room(s, cfg)
  {
    match Step(s, p, cfg, o)
    case Err(e) => Err(e)
    case Ok(s') =>
      StepAppendsOne(s, p, cfg, o);
      if Done(s', cfg, o) then Ok(s') else RunFrom(s', p, cfg, o)
  }

  /** One unfolding of the recurrence. */
  lemma RunFromUnfold(s: Session, p: Params, cfg: Config, o: Oracle)
    requires Valid(s)
    ensures Step(s, p, cfg, o).Err? ==> RunFrom(s, p, cfg, o) == Err(Step(s, p, cfg, o).error)
    ensures Step(s, p, cfg, o).Ok? ==> Valid(Step(s, p, cfg, o).value)
    ensures Step(s, p, cfg, o).Ok? ==>
      RunFrom(s, p, cfg, o) == (if Done(Step(s, p, cfg, o).value, cfg, o) then Step(s, p, cfg, o)
                                else RunFrom(Step(s, p, cfg, o).value, p, cfg, o))
  {
    if Step(s, p, cfg, o).Ok? {
      StepAppendsOne(s, p, cfg, o);
    }
  }

  /** The token a step appends to a row: the pad for a row that had already
      finished (with EOS defined), otherwise a position of that row's gated
      logits that is not -inf. */
  lemma StepTokens(s: Session, p: Params, cfg: Config, o: Oracle, k: int)
    requires Valid(s) && Step(s, p, cfg, o).Ok? && 0 <= k < |s.ids|
    ensures Shaped(s, o)
    ensures |Step(s, p, cfg, o).value.ids| == |s.ids|
    ensures |Step(s, p, cfg, o).value.ids[k]| == |s.ids[k]| + 1
    ensures cfg.eos.Some? && s.unfinished[k] == 0 ==>
      cfg.pad.Some? && Step(s, p, cfg, o).value.ids[k][|s.ids[k]|] == cfg.pad.value
    ensures !(cfg.eos.Some? && s.unfinished[k] == 0) ==>
      var t := Step(s, p, cfg, o).value.ids[k][|s.ids[k]|];
      0 <= t < |Gated(s, p, cfg, o)[k]| && Gated(s, p, cfg, o)[k][t].Fin?
  {
    StepAppendsOne(s, p, cfg, o);
    var s' := Step(s, p, cfg, o).value;
    var g := Gated(s, p, cfg, o);
    var next := NextTokens(s.unfinished, Sampled(g, s.step, o), cfg);
    assert s'.ids[k] == s.ids[k] + [next[k]];
    assert s'.ids[k][|s.ids[k]|] == next[k];
    if !(cfg.eos.Some? && s.unfinished[k] == 0) {
      assert next[k] == SampleRow(g[k], o.choose(s.step, k, g[k]));
    }
  }

  /** With an auxiliary branch active, every sampled token lies in the
      plausibility set: its BASE logit is at least log(beta) + max of the base row. */
  lemma StepTokenPlausible(s: Session, p: Params, cfg: Config, o: Oracle, k: int)
    requires Valid(s) && Step(s, p, cfg, o).Ok? && 0 <= k < |s.ids|
    requires s.kwCd.Some? || s.kwAgla.Some?
    requires !(cfg.eos.Some? && s.unfinished[k] == 0)
    ensures Shaped(s, o) && |Step(s, p, cfg, o).value.ids[k]| == |s.ids[k]| + 1
    ensures var t := Step(s, p, cfg, o).value.ids[k][|s.ids[k]|];
      var base := BaseOut(s, o).logits[k];
      var lnBeta := cfg.ln(GateBeta(RowOf(NoiseOut(s, o), k), p));
      0 <= t < |base| && !(lnBeta.Fin? && base[t] < lnBeta.r + MaxOf(base))
  {
    StepTokens(s, p, cfg, o, k);
    var t := Step(s, p, cfg, o).value.ids[k][|s.ids[k]|];
    GateExact(BaseOut(s, o).logits[k], RowOf(NoiseOut(s, o), k), RowOf(AugOut(s, o), k), p, cfg.ln, t);
  }

  /** With torch.log, both betas at most 1 (the defaults are 0.1 and 0.5) and a
      non-empty vocabulary, no gated row is all -inf: the sampler never meets a degenerate distribution. */
  lemma NeverDegenerate(s: Session, p: Params, cfg: Config, o: Oracle)
    requires Valid(s) && Shaped(s, o) && IsLog(cfg.ln)
    requires p.cdBeta <= 1.0 && p.aglaBeta <= 1.0
    requires forall k :: 0 <= k < |s.ids| ==> |BaseOut(s, o).logits[k]| > 0
    ensures !Degenerate(Gated(s, p, cfg, o))
  {
    var g := Gated(s, p, cfg, o);
    forall k | 0 <= k < |g| ensures |Admissible(g[k])| > 0 {
      var base := BaseOut(s, o).logits[k];
      var m := MaxOf(base);
      var i :| 0 <= i < |base| && base[i] == m;
      ArgmaxSurvives(base, RowOf(NoiseOut(s, o), k), RowOf(AugOut(s, o), k), p, cfg.ln, i);
    }
  }

  /** unfinished_sequences only goes from 1 to 0, and does so exactly when the
      appended token is an EOS token; without EOS it never changes. */
  lemma StepMask(s: Session, p: Params, cfg: Config, o: Oracle, k: int)
    requires Valid(s) && Step(s, p, cfg, o).Ok? && 0 <= k < |s.ids|
    ensures |Step(s, p, cfg, o).value.ids[k]| == |s.ids[k]| + 1
    ensures Step(s, p, cfg, o).value.unfinished[k] <= s.unfinished[k]
    ensures cfg.eos.None? ==> Step(s, p, cfg, o).value.unfinished == s.unfinished
    ensures cfg.eos.Some? ==>
      (Step(s, p, cfg, o).value.unfinished[k] == 1 <==>
        s.unfinished[k] == 1 && Step(s, p, cfg, o).value.ids[k][|s.ids[k]|] !in cfg.eos.value)
  {
    StepAppendsOne(s, p, cfg, o);
    var s' := Step(s, p, cfg, o).value;
    assert s'.ids[k] == s.ids[k] + [s'.ids[k][|s.ids[k]|]];
  }

  /** Each branch keeps its own keyword arguments, updated only from its own
      outputs; a branch off at the start stays off. */
  lemma StepKeepsBranchesApart(s: Session, p: Params, cfg: Config, o: Oracle)
    requires Valid(s) && Step(s, p, cfg, o).Ok?
    ensures Step(s, p, cfg, o).value.kw == o.update(BaseOut(s, o), s.kw)
    ensures Step(s, p, cfg, o).value.kwCd.Some? <==> s.kwCd.Some?
    ensures Step(s, p, cfg, o).value.kwAgla.Some? <==> s.kwAgla.Some?
    ensures s.kwCd.Some? ==>
      Step(s, p, cfg, o).value.kwCd.value == o.update(o.forward(PrepareInputs(Noise, s.ids, s.kwCd.value)), s.kwCd.value)
    ensures s.kwAgla.Some? ==>
      Step(s, p, cfg, o).value.kwAgla.value == o.update(o.forward(PrepareInputs(Augmented, s.ids, s.kwAgla.value)), s.kwAgla.value)
  {
  }

  /** With EOS defined and no pad token every run ends in the ValueError, whatever
      the model returns (unless its logits are rejected first). */
  lemma PadMissingFails(s: Session, p: Params, cfg: Config, o: Oracle)
    requires Valid(s) && cfg.eos.Some? && cfg.pad.None?
    ensures RunFrom(s, p, cfg, o).Err?
    ensures Shaped(s, o) && !Degenerate(Gated(s, p, cfg, o)) ==> RunFrom(s, p, cfg, o) == Err(PadUndefined)
  {
  }

  function Max(a: int, b: int): int { if a >= b then a else b }

  /** A run that returns: the batch is unchanged in size, every row has grown by
      the same positive number of tokens and starts with its old contents, the
      exit condition holds at the end, the mask only went down, and the length
      stays within the limit (one step is always taken). */
  lemma {:induction false} RunExtends(s: Session, p: Params, cfg: Config, o: Oracle)
    requires Valid(s) && RunFrom(s, p, cfg, o).Ok?
    ensures Valid(RunFrom(s, p, cfg, o).value)
    ensures Done(RunFrom(s, p, cfg, o).value, cfg, o)
    ensures |RunFrom(s, p, cfg, o).value.ids| == |s.ids|
    ensures |RunFrom(s, p, cfg, o).value.ids[0]| > |s.ids[0]|
    ensures |RunFrom(s, p, cfg, o).value.ids[0]| <= Max(|s.ids[0]| + 1, cfg.maxLength)
    ensures forall k :: 0 <= k < |s.ids| ==>
      RunFrom(s, p, cfg, o).value.ids[k][..|s.ids[k]|] == s.ids[k] &&
      RunFrom(s, p, cfg, o).value.unfinished[k] <= s.unfinished[k]
    decreases Room(s, cfg)
  {
    RunFromUnfold(s, p, cfg, o);
    var s' := Step(s, p, cfg, o).value;
    StepGrows(s, p, cfg, o);
    if Done(s', cfg, o) {
      assert RunFrom(s, p, cfg, o) == Ok(s');
    } else {
      Continue(s, p, cfg, o);
      RunExtends(s', p, cfg, o);
      var f := RunFrom(s', p, cfg, o).value;
      assert RunFrom(s, p, cfg, o).value == f;
      assert Grows(s', f, cfg);
      GrowsThrough(s, s', f, cfg);
    }
  }

  /** `f` is `s` run on: the same batch, longer rows that start with the old ones,
      a mask that only went down, and a length within the limit. */
  predicate Grows(s: Session, f: Session, cfg: Config) {
    && |s.ids| > 0 && |f.ids| == |s.ids|
    && |s.unfinished| == |s.ids| && |f.unfinished| == |s.ids|
    && |f.ids[0]| > |s.ids[0]|
    && |f.ids[0]| <= Max(|s.ids[0]| + 1, cfg.maxLength)
    && forall k :: 0 <= k < |s.ids| ==>
      |s.ids[k]| <= |f.ids[k]| && f.ids[k][..|s.ids[k]|] == s.ids[k] && f.unfinished[k] <= s.unfinished[k]
  }

  /** One step grows the session by one token per row. */
  lemma StepGrows(s: Session, p: Params, cfg: Config, o: Oracle)
    requires Valid(s) && Step(s, p, cfg, o).Ok?
    ensures Grows(s, Step(s, p, cfg, o).value, cfg)
    ensures |Step(s, p, cfg, o).value.ids[0]| == |s.ids[0]| + 1
  {
    StepAppendsOne(s, p, cfg, o);
    var s' := Step(s, p, cfg, o).value;
    forall k | 0 <= k < |s.ids| ensures s'.unfinished[k] <= s.unfinished[k] {
      StepMask(s, p, cfg, o, k);
    }
  }

  /** A step that leaves room, followed by more growth, is growth. */
  lemma GrowsThrough(s: Session, s': Session, f: Session, cfg: Config)
    requires Valid(s) && Valid(s') && Grows(s, s', cfg) && Grows(s', f, cfg)
    requires |s'.ids[0]| == |s.ids[0]| + 1 && |s'.ids[0]| < cfg.maxLength
    ensures Grows(s, f, cfg)
  {
    forall k | 0 <= k < |s.ids| ensures f.ids[k][..|s.ids[k]|] == s.ids[k] {
      assert f.ids[k][..|s.ids[k]|] == f.ids[k][..|s'.ids[k]|][..|s.ids[k]|];
    }
  }

  /** A row that has finished receives only pad tokens for the rest of the run. */
  lemma {:induction false} FinishedRowsArePadded(s: Session, p: Params, cfg: Config, o: Oracle, k: int)
    requires Valid(s) && RunFrom(s, p, cfg, o).Ok? && 0 <= k < |s.ids|
    requires cfg.eos.Some? && s.unfinished[k] == 0
    ensures cfg.pad.Some?
    ensures |RunFrom(s, p, cfg, o).value.ids| == |s.ids|
    ensures |RunFrom(s, p, cfg, o).value.ids[k]| > |s.ids[k]|
    ensures forall j :: |s.ids[k]| <= j < |RunFrom(s, p, cfg, o).value.ids[k]| ==>
      RunFrom(s, p, cfg, o).value.ids[k][j] == cfg.pad.value
    decreases Room(s, cfg)
  {
    RunFromUnfold(s, p, cfg, o);
    RunExtends(s, p, cfg, o);
    StepTokens(s, p, cfg, o, k);
    StepMask(s, p, cfg, o, k);
    var s' := Step(s, p, cfg, o).value;
    assert s'.ids[k] == s.ids[k] + [cfg.pad.value];
    if !Done(s', cfg, o) {
      FinishedRowsArePadded(s', p, cfg, o, k);
      RunExtends(s', p, cfg, o);
      var f := RunFrom(s', p, cfg, o).value;
      forall j | |s.ids[k]| <= j < |f.ids[k]| ensures f.ids[k][j] == cfg.pad.value {
        if j == |s.ids[k]| {
          assert f.ids[k][..|s'.ids[k]|][j] == s'.ids[k][j];
        }
      }
    }
  }

  /** sample_vcd_agla as a function of its inputs. */
  function Generate(ids: TokenIds, kw: Kwargs, cfg: Config, o: Oracle): Result<Session, GenError>
    requires Rectangular(ids)
  {
    RunFrom(Init(ids, kw), ParamsOf(kw), cfg, o)
  }

  function IdsOf(r: Result<Session, GenError>): Result<TokenIds, GenError> {
    match r
    case Ok(s) => Ok(s.ids)
    case Err(e) => Err(e)
  }

  // ---------------------------------------------------------------------------
  // The tensor arithmetic the loop uses

  /** `next_tokens.tile(...).ne(eos).prod(dim=0)` for one token. */
  function NotEosProduct(t: int, eos: seq<int>): int {
    if |eos| == 0 then 1 else (if t != eos[0] then 1 else 0) * NotEosProduct(t, eos[1..])
  }

  lemma {:induction false} NotEosProductIsIndicator(t: int, eos: seq<int>)
    ensures NotEosProduct(t, eos) == if t in eos then 0 else 1
  {
    if |eos| > 0 {
      NotEosProductIsIndicator(t, eos[1..]);
      assert t in eos <==> t == eos[0] || t in eos[1..];
    }
  }

  /** `unfinished_sequences.max()` of a non-empty mask. */
  function MaxInt(u: seq<int>): (m: int)
    requires |u| > 0
    ensures m in u && forall k :: 0 <= k < |u| ==> u[k] <= m
  {
    if |u| == 1 then u[0] else var rest := MaxInt(u[1..]); if u[0] >= rest then u[0] else rest
  }

  /** `next_tokens * unfinished + pad * (1 - unfinished)` is the pad substitution. */
  lemma PadArithmetic(u: seq<int>, sampled: seq<int>, pad: int, cfg: Config)
    requires |u| == |sampled| && cfg.eos.Some? && cfg.pad == Some(pad)
    requires forall k :: 0 <= k < |u| ==> u[k] == 0 || u[k] == 1
    ensures seq(|u|, k requires 0 <= k < |u| => sampled[k] * u[k] + pad * (1 - u[k])) == NextTokens(u, sampled, cfg)
  {
    forall k | 0 <= k < |u|
      ensures sampled[k] * u[k] + pad * (1 - u[k]) == NextTokens(u, sampled, cfg)[k]
    {
      if u[k] == 0 {
        assert sampled[k] * u[k] == 0;
      } else {
        assert sampled[k] * u[k] == sampled[k];
      }
    }
  }

  /** `unfinished * prod(next != eos)` clears exactly the rows that emitted EOS. */
  lemma MaskArithmetic(u: seq<int>, next: seq<int>, cfg: Config)
    requires |u| == |next| && cfg.eos.Some?
    ensures seq(|u|, k requires 0 <= k < |u| => u[k] * NotEosProduct(next[k], cfg.eos.value)) == NewMask(u, next, cfg)
  {
    forall k | 0 <= k < |u|
      ensures u[k] * NotEosProduct(next[k], cfg.eos.value) == NewMask(u, next, cfg)[k]
    {
      NotEosProductIsIndicator(next[k], cfg.eos.value);
    }
  }

  /** `unfinished_sequences.max() == 0` of a 0/1 mask means every row has finished. */
  lemma MaxZeroIffAllFinished(u: seq<int>)
    requires |u| > 0 && forall k :: 0 <= k < |u| ==> u[k] == 0 || u[k] == 1
    ensures MaxInt(u) == 0 <==> AllFinished(u)
  {
  }

  /** The body of the loop up to the exit test (lines 141-266), with its tensor
      arithmetic. */
  method Iteration(inputIds: TokenIds, unfinished: seq<int>, modelKwargs: Kwargs,
                   modelKwargsVcd: Option<Kwargs>, modelKwargsAgla: Option<Kwargs>, step: nat,
                   p: Params, cfg: Config, o: Oracle)
    returns (r: Result<Session, GenError>)
    requires Valid(Session(inputIds, unfinished, modelKwargs, modelKwargsVcd, modelKwargsAgla, step))
    ensures r == Step(Session(inputIds, unfinished, modelKwargs, modelKwargsVcd, modelKwargsAgla, step), p, cfg, o)
  {
    ghost var s := Session(inputIds, unfinished, modelKwargs, modelKwargsVcd, modelKwargsAgla, step);
    var b := |inputIds|;
    // the forward passes of the active branches
    var outputs := o.forward(PrepareInputs(Base, inputIds, modelKwargs));
    var outputsVcd := AuxForward(Noise, inputIds, modelKwargsVcd, o);
    var outputsAgla := AuxForward(Augmented, inputIds, modelKwargsAgla, o);
    if !WellShaped(b, outputs, outputsVcd, outputsAgla) {
      return Err(MalformedLogits(step));
    }
    // fusion and the plausibility gate
    var finalLogits := GatedRows(b, outputs, outputsVcd, outputsAgla, p, cfg.ln);
    // sampling
    if Degenerate(finalLogits) {
      return Err(DegenerateDistribution(step));
    }
    var nextTokens := Sampled(finalLogits, step, o);
    // pad substitution for finished rows
    ghost var sampled := nextTokens;
    if cfg.eos.Some? {
      if cfg.pad.None? {
        return Err(PadUndefined);
      }
      var pad := cfg.pad.value;
      PadArithmetic(unfinished, nextTokens, pad, cfg);
      nextTokens := seq(b, k requires 0 <= k < b => nextTokens[k] * unfinished[k] + pad * (1 - unfinished[k]));
    }
    assert nextTokens == NextTokens(unfinished, sampled, cfg);
    var newIds := Appended(inputIds, nextTokens);
    // the per-branch keyword arguments, each from its own outputs
    var newKwargs := o.update(outputs, modelKwargs);
    var newKwargsVcd := modelKwargsVcd;
    if modelKwargsVcd.Some? {
      newKwargsVcd := Some(o.update(outputsVcd.value, modelKwargsVcd.value));
    }
    var newKwargsAgla := modelKwargsAgla;
    if modelKwargsAgla.Some? {
      newKwargsAgla := Some(o.update(outputsAgla.value, modelKwargsAgla.value));
    }
    // the EOS mask
    var newUnfinished := unfinished;
    if cfg.eos.Some? {
      MaskArithmetic(unfinished, nextTokens, cfg);
      newUnfinished := seq(b, k requires 0 <= k < b => unfinished[k] * NotEosProduct(nextTokens[k], cfg.eos.value));
    }
    assert newUnfinished == NewMask(unfinished, nextTokens, cfg);
    r := Ok(Session(newIds, newUnfinished, newKwargs, newKwargsVcd, newKwargsAgla, step + 1));
    assert r == Ok(Advance(s, outputs, outputsVcd, outputsAgla, sampled, cfg, o));
  }

  /** The loop of sample_vcd_agla (lines 128-274), returning input_ids. */
  method SampleVcdAgla(inputIds0: TokenIds, modelKwargs0: Kwargs, cfg: Config, o: Oracle)
    returns (r: Result<TokenIds, GenError>)
    requires Rectangular(inputIds0)
    ensures r == IdsOf(Generate(inputIds0, modelKwargs0, cfg, o))
  {
    var useVcd := modelKwargs0.imagesCd.Some?;
    var useAgla := modelKwargs0.imagesAgla.Some?;
    var p := ParamsOf(modelKwargs0);
    var inputIds := inputIds0;
    var unfinished: seq<int> := seq(|inputIds0|, _ => 1);
    var modelKwargs := modelKwargs0;
    var modelKwargsVcd: Option<Kwargs> := if useVcd then Some(modelKwargs0) else None;
    var modelKwargsAgla: Option<Kwargs> := if useAgla then Some(modelKwargs0) else None;
    var step: nat := 0;
    assert Session(inputIds, unfinished, modelKwargs, modelKwargsVcd, modelKwargsAgla, step) == Init(inputIds0, modelKwargs0);
    while true
      invariant Valid(Session(inputIds, unfinished, modelKwargs, modelKwargsVcd, modelKwargsAgla, step))
      invariant RunFrom(Session(inputIds, unfinished, modelKwargs, modelKwargsVcd, modelKwargsAgla, step), p, cfg, o)
                == Generate(inputIds0, modelKwargs0, cfg, o)
      decreases Room(Session(inputIds, unfinished, modelKwargs, modelKwargsVcd, modelKwargsAgla, step), cfg)
    {
      ghost var s := Session(inputIds, unfinished, modelKwargs, modelKwargsVcd, modelKwargsAgla, step);
      var next := Iteration(inputIds, unfinished, modelKwargs, modelKwargsVcd, modelKwargsAgla, step, p, cfg, o);
      if next.Err? {
        RunFromUnfold(s, p, cfg, o);
        return Err(next.error);
      }
      var s' := next.value;
      RunFromUnfold(s, p, cfg, o);
      inputIds, unfinished, modelKwargs := s'.ids, s'.unfinished, s'.kw;
      modelKwargsVcd, modelKwargsAgla := s'.kwCd, s'.kwAgla;
      // the exit test
      var thisPeerFinished := false;
      if cfg.eos.Some? {
        MaxZeroIffAllFinished(unfinished);
        if MaxInt(unfinished) == 0 {
          thisPeerFinished := true;
        }
      }
      if Stops(inputIds, cfg, o) {
        thisPeerFinished := true;
      }
      assert thisPeerFinished == Done(s', cfg, o);
      if thisPeerFinished {
        return Ok(inputIds);
      }
      Continue(s, p, cfg, o);
      assert s'.step == step + 1 by {
        StepKeepsCount(s, p, cfg, o);
      }
      step := step + 1;
    }
  }

  /** A step that does not end the loop leaves the session valid, shrinks the
      room left before max_length, and leaves the rest of the recurrence. */
  lemma Continue(s: Session, p: Params, cfg: Config, o: Oracle)
    requires Valid(s) && Step(s, p, cfg, o).Ok?
    requires !Done(Step(s, p, cfg, o).value, cfg, o)
    ensures Valid(Step(s, p, cfg, o).value)
    ensures Room(Step(s, p, cfg, o).value, cfg) < Room(s, cfg)
    ensures RunFrom(s, p, cfg, o) == RunFrom(Step(s, p, cfg, o).value, p, cfg, o)
  {
    StepAppendsOne(s, p, cfg, o);
  }

  /** A step advances the step counter by one. */
  lemma StepKeepsCount(s: Session, p: Params, cfg: Config, o: Oracle)
    requires Valid(s) && Step(s, p, cfg, o).Ok?
    ensures Step(s, p, cfg, o).value.step == s.step + 1
  {
  }
}
