# Three-way contrastive decoding and its evaluation scripts, in Dafny

This project models the core of VCD-AGLA-combined, a decoding method for
vision-language models. At every generation step the method runs up to
three forward passes over the same tokens:

- one with the original image;
- one with a diffusion-noised image (VCD, the "noise" branch);
- one with an attention-masked image (AGLA, the "augmented" branch).

It fuses the three logit rows into one and masks every token whose original
logit falls below a plausibility cutoff. It then samples the next token.
Around the sampler sit:

- the two image distortions;
- the POPE and Hallucinogen scorers;
- the report arithmetic;
- the collection of every method's results into one table;
- a cross-reference checker for the accompanying paper.

The model has one module per source file, plus three shared modules:

| module | source file | form |
|---|---|---|
| `Fusion` | `sample_vcd_agla.py`, fusion and gate | functions and lemmas |
| `Generation` | `sample_vcd_agla.py`, the generation loop | methods with loop invariants, proved equal to a recurrence (`RunFrom`) |
| `BranchInputs` | `llava_llama_combined.py` | functions and lemmas |
| `NoiseSchedule` | `utils/vcd_add_noise.py` | functions and lemmas |
| `Augmentation` | `utils/augmentation.py` | functions and lemmas |
| `EvalPope` | `eval_pope.py` | counter and search loops as methods, specified by functions |
| `EnhancedReport` | `generate_enhanced_report.py` | counter loops as methods, specified by functions |
| `ComprehensiveReport` | `generate_comprehensive_report.py` | counter loops as methods, specified by functions |
| `ConfusionMatrix` | `figures/generate_confusion_matrices.py` | functions and lemmas |
| `CollectResults` | `collect_all_methods_results.py` | nested-map-filling loops as methods |
| `ReferenceCheck` | `check_all_references.py` | list-building loops as methods, set logic as functions |
| `Floats` | IEEE values (`Ext`), torch.sort's order, numpy division | shared |
| `PyStr` | `str.lower`, `strip`, `in`, `startswith`, `split` | shared |
| `Wrappers` | `Option` and `Result` | shared |

Modelling conventions:

- **Logits.** A gated logit is `Logit = NegInf | Fin(r)`. The forward-pass logits are finite reals.
- **torch.log.** It is an abstract `ln: real -> Logit`. Where a lemma needs its properties, they are stated by `Fusion.IsLog`: `NegInf` exactly at non-positive arguments, non-positive exactly up to 1, and monotone.
- **The forward pass, the sampler and the stopping criteria.** These are an oracle, `Generation.Oracle`:
  - `forward` is the model;
  - `update` is transformers' `_update_model_kwargs_for_generation`;
  - `choose` stands for `torch.multinomial` and always names a position that is not `-inf`;
  - `stop` is the caller's stopping criteria.
- **The length limit.** A maximal length is part of the configuration, as transformers' own `generate` always adds one. This makes the loop terminate.
- **IEEE values.** Values that can be infinite or NaN are `Floats.Ext`:
  - the saliency map;
  - the total error reduction, which is a numpy division by a possibly zero integer.
- **Python semantics spelled out:**
  - `round` rounds half to even;
  - `split` keeps empty pieces;
  - a dict comprehension keeps the last value for a key;
  - a missing dictionary key (`KeyError`) and a division by zero are `Err` results; in `eval_pope.py` the model covers every subscript that can miss (`question_id`, `label`, `text`).

Behaviour of the code worth noting:

- **A worked fusion example.** With base `[5,1,1]`, noise `[1,5,1]`, `cd_alpha = 1` and `cd_beta = 0.1`, the cutoff is about 2.70.
  - So position 2 is masked as well as position 1. The fused row is `[9, -inf, -inf]` (`Fusion.NoiseScenario`).
  - With the augmented row `[1,1,9]`, the three-way combination before the gate is `[15,-1,11]` (`Fusion.ThreeWayScenario`).
- **Effect of the ITC score.** A higher image-text matching score masks more pixels. It lowers the ratio and the index into the descending saliency map, which raises the threshold (`Augmentation.HigherItcMasksMore`).
- **Labels in the enhanced report.** The enhanced report's POPE scorer treats every label other than "yes" as negative; it has no "unknown" class.
- **Label read in the comprehensive report.** The comprehensive report's POPE scorer reads `label` before it tests for a matching generation. So a missing label fails even on an unmatched item (`ComprehensiveReport.EagerTallyAgrees`).
- **Empty answers.** The comprehensive report's Hallucinogen scorer has no non-empty guard. An empty answer always counts as correct (`ComprehensiveReport.UnguardedCountsEmptyAnswers`).
- **No 'total' key.** Neither comprehensive evaluator returns a 'total' key.
- **Index cap in augmentation.** The bound `min(mask_index, total_pixels - 1)` never binds after the clamp (`Augmentation.MaskIndexCapNeverBinds`).
- **Negative true negatives.** The confusion-matrix reconstruction can yield a negative TN, when the precision is too low for the recall (`ConfusionMatrix.NegativeTrueNegatives`).

## Model

| member | source | states |
|---|---|---|
| Fusion.ResolveParams | sample_vcd_agla.py:113-117 | each absent fusion weight takes its default (cd_alpha 1.0, cd_beta 0.1, agla_alpha 1.0, agla_beta 0.5) and each given one is kept |
| Fusion.MaxOf | sample_vcd_agla.py:189 | the row maximum is an element of the row and bounds every element |
| Fusion.Combined | sample_vcd_agla.py:182-186 | the combined row has the vocabulary size of the base row (its values are stated by BothUsesCdBeta, NoiseOnlyFormula and AugOnlyFormula) |
| Fusion.MaskFill | sample_vcd_agla.py:190 | masked_fill keeps the row length |
| Fusion.Fuse | sample_vcd_agla.py:180-206 | the fused, gated row has the base row's length (its positions are stated by GateExact and the formula lemmas) |
| Fusion.Admissible | sample_vcd_agla.py:213-214 | lists exactly the positions of the gated row that are not -inf, i.e. those multinomial can draw |
| Fusion.GateExact | sample_vcd_agla.py:189-202 | with an auxiliary branch active, a position is -inf iff its BASE logit is below log(beta) + max(base); every other position holds the combined value unchanged |
| Fusion.PlainIsBase | sample_vcd_agla.py:204-206 | with neither auxiliary image the output is the base row, nothing masked |
| Fusion.BothUsesCdBeta | sample_vcd_agla.py:180-190 | with both branches, every surviving position is (1+a_cd+a_agla)·base − a_cd·noise + a_agla·aug, and the result does not depend on agla_beta |
| Fusion.NoiseOnlyFormula | sample_vcd_agla.py:192-196 | noise only: (1+a_cd)·base − a_cd·noise, gated with cd_beta |
| Fusion.AugOnlyFormula | sample_vcd_agla.py:198-202 | augmentation only: base + a_agla·aug, gated with agla_beta |
| Fusion.BothWithoutAugWeightIsNoiseOnly | sample_vcd_agla.py:180-196 | the three-way result with a_agla = 0 equals the noise-only result on the same rows |
| Fusion.BothWithoutCdWeightIsNotAugOnly | sample_vcd_agla.py:180-202 | with a_cd = 0 the three-way combination exceeds the augmentation-only one by a_agla·base at every position |
| Fusion.ZeroAlphasGiveBase | sample_vcd_agla.py:182-206 | with every alpha 0, each of the four cases yields the base logit at every position the gate lets through |
| Fusion.ArgmaxSurvives | sample_vcd_agla.py:189-202 | with beta ≤ 1 every argmax position of the base row survives the gate, so the gated row always has an admissible position |
| Fusion.BetaOneKeepsExactlyArgmax | sample_vcd_agla.py:189-202 | with beta = 1 exactly the argmax positions of the base row survive |
| Fusion.NonPositiveBetaAdmitsAll | sample_vcd_agla.py:189-202 | with beta ≤ 0 (log is -inf) no position is masked |
| Fusion.SmallerBetaAdmitsMore | sample_vcd_agla.py:189-202 | lowering beta never masks a position that a higher beta admitted |
| Fusion.NoiseScenario | sample_vcd_agla.py:192-196 | example: on base [5,1,1], noise [1,5,1], a_cd 1, beta 0.1 the output is [9, -inf, -inf] and only token 0 can be drawn |
| Fusion.ThreeWayScenario | sample_vcd_agla.py:180-190 | example: adding aug [1,1,9] with a_agla 1 gives the combination [15,-1,11] and the output [15, -inf, -inf] |
| BranchInputs.LastColumn | llava_llama_combined.py:164-165 | input_ids[:, -1:] keeps the batch size and leaves each row's last token (an empty row stays empty) |
| BranchInputs.PrepareInputs | llava_llama_combined.py:160-233 | the prepared dictionary passes past_key_values, use_cache and attention_mask through unchanged |
| BranchInputs.CacheTruncatesToLastToken | llava_llama_combined.py:164-171 | with a truthy cache each row is reduced to its last token; without one the full ids are fed |
| BranchInputs.EmbedsOnlyWithoutCache | llava_llama_combined.py:167-171 | inputs_embeds is used iff it is given and past_key_values is None; an empty cache neither truncates nor admits the embeddings |
| BranchInputs.VariantsDifferOnlyInImages | llava_llama_combined.py:173-180 | the three variants build the same dictionary except `images`, taken from images, images_cd or images_agla (None when absent) |
| Generation.Init | sample_vcd_agla.py:104-133 | a branch is active iff its image keyword is not None and then starts from a copy of model_kwargs; every row starts unfinished; step is 0 |
| Generation.AuxForward | sample_vcd_agla.py:155-177 | an auxiliary forward pass happens iff its branch is active |
| Generation.NoiseOut | sample_vcd_agla.py:155-165 | the noise branch produces outputs iff it is active |
| Generation.AugOut | sample_vcd_agla.py:167-177 | the augmented branch produces outputs iff it is active |
| Generation.GatedRows | sample_vcd_agla.py:179-206 | one gated row per sequence (each row's values: Fusion.GateExact and the formula lemmas) |
| Generation.Gated | sample_vcd_agla.py:179-206 | one gated row per sequence of the session (values as for GatedRows) |
| Generation.SampleRow | sample_vcd_agla.py:213-214 | the drawn token is a position of the gated row that is not -inf |
| Generation.Sampled | sample_vcd_agla.py:213-214 | one sampled token per row (each a drawable position: SampleRow, StepTokens) |
| Generation.NextTokens | sample_vcd_agla.py:217-220 | one next token per row after the pad substitution (values: PadArithmetic, StepTokens) |
| Generation.NewMask | sample_vcd_agla.py:261-264 | one mask entry per row (values: MaskArithmetic, StepMask) |
| Generation.Appended | sample_vcd_agla.py:223 | the concatenation keeps the batch size (contents: StepAppendsOne) |
| Generation.StepAppendsOne | sample_vcd_agla.py:141-274 | a successful iteration (the recurrence step `Step`) keeps the session valid and appends exactly one token per row, the old row being a prefix of the new one |
| Generation.RunFromUnfold | sample_vcd_agla.py:134-274 | the recurrence `RunFrom` is the first iteration's error, or its result when the exit test holds, or the run from the new state |
| Generation.StepTokens | sample_vcd_agla.py:213-223 | the appended token is the pad for a row already finished (with EOS defined), and otherwise a drawable position of that row's gated logits |
| Generation.StepTokenPlausible | sample_vcd_agla.py:179-214 | with an auxiliary branch active, every sampled token's base logit is at least log(beta) + max of the base row |
| Generation.NeverDegenerate | sample_vcd_agla.py:179-214 | with real torch.log, betas ≤ 1 (the defaults) and a non-empty vocabulary no gated row is all -inf |
| Generation.StepMask | sample_vcd_agla.py:261-264 | unfinished only goes from 1 to 0, exactly when the appended token is an EOS token; without EOS it never changes |
| Generation.StepKeepsBranchesApart | sample_vcd_agla.py:245-258 | each branch's keyword arguments are updated only from that branch's own outputs, and a branch off at the start stays off |
| Generation.PadMissingFails | sample_vcd_agla.py:217-219 | with EOS defined and no pad token every run fails, with the ValueError once the logits are well formed |
| Generation.RunExtends | sample_vcd_agla.py:128-274 | a run of `RunFrom` that returns ends with the exit condition true, keeps the batch size, grows every row by at least one token after its old contents, only lowers the mask, and stays within max(start+1, max_length) |
| Generation.StepGrows | sample_vcd_agla.py:217-266 | one iteration is growth by exactly one token per row |
| Generation.GrowsThrough | sample_vcd_agla.py:271-274 | growth by one step followed by more growth is growth |
| Generation.FinishedRowsArePadded | sample_vcd_agla.py:217-266 | a row that has finished receives only pad tokens for the rest of the run |
| Generation.NotEosProductIsIndicator | sample_vcd_agla.py:262-264 | the product of `token != eos` over the EOS list is 0 iff the token is an EOS token, else 1 |
| Generation.MaxInt | sample_vcd_agla.py:265 | unfinished_sequences.max() is an element that bounds every entry |
| Generation.PadArithmetic | sample_vcd_agla.py:220 | `next * unfinished + pad * (1 - unfinished)` on a 0/1 mask is the pad substitution |
| Generation.MaskArithmetic | sample_vcd_agla.py:261-264 | `unfinished * prod(next != eos)` clears exactly the rows that emitted EOS |
| Generation.MaxZeroIffAllFinished | sample_vcd_agla.py:265-266 | the maximum of a 0/1 mask is 0 iff every row has finished |
| Generation.Iteration | sample_vcd_agla.py:141-266 | the loop body, with its tensor arithmetic, computes exactly one step of the recurrence (error or new state) |
| Generation.SampleVcdAgla | sample_vcd_agla.py:128-287 | the loop returns exactly the input_ids of the recurrence run from the initial state, or its error |
| Generation.Continue | sample_vcd_agla.py:268-274 | an iteration that does not exit keeps the state valid, shrinks the room before max_length, and leaves the rest of the run unchanged |
| Generation.StepKeepsCount | sample_vcd_agla.py:274 | each iteration advances step by one |
| NoiseSchedule.Betas | utils/vcd_add_noise.py:33-34 | the schedule has 1000 betas (values: BetasBounded) |
| NoiseSchedule.Alphas | utils/vcd_add_noise.py:37 | 1000 alphas (values: AlphasInUnitInterval) |
| NoiseSchedule.CumProd | utils/vcd_add_noise.py:38 | the cumulative product has one entry per factor |
| NoiseSchedule.AlphasBar | utils/vcd_add_noise.py:38 | 1000 retention values (values: AlphasBarDecreasing) |
| NoiseSchedule.BetasBounded | utils/vcd_add_noise.py:33-34 | every beta lies strictly between 1e-5 and 0.005, and the schedule strictly rises |
| NoiseSchedule.AlphasInUnitInterval | utils/vcd_add_noise.py:37 | every alpha = 1 − beta lies strictly in (0, 1) |
| NoiseSchedule.ProdBounds | utils/vcd_add_noise.py:38 | a product of factors in (0,1) lies in (0,1], and in (0,1) when non-empty |
| NoiseSchedule.CumProdDecreases | utils/vcd_add_noise.py:38 | a cumulative product of factors in (0,1) stays in (0,1) and strictly decreases |
| NoiseSchedule.AlphasBarDecreasing | utils/vcd_add_noise.py:33-38 | alphas_prod is strictly decreasing in the step and stays in (0,1) |
| NoiseSchedule.ClipStep | utils/vcd_add_noise.py:52-55 | a step outside [0, 999] is clamped to the nearest bound with a warning; an in-range step is kept without one |
| NoiseSchedule.ClipIdempotent | utils/vcd_add_noise.py:52-55 | a clipped step clips to itself and raises no warning |
| NoiseSchedule.AddDiffusionNoise | utils/vcd_add_noise.py:44-59 | the output has the image's shape, is sqrt(abar[t])·x + sqrt(1−abar[t])·noise at every element for the clipped step t, and warns iff the step was clipped |
| NoiseSchedule.NoiseMixPreservesVariance | utils/vcd_add_noise.py:40-49 | both coefficients are positive and their squares sum to 1 |
| NoiseSchedule.LaterStepsAreNoisier | utils/vcd_add_noise.py:40-49 | a later step keeps strictly less of the image and adds strictly more noise |
| Augmentation.MaskRatio | utils/augmentation.py:76-92 | the ratio 1 − itc/2 is capped at 0.99999 and clamped at 0; a NaN or +inf score ends at 0 and −inf at the cap |
| Augmentation.MaskRatioAntitone | utils/augmentation.py:76-92 | a higher ITC score never gives a larger ratio |
| Augmentation.MaskIndex | utils/augmentation.py:95-97 | mask_index is at most total_pixels − 1 and at most ⌊total_pixels·ratio⌋ |
| Augmentation.MaskIndexCapNeverBinds | utils/augmentation.py:92-97 | on a clamped ratio mask_index is exactly ⌊total_pixels·ratio⌋ |
| Augmentation.MaskIndexMonotone | utils/augmentation.py:95-97 | a larger ratio never gives a smaller index |
| Augmentation.SortDescending | utils/augmentation.py:86 | the sorted map is descending in torch.sort's order and a permutation of the input |
| Augmentation.Insert | utils/augmentation.py:86 | inserting into a descending sequence keeps it descending and adds exactly the element |
| Augmentation.SameElements | utils/augmentation.py:86-100 | a permutation has the same length and holds an infinity or NaN iff the original does |
| Augmentation.Threshold | utils/augmentation.py:86-105 | the threshold fails (index out of range) iff the map is finite and shorter than mask_index + 1 |
| Augmentation.Augment | utils/augmentation.py:86-109 | a pixel is kept unchanged iff its saliency is at least the threshold and zeroed otherwise; a threshold error or a shape mismatch is an error |
| Augmentation.ThresholdIsSortedElement | utils/augmentation.py:100-105 | on a finite map the threshold is the element at mask_index of the descending map |
| Augmentation.NaNKeepsEverything | utils/augmentation.py:100-109 | a NaN in the map makes the threshold NaN (the `Median` of the map) and the image comes back unchanged |
| Augmentation.KeptCountInsert | utils/augmentation.py:108 | inserting an element adds one to the kept count iff that element is kept |
| Augmentation.KeptCountSorted | utils/augmentation.py:86-108 | sorting does not change how many pixels pass a threshold |
| Augmentation.AtLeastMaskIndexPlusOneKept | utils/augmentation.py:86-108 | in the ordinary case at least mask_index + 1 pixels are kept |
| Augmentation.SortedPrefixKept | utils/augmentation.py:105-108 | in a sorted finite map every value up to position k passes the value at k |
| Augmentation.HigherItcMasksMore | utils/augmentation.py:76-108 | a higher ITC score gives a mask_index no larger and never keeps a pixel that a lower score masks |
| Augmentation.LaterThresholdKeepsMore | utils/augmentation.py:105-108 | a later position of a sorted finite map is a threshold no higher, so it keeps whatever the earlier one keeps |
| Floats.SortLeTransitive | utils/augmentation.py:86 | torch.sort's order is transitive |
| Floats.SortLeTotal | utils/augmentation.py:86 | torch.sort's order is total |
| Floats.LessIsNotSortLe | utils/augmentation.py:86-108 | away from NaN, `a < b` holds iff b does not sort at or before a |
| Floats.Div | figures/generate_confusion_matrices.py:138 | a non-zero divisor gives the quotient; a zero divisor gives NaN iff the dividend is 0, otherwise an infinity of the dividend's sign |
| PyStr.Lower | eval_pope.py:68-69 | each upper-case ASCII letter becomes its lower-case letter, every other character is kept, and no upper-case letter is left |
| PyStr.LowerIdempotent | eval_pope.py:68-69 | lowering twice is lowering once, and no upper-case letter is left |
| PyStr.StripLeft | eval_pope.py:68-69 | a suffix whose dropped characters are all whitespace and that does not start with whitespace |
| PyStr.StripRight | eval_pope.py:68-69 | a prefix whose dropped characters are all whitespace and that does not end with whitespace |
| PyStr.Strip | eval_pope.py:68-69 | a slice of the string that neither starts nor ends with whitespace, everything cut off on either side being whitespace |
| PyStr.StripIdempotent | eval_pope.py:68-69 | stripping is idempotent |
| PyStr.StartsWithImpliesContains | generate_enhanced_report.py:99 | a prefix is a substring, so `in or startswith` is just `in` |
| PyStr.EmptyContained | generate_comprehensive_report.py:114 | the empty string is in every string |
| PyStr.Split | check_all_references.py:73 | split yields at least one piece and no piece contains the separator |
| PyStr.SplitJoin | check_all_references.py:73 | joining the pieces gives the string back, and there is one piece more than separators |
| EvalPope.FirstMatch | eval_pope.py:54-58 | the first record with the question id, or None iff every record carries another id; KeyError("question_id") iff a record without one is read before the match |
| EvalPope.OutcomeOf | eval_pope.py:49-87 | an item's failure is always a KeyError |
| EvalPope.LineOutcome | eval_pope.py:60-87 | an item with a matched record fails iff that record has no text, with KeyError("text") |
| EvalPope.OutcomesPerItem | eval_pope.py:49-87 | the outcomes `Outcomes` succeed iff every item does and then hold each item's own outcome; otherwise the error is that of the first item that raises |
| EvalPope.OutcomesFirstError | eval_pope.py:49-87 | once an item raises, the evaluation's result is that error |
| EvalPope.OutcomesSnoc | eval_pope.py:49-87 | one more item appends its outcome or ends with its error |
| EvalPope.FindGeneration | eval_pope.py:54-58 | the search loop returns the first record with the question id, None iff there is none, or the KeyError of FirstMatch |
| EvalPope.FirstMatchPassed | eval_pope.py:55-58 | after records that all carry another id, the record at the current position decides the search |
| EvalPope.ScoreItem | eval_pope.py:49-87 | one iteration of the item loop applies the item's outcome to the counters, or returns its KeyError |
| EvalPope.Score | eval_pope.py:60-87 | one item's counter updates are those of its outcome, unknown when no generation matched, KeyError("text") for a matched record without text |
| EvalPope.ScoreAnswer | eval_pope.py:72-87 | the counter updates for a normalized label and answer |
| EvalPope.ComputeMetrics | eval_pope.py:89-109 | the metric computation, with its error on an empty ground truth |
| EvalPope.EvaluatePope | eval_pope.py:40-109 | the counting loop yields the first KeyError of the items, or the metrics of their outcomes over len(gt); ZeroDivision iff the ground truth is empty |
| EvalPope.EvaluationErrors | eval_pope.py:49-95 | ZeroDivision iff the ground truth is empty; every other failure is a KeyError |
| EvalPope.MissingKeys | eval_pope.py:50-65 | a missing question_id or label of the item, a missing question_id of a record read before the match, and a missing text of the matched record each raise KeyError, in that order |
| EvalPope.TallyPartitions | eval_pope.py:45-87 | each counter counts exactly its outcome, the five outcomes partition the items, and yes_answers = tp + fp |
| EvalPope.FirstRecordWins | eval_pope.py:54-58 | records appended after the first match, even ones without question_id, do not change an item's outcome |
| EvalPope.FirstMatchOfExtension | eval_pope.py:54-58 | the first match in an extended record list is the one in the original list |
| EvalPope.UnknownCases | eval_pope.py:60-87 | an item whose id no record carries is unknown, and one whose label is neither yes nor no is unknown unless it raises |
| EvalPope.HedgedAnswerCreditedBothWays | eval_pope.py:72-83 | an answer holding both "yes" and "no" is credited under either label |
| EvalPope.AnswerNotContainsNo | eval_pope.py:78-80 | example: the answer "not" counts as a true negative |
| EvalPope.MetricsGuardsAndBounds | eval_pope.py:89-109 | an error iff the ground truth is empty; otherwise precision and recall are 0 on zero denominators, every ratio is in [0,1], and total = len(gt) |
| EvalPope.RatioInUnit | eval_pope.py:90-91 | a guarded ratio of 0 ≤ x ≤ y lies in [0,1] |
| EvalPope.F1InUnit | eval_pope.py:92 | the harmonic mean of values in [0,1] lies in [0,1] |
| EnhancedReport.ExtractAnswer | generate_enhanced_report.py:23-30 | the answer is "yes" or "no" |
| EnhancedReport.ExtractAnswerCases | generate_enhanced_report.py:23-30 | "yes" wins, the default is "yes", and the answer is "no" iff the text holds "no" but not "yes" |
| EnhancedReport.GenDict | generate_enhanced_report.py:37 | the keys are exactly the question ids that occur |
| EnhancedReport.LastRecordWins | generate_enhanced_report.py:37 | the text kept for an id is that of the last record with that id |
| EnhancedReport.PopeTallyPartitions | generate_enhanced_report.py:41-63 | tp + fn are the matched "yes" labels, tp + fp and yes_count the "yes" answers, and the four cells sum to the matched items |
| EnhancedReport.CountStep | generate_enhanced_report.py:49-61 | one matched item adds one cell, to the positives iff its label is "yes" and to the "yes" answers iff its answer is "yes" |
| EnhancedReport.PopeTallyErrors | generate_enhanced_report.py:41-46 | the scorer fails iff some matched item lacks a label; labels of unmatched items are never read |
| EnhancedReport.ErrorPersists | generate_enhanced_report.py:41-46 | the first item that fails decides the whole result |
| EnhancedReport.CountItem | generate_enhanced_report.py:49-61 | the counter increments for one matched item |
| EnhancedReport.EvaluatePope | generate_enhanced_report.py:33-77 | the loop yields the scores of the tally over the generation dictionary, or its KeyError |
| EnhancedReport.PopeScoresBounds | generate_enhanced_report.py:63-77 | every percentage lies in [0,100], is 0 on a zero denominator, and total is the number of matched items |
| EnhancedReport.TallyScoresBounds | generate_enhanced_report.py:63-68 | the percentages of counts with yes = tp + fp lie in [0,100] |
| EnhancedReport.PercentBounds | generate_enhanced_report.py:64-68 | a guarded percentage of x ≤ y lies in [0,100] |
| EnhancedReport.HarmonicBounds | generate_enhanced_report.py:67 | the harmonic mean of values in [0,m] lies in [0,m] |
| EnhancedReport.CorrectIsContainment | generate_enhanced_report.py:99 | an answer is correct iff it is non-empty and a substring of the generation |
| EnhancedReport.HallucinogenTally | generate_enhanced_report.py:89-102 | correct ≤ total, and total is the number of matched items |
| EnhancedReport.EvaluateHallucinogen | generate_enhanced_report.py:80-113 | the loop yields the scores of the tally over the generation dictionary |
| EnhancedReport.HallucinogenScoresAgree | generate_enhanced_report.py:104-113 | precision, recall and f1 equal accuracy, which lies in [0,100]; yes_proportion is 50; total counts the matched items |
| EnhancedReport.Gains | generate_enhanced_report.py:192-196 | at most one gain per dataset entry |
| EnhancedReport.EntryGains | generate_enhanced_report.py:192-196 | the inner loop collects the gains of one model's entries |
| EnhancedReport.AverageImprovement | generate_enhanced_report.py:190-198 | the average of combined − baseline F1 over every model's complete datasets, or 0 when there are none |
| EnhancedReport.SumBounds | generate_enhanced_report.py:198 | a sum of n terms in [lo,hi] lies in [n·lo, n·hi] |
| EnhancedReport.MeanBounds | generate_enhanced_report.py:198 | the mean of terms in [lo,hi] lies in [lo,hi] |
| EnhancedReport.GainsComeFromCompleteEntries | generate_enhanced_report.py:193-196 | each gain belongs to a dataset that has both methods |
| EnhancedReport.ConsistentGainsGivePositiveAverage | generate_enhanced_report.py:190-198 | if the combined method beats the baseline on every complete dataset, the average is positive, or 0 when there is none |
| EnhancedReport.AllGainsPositive | generate_enhanced_report.py:190-196 | under consistent gains every collected improvement is positive |
| EnhancedReport.SumPositive | generate_enhanced_report.py:198 | a non-empty sum of positive terms is positive |
| ComprehensiveReport.EagerTallyAgrees | generate_comprehensive_report.py:46-67 | the scorer's tally `PopeTallyEager`, reading the label first, fails iff some item lacks a label; it fails whenever the enhanced scorer does, and otherwise counts the same |
| ComprehensiveReport.EagerErrorPersists | generate_comprehensive_report.py:46-48 | the first item that lacks a label decides the whole result |
| ComprehensiveReport.EvaluatePopeResults | generate_comprehensive_report.py:26-84 | the loop yields the ratios of the eager tally over the generation dictionary, or its KeyError |
| ComprehensiveReport.RatiosAgreeWithPercentages | generate_comprehensive_report.py:69-84 | scaling after the division equals the enhanced report's percentages: same accuracy, precision, recall, f1 and yes proportion |
| ComprehensiveReport.FractionScales | generate_comprehensive_report.py:72-84 | a guarded fraction times 100 is the guarded percentage |
| ComprehensiveReport.FractionNonneg | generate_comprehensive_report.py:72-76 | a guarded fraction is non-negative |
| ComprehensiveReport.HarmonicScales | generate_comprehensive_report.py:75-82 | the harmonic mean commutes with a positive scale factor |
| ComprehensiveReport.HallucinogenTallyUnguarded | generate_comprehensive_report.py:105-116 | correct ≤ total, and total is the number of matched items |
| ComprehensiveReport.EvaluateHallucinogenResults | generate_comprehensive_report.py:93-128 | the loop yields the ratios of the unguarded tally over the generation dictionary |
| ComprehensiveReport.UnguardedCountsEmptyAnswers | generate_comprehensive_report.py:110-116 | both Hallucinogen scorers match the same items, and the unguarded one counts exactly the empty answers more as correct |
| ComprehensiveReport.ImprovementRows | generate_comprehensive_report.py:247-260 | one row per dataset with one cell per model: the signed improvement `GainOf` iff both methods exist, otherwise "-" |
| ComprehensiveReport.ImprovementRow | generate_comprehensive_report.py:248-258 | one dataset's cells, one per model |
| ComprehensiveReport.ModelGains | generate_comprehensive_report.py:273-280 | at most one gain per dataset |
| ComprehensiveReport.ModelGainsEmpty | generate_comprehensive_report.py:273-282 | a model has no gains iff no dataset has both of its methods |
| ComprehensiveReport.ModelAverages | generate_comprehensive_report.py:266-284 | per model, the mean of its gains when some dataset has both methods, and no line otherwise |
| ComprehensiveReport.ModelImprovements | generate_comprehensive_report.py:272-280 | the inner loop collects one model's gains over the datasets |
| ComprehensiveReport.ModelGainsAreCells | generate_comprehensive_report.py:250-280 | every gain averaged is the improvement cell of some dataset |
| ComprehensiveReport.AverageWithinCells | generate_comprehensive_report.py:250-284 | an average line lies within the range of the model's improvement cells |
| ConfusionMatrix.RoundHalfEven | figures/generate_confusion_matrices.py:55 | round() gives the nearest integer, an exact tie going to the even one |
| ConfusionMatrix.RoundIntegral | figures/generate_confusion_matrices.py:55 | an integer rounds to itself |
| ConfusionMatrix.ExactCells | figures/generate_confusion_matrices.py:36-52 | TP = recall/100 · total/2; FP = TP/(precision/100) − TP when precision > 0, else 0; TP + FN = FP + TN = total/2 |
| ConfusionMatrix.ComputeConfusionMatrix | figures/generate_confusion_matrices.py:26-57 | a 2×2 matrix [[TP, FN], [FP, TN]] of the rounded cells |
| ConfusionMatrix.CellsRecoverMetrics | figures/generate_confusion_matrices.py:36-52 | with a positive total and precision and a recall in (0,100], the cells give back the recall and the precision |
| ConfusionMatrix.RoundedSumNearTotal | figures/generate_confusion_matrices.py:52-57 | the rounded matrix sums to within 2 of total |
| ConfusionMatrix.NegativeTrueNegatives | figures/generate_confusion_matrices.py:36-57 | example: precision 40 with recall 100 on 100 items gives FP 75 and TN −25 |
| ConfusionMatrix.TrueNegativesNonNegative | figures/generate_confusion_matrices.py:43-52 | TN ≥ 0 iff FP ≤ total/2 |
| ConfusionMatrix.ReductionReadsErrorCells | figures/generate_confusion_matrices.py:128-135 | on matrices built by compute_confusion_matrix the reductions compare the rounded FP and FN cells |
| ConfusionMatrix.GuardedReductionCases | figures/generate_confusion_matrices.py:134-135 | each per-cell reduction of `ErrorReduction` is 0 on a zero baseline; otherwise positive iff the count fell, 100 iff it fell to 0, and at most 100 for a non-negative count |
| ConfusionMatrix.TotalReductionUnguarded | figures/generate_confusion_matrices.py:136-138 | with no baseline errors the total reduction is NaN when the combined method has none either, −inf when it has some |
| ConfusionMatrix.TotalReductionDefined | figures/generate_confusion_matrices.py:136-138 | with baseline errors the total reduction is the guarded formula on the summed errors |
| CollectResults.TaskKeyInjective | collect_all_methods_results.py:34 | different tasks give different dataset keys |
| CollectResults.TaskKeysDistinct | collect_all_methods_results.py:22 | the four task keys differ |
| CollectResults.PercentagesScale | collect_all_methods_results.py:35-48 | all five metrics are present, each 100 × its fraction, and a fraction in [0,1] becomes a percentage in [0,100] |
| CollectResults.VcdEntry | collect_all_methods_results.py:34-49 | the entry has both the baseline and the vcd_only method |
| CollectResults.CollectVcdHallucinogenResults | collect_all_methods_results.py:16-51 | keys are the three models; a task's key is present iff both metric files exist, holds their percentages, and no other key appears |
| CollectResults.VcdRowKeys | collect_all_methods_results.py:26-34 | a task's key is in a row iff both of its metric files exist |
| CollectResults.AbsentTaskNotInRow | collect_all_methods_results.py:26-34 | a task outside the list has no key in the row |
| CollectResults.VcdRowValues | collect_all_methods_results.py:34-49 | with distinct keys a task's key holds that task's VCD entry |
| CollectResults.VcdRowOrigin | collect_all_methods_results.py:26-34 | every key of a row is some task's key |
| CollectResults.VcdRowContents | collect_all_methods_results.py:26-49 | the three row facts together, for every task |
| CollectResults.CollectModel | collect_all_methods_results.py:26-49 | the inner loop gives one model's row: present iff both files exist, with their percentages, and only task keys |
| CollectResults.CollectCombinedResults | collect_all_methods_results.py:116-130 | the same models as the data, only the datasets that have 'combined', and only that entry |
| CollectResults.CombinedRow | collect_all_methods_results.py:124-128 | one model's datasets that have 'combined', holding only that entry |
| CollectResults.VcdPart | collect_all_methods_results.py:155-158 | baseline and vcd_only are copied iff the VCD table has the dataset |
| CollectResults.AddPart | collect_all_methods_results.py:160-166 | a method is added iff its table has the dataset, and the other methods are left alone |
| CollectResults.MergedEntry | collect_all_methods_results.py:153-166 | each method is present iff its source has the dataset, and is copied from that source |
| CollectResults.Merge | collect_all_methods_results.py:143-168 | exactly the three models, each with exactly the four Hallucinogen keys, each holding the merged entry |
| CollectResults.MergeRow | collect_all_methods_results.py:149-166 | one model's four keys, each holding the merged entry |
| CollectResults.MergeAllResults | collect_all_methods_results.py:132-168 | the merged table of the three sources: three models × four tasks; in each entry baseline and vcd_only (as percentages of their metric files) iff both VCD files exist, agla_only iff the AGLA table has the dataset, combined iff the combined data has a 'combined' entry, each holding its own source's value |
| CollectResults.VcdReadable | collect_all_methods_results.py:155-158 | the collected VCD table holds both of its methods wherever it has a dataset |
| CollectResults.EntryProvenance | collect_all_methods_results.py:153-166 | baseline and vcd_only, each the percentages of its own metric file, iff both VCD files exist; agla_only, with the AGLA table's value, iff that table has the dataset; combined, with the combined data's value, iff that data has it |
| ReferenceCheck.StripAll | check_all_references.py:73 | one entry per piece, each already stripped and free of any comma its piece lacked |
| ReferenceCheck.KeyListsShape | check_all_references.py:72-73 | the key lists `KeyLists` have one list per `\cite` argument, each with one key more than the argument has commas, and no key holding a comma or surrounding whitespace |
| ReferenceCheck.CitationsSnoc | check_all_references.py:74 | one more argument appends its keys |
| ReferenceCheck.ExtractCitations | check_all_references.py:61-76 | the loop returns every argument's keys in order |
| ReferenceCheck.CitationCount | check_all_references.py:70-75 | each argument gives one key more than it has commas |
| ReferenceCheck.KeyCount | check_all_references.py:73 | one argument has one key more than it has commas |
| ReferenceCheck.FlattenConcat | check_all_references.py:74 | concatenating lists concatenates their elements |
| ReferenceCheck.CitationsConcat | check_all_references.py:70-75 | concatenating the arguments concatenates their keys: order is kept |
| ReferenceCheck.FlattenMembership | check_all_references.py:74 | an element of a concatenation comes from one of its lists |
| ReferenceCheck.CitationMembership | check_all_references.py:70-75 | a key is a citation iff it is a key of some argument |
| ReferenceCheck.StripKeepsOut | check_all_references.py:73 | stripping adds no character |
| ReferenceCheck.KeyShape | check_all_references.py:73 | no key of an argument contains a comma or surrounding whitespace |
| ReferenceCheck.CitationShape | check_all_references.py:70-75 | no citation contains a comma or surrounding whitespace |
| ReferenceCheck.Duplicates | check_all_references.py:148-151 | every flagged label is a defined label |
| ReferenceCheck.CountPositive | check_all_references.py:149 | a label's count is positive iff it occurs |
| ReferenceCheck.DuplicatedIffTwice | check_all_references.py:148-151 | a label is flagged iff it is defined at two different positions |
| ReferenceCheck.UndefinedAndUnreferenced | check_all_references.py:160-167 | undefined and unreferenced names are disjoint, each is the set difference it names, there are no undefined references iff every reference is defined, and with the used labels they cover every name |
| ReferenceCheck.MissingBibs | check_all_references.py:215-221 | each distinct citation without a bibliography entry appears exactly once |
| ReferenceCheck.DoneGrows | check_all_references.py:216-221 | taking a citation out of those left adds it to those handled iff it is to be reported |
| ReferenceCheck.ElementsOfSnoc | check_all_references.py:221 | appending adds exactly that element |
| ReferenceCheck.NoBibFileMissesAll | check_all_references.py:80-81 | without a bibliography file every citation is missing |
| ReferenceCheck.MissingAreUndefined | check_all_references.py:215-224 | the missing entries are the citations undefined in the bibliography |
| ReferenceCheck.MissingFigures | check_all_references.py:129-138 | a figure path is listed iff it is referenced and not on disk |
| ReferenceCheck.CollectMissingFigures | check_all_references.py:129-138 | the loop lists the missing figure paths in their order |
| ReferenceCheck.CheckPaper | check_all_references.py:129-221 | one paper's missing figures, undefined figure and table references, and missing bibliography entries (once each) |
| ReferenceCheck.TotalIssues | check_all_references.py:315-349 | the total is the sum of the four list sizes, and 0 iff nothing is reported |
| ReferenceCheck.Verdict | check_all_references.py:393-396 | success iff the issue count is 0, iff both papers' figures exist, references are defined and citations have entries; the count is the sum over both papers of missing figures, undefined figure and table references and distinct citations without an entry |
| ReferenceCheck.NoMissingFigures | check_all_references.py:129-138 | no figure is missing iff every figure path is on disk |
| ReferenceCheck.NoMissingBibs | check_all_references.py:215-221 | no entry is missing iff every citation has one |
| ReferenceCheck.CleanIffDefined | check_all_references.py:315-349 | a paper has no issues iff every figure exists, every reference is defined and every citation has an entry |
| ReferenceCheck.UnreferencedIsNoIssue | check_all_references.py:315-349 | example: a paper whose one label is unreferenced has that label reported and no issue counted |

## Left out

- Forward passes, multinomial sampling and softmax: the model, BLIP-ITM and GradCAM are foreign code. The forward pass and the draw are an oracle, and the saliency map and ITC score are inputs.
- `_update_model_kwargs_for_generation` is transformers code that is not part of this model. It is an oracle function.
- logits_processor and logits_warper (sample_vcd_agla.py:209-210) are external hooks; the model takes them as the identity.
- synced_gpus, the streamer, and the scores, attentions and hidden-state tuples, together with `return_dict_in_generate`: distributed execution and output bookkeeping that do not affect input_ids.
- The stopping criteria beyond the length limit are an oracle predicate. The `max_length` argument's deprecation path (lines 74-80) folds into that limit.
- Generation.SampleVcdAgla: the maximal length is mandatory. Called directly with no `max_length`, no stopping criteria and no EOS token, the source's loop never ends, since its criteria default to an empty list (sample_vcd_agla.py:72-80); that non-terminating case is not modelled.
- Generation.SampleVcdAgla: requires a non-empty, rectangular batch. A torch tensor is always rectangular. An empty batch is excluded. The source fails on it at `unfinished_sequences.max()` only when `eos_token_id` is set; without EOS what the forward pass does with an empty batch is not modelled.
- The monkey patching of `evolve_vcd_agla_sampling*` is global mutation of a library.
- Float numerics are abstract: `sigmoid`, `sqrt` and `log` are functions with the properties the proofs use.
  - `randn_like` is a noise parameter.
  - Results hold exactly in real arithmetic, without rounding.
- The unused `alphas_prod_p` and `one_minus_alphas_bar_log` of the noise module compute nothing the output uses.
- The PIL and torchvision conversions and the resizing in augmentation are image I/O.
  - Augmentation.Augment: stops before the conversion to a PIL image.
  - The map is a flat list of pixel saliencies whose length is not fixed at 384×384. A shorter map gives the IndexOutOfRange error that indexing would raise.
- The logging of exceptions in augmentation and noise is I/O. The re-raise is an `Err` result.
- PyStr.Lower: lowers ASCII letters only; Unicode case mapping is not modelled.
- NoiseSchedule.ClipStep: takes the step as an integer; the `int(noise_step)` truncation of a float step (utils/vcd_add_noise.py:52) is not modelled.
- EnhancedReport.AnswerText: the ground-truth `answer`/`label` is a string or absent. The source's `str(...)` would turn a non-string JSON value into text such as `None` or `1`; that conversion is not modelled, here or in ComprehensiveReport.
- EnhancedReport.GenDict: the records of both reports are assumed to carry `question_id`, and the generated ones `text`. The KeyError these subscripts would raise is not modelled; a missing `label` is.
- JSON and JSONL loading, file-existence probing, and writing markdown or LaTeX are I/O. What loading yields is an input:
  - records;
  - the maps of metric files that exist;
  - the regular-expression matches.
- `collect_agla_hallucinogen_results` (collect_all_methods_results.py:53-114) returns a fixed literal table. It is a parameter of CollectResults.MergeAllResults.
- Metric and method names are enumerations, so dictionary keys are exact.
- The `print` calls and text formatting of the scripts are output. This covers the `+.2f` of the improvement cells, which are kept as numbers.
- numpy int64 wrap-around in the confusion-matrix arithmetic is left out; the model uses unbounded integers.
- ReferenceCheck.MissingBibs: the list is stated as the right set with no repeats. The loop's order, `sorted(set(citations))`, is not modelled.
- ReferenceCheck.CheckPaper: the missing-bibliography list is stated only as a set without repeats, for the same reason.
- Duplicate labels and unreferenced labels and bibliography entries are only displayed by the source. They are modelled as sets with lemmas, but not as issues.
- The plotting in `figures/` other than the confusion-matrix and reduction arithmetic is drawing code.
