/**
  Three-way logit fusion and the plausibility gate of the contrastive sampler
  (sample_vcd_agla.py).  Everything here works on ONE row of the batch: the
  source's tensors are [batch, vocab] and every operation below (the linear
  combination, the row maximum, masked_fill) acts row by row.

  Forward-pass logits are finite reals.  The fused, gated row is a vector of
  `Logit`s, where `NegInf` is the -inf that masked_fill writes.  The natural
  logarithm applied to a beta (torch.log) is an abstract function `ln`; a beta
  <= 0 has logarithm -inf (or nan, which behaves the same way for the strict
  comparison `base < cutoff`: nothing is ever below it), so `ln` returns
  `NegInf` exactly for those.
*/
module Fusion {
  import opened Wrappers

  datatype Logit = NegInf | Fin(r: real)

  /** The fusion weights and gate thresholds read from the generation keyword arguments. */
  datatype Params = Params(cdAlpha: real, cdBeta: real, aglaAlpha: real, aglaBeta: real)

  const DefaultCdAlpha: real := 1.0
  const DefaultCdBeta: real := 0.1
  const DefaultAglaAlpha: real := 1.0
  const DefaultAglaBeta: real := 0.5

  /** What the source needs of torch.log: -inf exactly at non-positive arguments,
      non-positive exactly up to 1, zero at 1, and monotone. */
  ghost predicate IsLog(ln: real -> Logit) {
    && (forall b: real {:trigger ln(b)} :: ln(b).NegInf? <==> b <= 0.0)
    && (forall b: real {:trigger ln(b)} :: ln(b).Fin? ==> (ln(b).r <= 0.0 <==> b <= 1.0))
    && ln(1.0) == Fin(0.0)
    && (forall b1: real, b2: real {:trigger ln(b1), ln(b2)} ::
          0.0 < b1 <= b2 ==> ln(b1).Fin? && ln(b2).Fin? && ln(b1).r <= ln(b2).r)
  }

  /** `model_kwargs.get(key, default)` for the four fusion parameters. */
  function ResolveParams(cdAlpha: Option<real>, cdBeta: Option<real>,
                         aglaAlpha: Option<real>, aglaBeta: Option<real>): (p: Params)
    ensures cdAlpha.None? ==> p.cdAlpha == DefaultCdAlpha
    ensures cdBeta.None? ==> p.cdBeta == DefaultCdBeta
    ensures aglaAlpha.None? ==> p.aglaAlpha == DefaultAglaAlpha
    ensures aglaBeta.None? ==> p.aglaBeta == DefaultAglaBeta
    ensures cdAlpha.Some? ==> p.cdAlpha == cdAlpha.value
    ensures cdBeta.Some? ==> p.cdBeta == cdBeta.value
    ensures aglaAlpha.Some? ==> p.aglaAlpha == aglaAlpha.value
    ensures aglaBeta.Some? ==> p.aglaBeta == aglaBeta.value
  {
    Params(
      match cdAlpha case Some(v) => v case None => DefaultCdAlpha,
      match cdBeta case Some(v) => v case None => DefaultCdBeta,
      match aglaAlpha case Some(v) => v case None => DefaultAglaAlpha,
      match aglaBeta case Some(v) => v case None => DefaultAglaBeta)
  }

  /** The row maximum `logits.max(dim=-1)`. */
  function MaxOf(s: seq<real>): (m: real)
    requires |s| > 0
    ensures m in s
    ensures forall i :: 0 <= i < |s| ==> s[i] <= m
  {
    if |s| == 1 then s[0]
    else
      var rest := MaxOf(s[1..]);
      if s[0] >= rest then s[0] else rest
  }

  /** The shapes the source's broadcasting accepts without error: an auxiliary row
      has the vocabulary of the base row, and a row that is gated is non-empty
      (the maximum of an empty row raises). */
  predicate ShapesAgree(base: seq<real>, noise: Option<seq<real>>, aug: Option<seq<real>>) {
    && (noise.Some? ==> |noise.value| == |base|)
    && (aug.Some? ==> |aug.value| == |base|)
    && ((noise.Some? || aug.Some?) ==> |base| > 0)
  }

  /** `combined_logits` of the three active-branch cases (lines 182-186, 194, 200). */
  function Combined(base: seq<real>, noise: Option<seq<real>>, aug: Option<seq<real>>, p: Params): (c: seq<real>)
    requires ShapesAgree(base, noise, aug)
    ensures |c| == |base|
  {
    match (noise, aug)
    case (Some(n), Some(a)) =>
      seq(|base|, i requires 0 <= i < |base| =>
        (1.0 + p.cdAlpha + p.aglaAlpha) * base[i] - p.cdAlpha * n[i] + p.aglaAlpha * a[i])
    case (Some(n), None) =>
      seq(|base|, i requires 0 <= i < |base| => (1.0 + p.cdAlpha) * base[i] - p.cdAlpha * n[i])
    case (None, Some(a)) =>
      seq(|base|, i requires 0 <= i < |base| => base[i] + p.aglaAlpha * a[i])
    case (None, None) => base
  }

  /** The beta whose logarithm sets the gate: cd_beta whenever the noise branch is
      active, agla_beta when only the augmentation branch is. */
  function GateBeta(noise: Option<seq<real>>, p: Params): real {
    if noise.Some? then p.cdBeta else p.aglaBeta
  }

  /** `torch.log(beta) + base.max()`. */
  function Cutoff(lnBeta: Logit, base: seq<real>): Logit
    requires |base| > 0
  {
    match lnBeta
    case NegInf => NegInf
    case Fin(l) => Fin(l + MaxOf(base))
  }

  /** `x < cutoff` for a finite x; nothing is below -inf. */
  predicate Below(x: real, cutoff: Logit) {
    cutoff.Fin? && x < cutoff.r
  }

  /** `combined.masked_fill(base < cutoff, -inf)`. */
  function MaskFill(combined: seq<real>, base: seq<real>, cutoff: Logit): (g: seq<Logit>)
    requires |combined| == |base|
    ensures |g| == |base|
  {
    seq(|base|, i requires 0 <= i < |base| =>
      if Below(base[i], cutoff) then NegInf else Fin(combined[i]))
  }

  /** `final_logits` of one row (lines 180-206): the branch that applies is chosen
      by which auxiliary logits are present. */
  function Fuse(base: seq<real>, noise: Option<seq<real>>, aug: Option<seq<real>>,
                p: Params, ln: real -> Logit): (g: seq<Logit>)
    requires ShapesAgree(base, noise, aug)
    ensures |g| == |base|
  {
    if noise.None? && aug.None? then seq(|base|, i requires 0 <= i < |base| => Fin(base[i]))
    else MaskFill(Combined(base, noise, aug, p), base, Cutoff(ln(GateBeta(noise, p)), base))
  }

  /** The positions the sampler can draw: those that are not -inf. */
  function Admissible(g: seq<Logit>): (a: seq<nat>)
    ensures forall k :: 0 <= k < |a| ==> a[k] < |g| && g[a[k]].Fin?
    ensures forall i :: 0 <= i < |g| && g[i].Fin? ==> i in a
    ensures |a| <= |g|
  {
    if |g| == 0 then []
    else
      var rest := Admissible(g[..|g| - 1]);
      if g[|g| - 1].Fin? then rest + [|g| - 1] else rest
  }

  // ---------------------------------------------------------------------------
  // Properties of the fusion

  /** The gate: with an auxiliary branch active, position i is -inf exactly when
      the BASE logit lies below log(beta) + max(base); every other position holds
      the combined value, untouched. */
  lemma GateExact(base: seq<real>, noise: Option<seq<real>>, aug: Option<seq<real>>,
                  p: Params, ln: real -> Logit, i: int)
    requires ShapesAgree(base, noise, aug) && (noise.Some? || aug.Some?)
    requires 0 <= i < |base|
    ensures Fuse(base, noise, aug, p, ln)[i].NegInf? <==>
              (ln(GateBeta(noise, p)).Fin? && base[i] < ln(GateBeta(noise, p)).r + MaxOf(base))
    ensures Fuse(base, noise, aug, p, ln)[i].Fin? ==>
              Fuse(base, noise, aug, p, ln)[i].r == Combined(base, noise, aug, p)[i]
  {
  }

  /** With neither auxiliary branch the output is the base row, nothing masked. */
  lemma PlainIsBase(base: seq<real>, p: Params, ln: real -> Logit)
    ensures forall i :: 0 <= i < |base| ==> Fuse(base, None, None, p, ln)[i] == Fin(base[i])
  {
  }

  /** Both branches: the closed three-way formula at every surviving position,
      and the gate is governed by cd_beta: agla_beta is never consulted. */
  lemma BothUsesCdBeta(base: seq<real>, n: seq<real>, a: seq<real>, p: Params, ln: real -> Logit, otherAglaBeta: real)
    requires ShapesAgree(base, Some(n), Some(a))
    ensures Fuse(base, Some(n), Some(a), p, ln) == Fuse(base, Some(n), Some(a), p.(aglaBeta := otherAglaBeta), ln)
    ensures forall i :: 0 <= i < |base| ==>
      Fuse(base, Some(n), Some(a), p, ln)[i] ==
        if Below(base[i], Cutoff(ln(p.cdBeta), base)) then NegInf
        else Fin((1.0 + p.cdAlpha + p.aglaAlpha) * base[i] - p.cdAlpha * n[i] + p.aglaAlpha * a[i])
  {
  }

  /** Noise only: (1 + a_cd) base - a_cd noise, gated with cd_beta. */
  lemma NoiseOnlyFormula(base: seq<real>, n: seq<real>, p: Params, ln: real -> Logit)
    requires ShapesAgree(base, Some(n), None)
    ensures forall i :: 0 <= i < |base| ==>
      Fuse(base, Some(n), None, p, ln)[i] ==
        if Below(base[i], Cutoff(ln(p.cdBeta), base)) then NegInf
        else Fin((1.0 + p.cdAlpha) * base[i] - p.cdAlpha * n[i])
  {
    var g := Fuse(base, Some(n), None, p, ln);
    var c := Combined(base, Some(n), None, p);
    forall i | 0 <= i < |base|
      ensures g[i] == if Below(base[i], Cutoff(ln(p.cdBeta), base)) then NegInf
                      else Fin((1.0 + p.cdAlpha) * base[i] - p.cdAlpha * n[i])
    {
      assert c[i] == (1.0 + p.cdAlpha) * base[i] - p.cdAlpha * n[i];
    }
  }

  /** Augmentation only: base + a_agla aug, gated with agla_beta. */
  lemma AugOnlyFormula(base: seq<real>, a: seq<real>, p: Params, ln: real -> Logit)
    requires ShapesAgree(base, None, Some(a))
    ensures forall i :: 0 <= i < |base| ==>
      Fuse(base, None, Some(a), p, ln)[i] ==
        if Below(base[i], Cutoff(ln(p.aglaBeta), base)) then NegInf
        else Fin(base[i] + p.aglaAlpha * a[i])
  {
    var g := Fuse(base, None, Some(a), p, ln);
    var c := Combined(base, None, Some(a), p);
    forall i | 0 <= i < |base|
      ensures g[i] == if Below(base[i], Cutoff(ln(p.aglaBeta), base)) then NegInf
                      else Fin(base[i] + p.aglaAlpha * a[i])
    {
      assert c[i] == base[i] + p.aglaAlpha * a[i];
    }
  }

  /** The three-way formula with a_agla = 0 is exactly the noise-only one. */
  lemma BothWithoutAugWeightIsNoiseOnly(base: seq<real>, n: seq<real>, a: seq<real>, p: Params, ln: real -> Logit)
    requires ShapesAgree(base, Some(n), Some(a)) && p.aglaAlpha == 0.0
    ensures Fuse(base, Some(n), Some(a), p, ln) == Fuse(base, Some(n), None, p, ln)
  {
    var both := Fuse(base, Some(n), Some(a), p, ln);
    var single := Fuse(base, Some(n), None, p, ln);
    forall i | 0 <= i < |base| ensures both[i] == single[i] {
      assert Combined(base, Some(n), Some(a), p)[i] == Combined(base, Some(n), None, p)[i];
    }
  }

  /** The converse does not hold: with a_cd = 0 the three-way combination is NOT
      the augmentation-only one, because the three-way formula also weights the
      base row by a_agla.  At every position it exceeds the augmentation-only
      combination by a_agla * base. */
  lemma BothWithoutCdWeightIsNotAugOnly(base: seq<real>, n: seq<real>, a: seq<real>, p: Params)
    requires ShapesAgree(base, Some(n), Some(a)) && p.cdAlpha == 0.0
    ensures forall i :: 0 <= i < |base| ==>
      Combined(base, Some(n), Some(a), p)[i] == Combined(base, None, Some(a), p)[i] + p.aglaAlpha * base[i]
  {
    forall i | 0 <= i < |base|
      ensures Combined(base, Some(n), Some(a), p)[i] == Combined(base, None, Some(a), p)[i] + p.aglaAlpha * base[i]
    {
      assert (1.0 + p.cdAlpha + p.aglaAlpha) * base[i] == base[i] + p.aglaAlpha * base[i];
      assert p.cdAlpha * n[i] == 0.0;
    }
  }

  /** With every alpha 0, each of the four cases yields the base row wherever the
      gate lets a position through. */
  lemma ZeroAlphasGiveBase(base: seq<real>, noise: Option<seq<real>>, aug: Option<seq<real>>,
                           p: Params, ln: real -> Logit)
    requires ShapesAgree(base, noise, aug)
    requires p.cdAlpha == 0.0 && p.aglaAlpha == 0.0
    ensures forall i :: 0 <= i < |base| ==>
      Fuse(base, noise, aug, p, ln)[i] == NegInf || Fuse(base, noise, aug, p, ln)[i] == Fin(base[i])
  {
    var g := Fuse(base, noise, aug, p, ln);
    if noise.Some? || aug.Some? {
      var c := Combined(base, noise, aug, p);
      forall i | 0 <= i < |base| ensures g[i] == NegInf || g[i] == Fin(base[i]) {
        assert c[i] == base[i];
      }
    }
  }

  /** With beta <= 1 (so log(beta) <= 0) every argmax position of the base row
      survives the gate; in particular the gated row is never all -inf. */
  lemma ArgmaxSurvives(base: seq<real>, noise: Option<seq<real>>, aug: Option<seq<real>>,
                       p: Params, ln: real -> Logit, i: int)
    requires ShapesAgree(base, noise, aug) && IsLog(ln)
    requires GateBeta(noise, p) <= 1.0
    requires 0 <= i < |base| && base[i] == MaxOf(base)
    ensures Fuse(base, noise, aug, p, ln)[i].Fin?
    ensures |Admissible(Fuse(base, noise, aug, p, ln))| > 0
  {
    var b := GateBeta(noise, p);
    assert ln(b).Fin? ==> ln(b).r <= 0.0;
    assert Fuse(base, noise, aug, p, ln)[i].Fin?;
  }

  /** With beta = 1 the gate keeps exactly the argmax positions of the base row. */
  lemma BetaOneKeepsExactlyArgmax(base: seq<real>, noise: Option<seq<real>>, aug: Option<seq<real>>,
                                  p: Params, ln: real -> Logit)
    requires ShapesAgree(base, noise, aug) && (noise.Some? || aug.Some?) && IsLog(ln)
    requires GateBeta(noise, p) == 1.0
    ensures forall i :: 0 <= i < |base| ==>
      (Fuse(base, noise, aug, p, ln)[i].Fin? <==> base[i] == MaxOf(base))
  {
    assert ln(GateBeta(noise, p)) == Fin(0.0);
  }

  /** With beta <= 0 (log(beta) = -inf, the limit beta -> 0) the gate admits every position. */
  lemma NonPositiveBetaAdmitsAll(base: seq<real>, noise: Option<seq<real>>, aug: Option<seq<real>>,
                                 p: Params, ln: real -> Logit)
    requires ShapesAgree(base, noise, aug) && IsLog(ln)
    requires GateBeta(noise, p) <= 0.0
    ensures forall i :: 0 <= i < |base| ==> Fuse(base, noise, aug, p, ln)[i].Fin?
  {
    assert ln(GateBeta(noise, p)).NegInf?;
  }

  /** A smaller beta never removes a position that a larger one lets through. */
  lemma SmallerBetaAdmitsMore(base: seq<real>, noise: Option<seq<real>>, aug: Option<seq<real>>,
                              p: Params, q: Params, ln: real -> Logit)
    requires ShapesAgree(base, noise, aug) && IsLog(ln)
    requires GateBeta(noise, q) <= GateBeta(noise, p)
    ensures forall i :: 0 <= i < |base| && Fuse(base, noise, aug, p, ln)[i].Fin? ==>
      Fuse(base, noise, aug, q, ln)[i].Fin?
  {
    var bp, bq := GateBeta(noise, p), GateBeta(noise, q);
    if noise.Some? || aug.Some? {
      if bq > 0.0 {
        assert ln(bq).Fin? && ln(bp).Fin? && ln(bq).r <= ln(bp).r;
      } else {
        assert ln(bq).NegInf?;
      }
    }
  }

  /** A worked example: base [5,1,1], noise [1,5,1],
      a_cd = 1 and beta_cd = 0.1 (log 0.1 taken within (-2.4, -2.2)).  The
      cutoff is about 2.70, so both positions 1 and 2 (base value 1) are masked,
      and only token 0 remains, with fused value 9. */
  lemma NoiseScenario(ln: real -> Logit, p: Params)
    requires p.cdAlpha == 1.0 && p.cdBeta == 0.1
    requires ln(0.1).Fin? && -2.4 < ln(0.1).r < -2.2
    ensures Fuse([5.0, 1.0, 1.0], Some([1.0, 5.0, 1.0]), None, p, ln) == [Fin(9.0), NegInf, NegInf]
    ensures Admissible(Fuse([5.0, 1.0, 1.0], Some([1.0, 5.0, 1.0]), None, p, ln)) == [0]
  {
    var base := [5.0, 1.0, 1.0];
    assert MaxOf(base[2..]) == 1.0;
    assert MaxOf(base[1..]) == 1.0;
    assert MaxOf(base) == 5.0;
    var g := Fuse(base, Some([1.0, 5.0, 1.0]), None, p, ln);
    assert g == [Fin(9.0), NegInf, NegInf];
    assert g[..2] == [Fin(9.0), NegInf] && g[..2][..1] == [Fin(9.0)] && g[..2][..1][..0] == [];
    assert Admissible(g[..2][..1]) == [0];
    assert Admissible(g[..2]) == [0];
  }

  /** The same with the augmentation row [1,1,9] and a_agla = 1: the three-way
      formula weights the base row by 1 + a_cd + a_agla = 3, so the combined row
      before the gate is [15,-1,11]; the gate (still cd_beta) masks positions 1
      and 2, leaving [15, -inf, -inf]. */
  lemma ThreeWayScenario(ln: real -> Logit, p: Params)
    requires p.cdAlpha == 1.0 && p.cdBeta == 0.1 && p.aglaAlpha == 1.0
    requires ln(0.1).Fin? && -2.4 < ln(0.1).r < -2.2
    ensures Combined([5.0, 1.0, 1.0], Some([1.0, 5.0, 1.0]), Some([1.0, 1.0, 9.0]), p) == [15.0, -1.0, 11.0]
    ensures Fuse([5.0, 1.0, 1.0], Some([1.0, 5.0, 1.0]), Some([1.0, 1.0, 9.0]), p, ln) == [Fin(15.0), NegInf, NegInf]
  {
    var base := [5.0, 1.0, 1.0];
    assert MaxOf(base[2..]) == 1.0;
    assert MaxOf(base[1..]) == 1.0;
    assert MaxOf(base) == 5.0;
    assert Combined(base, Some([1.0, 5.0, 1.0]), Some([1.0, 1.0, 9.0]), p) == [15.0, -1.0, 11.0];
  }
}
