/**
  The diffusion-noise distortion of the noisy branch (utils/vcd_add_noise.py,
  add_diffusion_noise): a DDPM variance schedule of 1000 steps, the clipping of
  the requested step, and the forward-diffusion mix of image and noise.

  The float functions are abstract: `sigma` is torch.sigmoid (values in (0,1),
  strictly increasing), `sqrt` is torch.sqrt on non-negative arguments, and the
  Gaussian sample of randn_like is a parameter of the same shape as the image.
*/
module NoiseSchedule {

  const NumSteps: nat := 1000
  const BetaMin: real := 0.00001
  const BetaMax: real := 0.005

  ghost predicate IsSigmoid(sigma: real -> real) {
    && (forall x :: 0.0 < sigma(x) < 1.0)
    && (forall x, y :: x < y ==> sigma(x) < sigma(y))
  }

  ghost predicate IsSqrt(sqrt: real -> real) {
    forall y :: y >= 0.0 ==> sqrt(y) >= 0.0 && sqrt(y) * sqrt(y) == y
  }

  /** `torch.linspace(-6, 6, 1000)[i]`. */
  function Linspace(i: nat): real {
    -6.0 + 12.0 * (i as real) / ((NumSteps - 1) as real)
  }

  /** The variance schedule (lines 33-34). */
  function Betas(sigma: real -> real): (b: seq<real>)
    ensures |b| == NumSteps
  {
    seq(NumSteps, i requires 0 <= i < NumSteps => sigma(Linspace(i)) * (BetaMax - BetaMin) + BetaMin)
  }

  /** `alphas = 1 - betas` (line 37). */
  function Alphas(sigma: real -> real): (a: seq<real>)
    ensures |a| == NumSteps
  {
    var b := Betas(sigma);
    seq(NumSteps, i requires 0 <= i < NumSteps => 1.0 - b[i])
  }

  /** The product of the elements of a sequence. */
  function Prod(s: seq<real>): real {
    if |s| == 0 then 1.0 else Prod(s[..|s| - 1]) * s[|s| - 1]
  }

  /** `torch.cumprod(a, dim=0)`: element i is the product of a[0..i]. */
  function CumProd(a: seq<real>): (c: seq<real>)
    ensures |c| == |a|
  {
    seq(|a|, i requires 0 <= i < |a| => Prod(a[..i + 1]))
  }

  /** alphas_prod (line 38). */
  function AlphasBar(sigma: real -> real): (c: seq<real>)
    ensures |c| == NumSteps
  {
    CumProd(Alphas(sigma))
  }

  /** Every beta lies in (1e-5, 0.005), inside (0, 1), and the schedule rises. */
  lemma BetasBounded(sigma: real -> real)
    requires IsSigmoid(sigma)
    ensures forall i :: 0 <= i < NumSteps ==> BetaMin < Betas(sigma)[i] < BetaMax
    ensures forall i, j :: 0 <= i < j < NumSteps ==> Betas(sigma)[i] < Betas(sigma)[j]
  {
    var b := Betas(sigma);
    forall i | 0 <= i < NumSteps ensures BetaMin < b[i] < BetaMax {
      var s := sigma(Linspace(i));
      assert 0.0 < s < 1.0;
      assert 0.0 < s * (BetaMax - BetaMin) < BetaMax - BetaMin;
    }
    forall i, j | 0 <= i < j < NumSteps ensures b[i] < b[j] {
      assert Linspace(i) < Linspace(j);
      assert sigma(Linspace(i)) < sigma(Linspace(j));
      assert sigma(Linspace(i)) * (BetaMax - BetaMin) < sigma(Linspace(j)) * (BetaMax - BetaMin);
    }
  }

  /** Every alpha lies in (0, 1). */
  lemma AlphasInUnitInterval(sigma: real -> real)
    requires IsSigmoid(sigma)
    ensures forall i :: 0 <= i < NumSteps ==> 0.0 < Alphas(sigma)[i] < 1.0
  {
    BetasBounded(sigma);
  }

  /** A product of factors in (0, 1) lies in (0, 1], and in (0, 1) when non-empty. */
  lemma {:induction false} ProdBounds(s: seq<real>)
    requires forall i :: 0 <= i < |s| ==> 0.0 < s[i] < 1.0
    ensures 0.0 < Prod(s) <= 1.0
    ensures |s| > 0 ==> Prod(s) < 1.0
  {
    if |s| > 0 {
      var init := s[..|s| - 1];
      ProdBounds(init);
      var x := s[|s| - 1];
      assert 0.0 < x < 1.0;
      assert Prod(init) * x <= x;
      assert 0.0 < Prod(init) * x;
    }
  }

  /** The cumulative product of factors in (0, 1) stays in (0, 1) and strictly
      decreases: each step multiplies by a factor below 1. */
  lemma CumProdDecreases(a: seq<real>)
    requires forall i :: 0 <= i < |a| ==> 0.0 < a[i] < 1.0
    ensures forall i :: 0 <= i < |a| ==> 0.0 < CumProd(a)[i] < 1.0
    ensures forall i :: 0 <= i < |a| - 1 ==> CumProd(a)[i + 1] < CumProd(a)[i]
  {
    var c := CumProd(a);
    forall i | 0 <= i < |a| ensures 0.0 < c[i] < 1.0 {
      ProdBounds(a[..i + 1]);
    }
    forall i | 0 <= i < |a| - 1 ensures c[i + 1] < c[i] {
      assert a[..i + 2][..i + 1] == a[..i + 1];
      assert c[i + 1] == c[i] * a[i + 1];
      assert c[i] * a[i + 1] < c[i];
    }
  }

  /** The retention schedule alphas_prod is strictly decreasing in the step and
      lies in (0, 1). */
  lemma AlphasBarDecreasing(sigma: real -> real)
    requires IsSigmoid(sigma)
    ensures forall i :: 0 <= i < NumSteps ==> 0.0 < AlphasBar(sigma)[i] < 1.0
    ensures forall i, j :: 0 <= i < j < NumSteps ==> AlphasBar(sigma)[j] < AlphasBar(sigma)[i]
  {
    AlphasInUnitInterval(sigma);
    var c := AlphasBar(sigma);
    CumProdDecreases(Alphas(sigma));
    forall i, j | 0 <= i < j < NumSteps ensures c[j] < c[i] {
      StepwiseToStrict(c, i, j);
    }
  }

  lemma {:induction false} StepwiseToStrict(c: seq<real>, i: int, j: int)
    requires forall k :: 0 <= k < |c| - 1 ==> c[k + 1] < c[k]
    requires 0 <= i < j < |c|
    ensures c[j] < c[i]
    decreases j - i
  {
    if j > i + 1 {
      StepwiseToStrict(c, i, j - 1);
    }
  }

  /** The step after validation (lines 52-55) and whether a warning was logged. */
  datatype Clipped = Clipped(step: nat, warned: bool)

  /** A step outside [0, 999] is clamped to the nearest bound, with a warning; an
      in-range step is kept silently. */
  function ClipStep(noiseStep: int): (c: Clipped)
    ensures c.step < NumSteps
    ensures c.warned <==> (noiseStep < 0 || noiseStep >= NumSteps)
    ensures !c.warned ==> c.step == noiseStep
    ensures noiseStep < 0 ==> c.step == 0
    ensures noiseStep >= NumSteps ==> c.step == NumSteps - 1
  {
    if noiseStep < 0 || noiseStep >= NumSteps then
      Clipped(if noiseStep < 0 then 0 else if noiseStep > NumSteps - 1 then NumSteps - 1 else noiseStep, true)
    else Clipped(noiseStep, false)
  }

  /** A clipped step is a fixed point of the clipping. */
  lemma ClipIdempotent(noiseStep: int)
    ensures ClipStep(ClipStep(noiseStep).step).step == ClipStep(noiseStep).step
    ensures !ClipStep(ClipStep(noiseStep).step).warned
  {
  }

  /** The coefficient applied to the image at a (validated) step. */
  function SignalCoefficient(t: nat, sigma: real -> real, sqrt: real -> real): real
    requires t < NumSteps
  {
    sqrt(AlphasBar(sigma)[t])
  }

  /** The coefficient applied to the noise at a (validated) step. */
  function NoiseCoefficient(t: nat, sigma: real -> real, sqrt: real -> real): real
    requires t < NumSteps
  {
    sqrt(1.0 - AlphasBar(sigma)[t])
  }

  /** The noisy image and the warning flag. */
  datatype Noised = Noised(image: seq<real>, warned: bool)

  /** add_diffusion_noise: `q_x(x_0, t) = sqrt(abar[t]) * x_0 + sqrt(1 - abar[t]) * noise`
      on the (cloned) image, at the validated step. */
  function AddDiffusionNoise(image: seq<real>, noiseStep: int, noise: seq<real>,
                             sigma: real -> real, sqrt: real -> real): (r: Noised)
    requires |noise| == |image|
    ensures |r.image| == |image|
    ensures r.warned == ClipStep(noiseStep).warned
    ensures forall i :: 0 <= i < |image| ==>
      r.image[i] == SignalCoefficient(ClipStep(noiseStep).step, sigma, sqrt) * image[i]
                  + NoiseCoefficient(ClipStep(noiseStep).step, sigma, sqrt) * noise[i]
  {
    var c := ClipStep(noiseStep);
    var abar := AlphasBar(sigma)[c.step];
    var signal := sqrt(abar);
    var spread := sqrt(1.0 - abar);
    Noised(seq(|image|, i requires 0 <= i < |image| => signal * image[i] + spread * noise[i]), c.warned)
  }

  /** The image and noise coefficients of every step are strictly positive and
      their squares sum to 1: the mix preserves variance. */
  lemma NoiseMixPreservesVariance(t: nat, sigma: real -> real, sqrt: real -> real)
    requires t < NumSteps && IsSigmoid(sigma) && IsSqrt(sqrt)
    ensures SignalCoefficient(t, sigma, sqrt) > 0.0 && NoiseCoefficient(t, sigma, sqrt) > 0.0
    ensures SignalCoefficient(t, sigma, sqrt) * SignalCoefficient(t, sigma, sqrt)
          + NoiseCoefficient(t, sigma, sqrt) * NoiseCoefficient(t, sigma, sqrt) == 1.0
  {
    AlphasBarDecreasing(sigma);
    var abar := AlphasBar(sigma)[t];
    assert 0.0 < abar < 1.0;
    var a, b := sqrt(abar), sqrt(1.0 - abar);
    assert a * a == abar && b * b == 1.0 - abar;
    assert a != 0.0 && b != 0.0;
  }

  /** A later step keeps strictly less of the image and adds strictly more noise. */
  lemma LaterStepsAreNoisier(t: nat, u: nat, sigma: real -> real, sqrt: real -> real)
    requires t < u < NumSteps && IsSigmoid(sigma) && IsSqrt(sqrt)
    ensures SignalCoefficient(u, sigma, sqrt) < SignalCoefficient(t, sigma, sqrt)
    ensures NoiseCoefficient(t, sigma, sqrt) < NoiseCoefficient(u, sigma, sqrt)
  {
    var ct, cu := AlphasBar(sigma)[t], AlphasBar(sigma)[u];
    assert 0.0 < cu < ct < 1.0 by {
      AlphasBarDecreasing(sigma);
    }
    SqrtStrictlyMonotone(sqrt, cu, ct);
    SqrtStrictlyMonotone(sqrt, 1.0 - ct, 1.0 - cu);
  }

  lemma SqrtStrictlyMonotone(sqrt: real -> real, x: real, y: real)
    requires IsSqrt(sqrt) && 0.0 <= x < y
    ensures sqrt(x) < sqrt(y)
  {
    var a, b := sqrt(x), sqrt(y);
    assert a >= 0.0 && b >= 0.0 && a * a == x && b * b == y;
    SquaresOrdered(a, b);
  }

  /** Between non-negative reals, a smaller square means a smaller number. */
  lemma SquaresOrdered(a: real, b: real)
    requires a >= 0.0 && b >= 0.0 && a * a < b * b
    ensures a < b
  {
    assert (b - a) * (b + a) == b * b - a * a;
    assert (b - a) * (b + a) > 0.0;
    assert b + a > 0.0;
  }
}
