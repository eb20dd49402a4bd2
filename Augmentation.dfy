/**
  The attention-guided masking of the augmented branch (utils/augmentation.py,
  augmentation): the image-text matching score fixes a masking ratio, the
  saliency map sorted in descending order gives a threshold, and every pixel
  whose saliency is below the threshold is zeroed.

  The saliency map (GradCAM through getAttMap) and the ITC score come from
  models that are not part of this model; they are inputs.  Pixels are
  flattened: the map holds one value per pixel and the image one channel vector
  per pixel, so `cat([cam1, cam1, cam1], dim=2)` applies the same mask bit to
  every channel.
*/
module Augmentation {
  import opened Wrappers
  import opened Floats

  /** The pixel count the source assumes (line 95), whatever the map's size. */
  const TotalPixels: nat := 384 * 384
  /** `1 - 10**(-5)` of line 77 and the upper clamp 0.99999 of line 92. */
  const RatioCap: real := 0.99999

  datatype AugError =
    | IndexOutOfRange   // temp[mask_index] past the end of a map smaller than 384x384
    | ShapeMismatch     // the mask and the image do not broadcast

  /** Python's min(a, b): b when b < a, otherwise a. */
  function PyMin(a: Ext, b: Ext): Ext {
    if Less(b, a) then b else a
  }

  /** Python's max(a, b): b when b > a, otherwise a. */
  function PyMax(a: Ext, b: Ext): Ext {
    if Less(a, b) then b else a
  }

  /** `1 - itc_score / 2`. */
  function RawRatio(itc: Ext): Ext {
    match itc
    case Num(s) => Num(1.0 - s / 2.0)
    case PosInf => NegInf
    case NegInf => PosInf
    case NaN => NaN
  }

  /** The masking ratio after the cap of line 77 and the clamp of line 92; a NaN
      score ends at 0 because every comparison with NaN is false. */
  function MaskRatio(itc: Ext): (r: real)
    ensures 0.0 <= r <= RatioCap
    ensures itc.Num? && 0.0 <= 1.0 - itc.r / 2.0 <= RatioCap ==> r == 1.0 - itc.r / 2.0
    ensures itc.Num? && 1.0 - itc.r / 2.0 < 0.0 ==> r == 0.0
    ensures itc.Num? && 1.0 - itc.r / 2.0 > RatioCap ==> r == RatioCap
    ensures itc.NaN? || itc == PosInf ==> r == 0.0
    ensures itc == NegInf ==> r == RatioCap
  {
    var capped := PyMin(RawRatio(itc), Num(RatioCap));
    var clamped := PyMax(Num(0.0), PyMin(capped, Num(RatioCap)));
    if clamped.Num? && 0.0 <= clamped.r <= RatioCap then clamped.r else 0.0
  }

  /** A higher ITC score never gives a larger ratio. */
  lemma MaskRatioAntitone(s: real, t: real)
    requires s <= t
    ensures MaskRatio(Num(t)) <= MaskRatio(Num(s))
  {
  }

  /** `min(int(total_pixels * ratio), total_pixels - 1)`; int() truncates, which
      is the floor on a non-negative product. */
  function MaskIndex(ratio: real): (mi: nat)
    requires 0.0 <= ratio
    ensures mi <= TotalPixels - 1
    ensures mi <= (TotalPixels as real * ratio).Floor
  {
    var m := (TotalPixels as real * ratio).Floor;
    if m < TotalPixels - 1 then m else TotalPixels - 1
  }

  /** The bound of line 97 never binds: a clamped ratio already keeps the floor
      below the last index. */
  lemma MaskIndexCapNeverBinds(ratio: real)
    requires 0.0 <= ratio <= RatioCap
    ensures MaskIndex(ratio) == (TotalPixels as real * ratio).Floor
  {
    assert TotalPixels as real * ratio <= 147454.53;
  }

  /** A larger ratio never gives a smaller index. */
  lemma MaskIndexMonotone(r: real, q: real)
    requires 0.0 <= r <= q
    ensures MaskIndex(r) <= MaskIndex(q)
  {
    assert TotalPixels as real * r <= TotalPixels as real * q;
  }

  // ---------------------------------------------------------------------------
  // torch.sort(..., descending=True)

  predicate Descending(t: seq<Ext>) {
    forall i, j :: 0 <= i < j < |t| ==> SortLe(t[j], t[i])
  }

  function Insert(x: Ext, t: seq<Ext>): (r: seq<Ext>)
    requires Descending(t)
    ensures Descending(r)
    ensures multiset(r) == multiset(t) + multiset{x}
    decreases |t|, 0
  {
    if |t| == 0 then [x]
    else if SortLe(t[0], x) then
      assert forall j :: 0 <= j < |t| ==> SortLe(t[j], x) by {
        forall j | 0 <= j < |t| ensures SortLe(t[j], x) {
          if j > 0 { SortLeTransitive(t[j], t[0], x); }
        }
      }
      [x] + t
    else
      var rest := Insert(x, t[1..]);
      assert t == [t[0]] + t[1..];
      InsertBelow(x, t[1..], t[0]);
      [t[0]] + rest
  }

  /** Whatever is inserted below a bound stays below it. */
  lemma InsertBelow(x: Ext, t: seq<Ext>, y: Ext)
    requires Descending(t) && SortLe(x, y) && forall j :: 0 <= j < |t| ==> SortLe(t[j], y)
    ensures forall j :: 0 <= j < |Insert(x, t)| ==> SortLe(Insert(x, t)[j], y)
    decreases |t|, 1
  {
    var r := Insert(x, t);
    forall j | 0 <= j < |r| ensures SortLe(r[j], y) {
      assert r[j] in multiset(r);
      if r[j] != x {
        assert r[j] in multiset(t);
        var k :| 0 <= k < |t| && t[k] == r[j];
      }
    }
  }

  /** The saliency values sorted in descending order, as a permutation of the input. */
  function SortDescending(s: seq<Ext>): (t: seq<Ext>)
    ensures Descending(t)
    ensures |t| == |s|
    ensures multiset(t) == multiset(s)
  {
    if |s| == 0 then []
    else
      assert s == [s[0]] + s[1..];
      var t := Insert(s[0], SortDescending(s[1..]));
      assert |t| == |multiset(t)| == |multiset(s)| == |s|;
      t
  }

  /** `torch.isinf(temp).any() or torch.isnan(temp).any()`. */
  predicate HasNonFinite(s: seq<Ext>) {
    exists i :: 0 <= i < |s| && !s[i].Num?
  }

  predicate HasNaN(s: seq<Ext>) {
    exists i :: 0 <= i < |s| && s[i].NaN?
  }

  /** torch.median of the sorted map: NaN when a NaN is present, otherwise the
      lower of the two middle values (torch's convention for an even count). */
  function Median(t: seq<Ext>): Ext
    requires |t| > 0 && Descending(t)
  {
    if HasNaN(t) then NaN else t[|t| - 1 - (|t| - 1) / 2]
  }

  /** The threshold of lines 86-105: the value at mask_index of the sorted map, or
      the median when the map holds an infinity or NaN. */
  function Threshold(itc: Ext, cam: seq<Ext>): (r: Result<Ext, AugError>)
    ensures r.Err? <==> !HasNonFinite(cam) && MaskIndex(MaskRatio(itc)) >= |cam|
  {
    var t := SortDescending(cam);
    var mi := MaskIndex(MaskRatio(itc));
    SameElements(cam, t);
    if HasNonFinite(t) then Ok(Median(t))
    else if mi < |t| then Ok(t[mi])
    else Err(IndexOutOfRange)
  }

  /** A sequence and its sorted permutation agree on which kinds of values occur. */
  lemma SameElements(s: seq<Ext>, t: seq<Ext>)
    requires multiset(s) == multiset(t)
    ensures |s| == |t|
    ensures HasNonFinite(s) <==> HasNonFinite(t)
    ensures HasNaN(s) <==> HasNaN(t)
  {
    assert |s| == |multiset(s)| == |t|;
    if HasNonFinite(s) {
      var i :| 0 <= i < |s| && !s[i].Num?;
      assert s[i] in multiset(t);
    }
    if HasNonFinite(t) {
      var i :| 0 <= i < |t| && !t[i].Num?;
      assert t[i] in multiset(s);
    }
    if HasNaN(s) {
      var i :| 0 <= i < |s| && s[i].NaN?;
      assert s[i] in multiset(t);
    }
    if HasNaN(t) {
      var i :| 0 <= i < |t| && t[i].NaN?;
      assert t[i] in multiset(s);
    }
  }

  /** `torch.where(cam < threshold, 0, 1)` is 1 exactly for kept pixels. */
  predicate Keep(c: Ext, threshold: Ext) {
    !Less(c, threshold)
  }

  function Zeros(n: nat): (z: seq<real>)
    ensures |z| == n && forall k :: 0 <= k < n ==> z[k] == 0.0
  {
    seq(n, _ => 0.0)
  }

  /** augmentation up to the conversion to a PIL image: every pixel is kept
      unchanged when its saliency is at least the threshold and zeroed otherwise. */
  function Augment(itc: Ext, cam: seq<Ext>, image: seq<seq<real>>): (r: Result<seq<seq<real>>, AugError>)
    ensures Threshold(itc, cam).Err? ==> r == Err(Threshold(itc, cam).error)
    ensures Threshold(itc, cam).Ok? ==> (r.Err? <==> |image| != |cam|)
    ensures r.Ok? ==> |r.value| == |image| == |cam| && forall i :: 0 <= i < |image| ==>
      (Keep(cam[i], Threshold(itc, cam).value) ==> r.value[i] == image[i]) &&
      (!Keep(cam[i], Threshold(itc, cam).value) ==> r.value[i] == Zeros(|image[i]|))
  {
    match Threshold(itc, cam)
    case Err(e) => Err(e)
    case Ok(thr) =>
      if |image| != |cam| then Err(ShapeMismatch)
      else Ok(seq(|image|, i requires 0 <= i < |image| =>
                  if Keep(cam[i], thr) then image[i] else Zeros(|image[i]|)))
  }

  // ---------------------------------------------------------------------------
  // Properties

  /** Without infinities or NaN the threshold is the element at mask_index of the
      descending map. */
  lemma ThresholdIsSortedElement(itc: Ext, cam: seq<Ext>)
    requires !HasNonFinite(cam) && MaskIndex(MaskRatio(itc)) < |cam|
    ensures Threshold(itc, cam) == Ok(SortDescending(cam)[MaskIndex(MaskRatio(itc))])
  {
    SameElements(cam, SortDescending(cam));
  }

  /** A NaN anywhere in the map makes the threshold NaN, and since nothing is
      below NaN the image comes back unchanged. */
  lemma NaNKeepsEverything(itc: Ext, cam: seq<Ext>, image: seq<seq<real>>)
    requires HasNaN(cam) && |image| == |cam|
    ensures Threshold(itc, cam) == Ok(NaN)
    ensures Augment(itc, cam, image) == Ok(image)
  {
    SameElements(cam, SortDescending(cam));
    var r := Augment(itc, cam, image).value;
    assert forall i :: 0 <= i < |image| ==> Keep(cam[i], NaN);
    assert r == image;
  }

  /** The number of pixels kept at a threshold. */
  function KeptCount(s: seq<Ext>, threshold: Ext): (n: nat)
    ensures n <= |s|
  {
    if |s| == 0 then 0 else (if Keep(s[0], threshold) then 1 else 0) + KeptCount(s[1..], threshold)
  }

  lemma {:induction false} KeptCountInsert(x: Ext, t: seq<Ext>, threshold: Ext)
    requires Descending(t)
    ensures KeptCount(Insert(x, t), threshold) == KeptCount(t, threshold) + (if Keep(x, threshold) then 1 else 0)
  {
    if |t| > 0 && !SortLe(t[0], x) {
      KeptCountInsert(x, t[1..], threshold);
      assert ([t[0]] + Insert(x, t[1..]))[1..] == Insert(x, t[1..]);
    } else if |t| > 0 {
      assert ([x] + t)[1..] == t;
    }
  }

  /** Sorting does not change how many pixels pass a threshold. */
  lemma {:induction false} KeptCountSorted(s: seq<Ext>, threshold: Ext)
    ensures KeptCount(SortDescending(s), threshold) == KeptCount(s, threshold)
  {
    if |s| > 0 {
      KeptCountSorted(s[1..], threshold);
      KeptCountInsert(s[0], SortDescending(s[1..]), threshold);
    }
  }

  /** A prefix whose every element passes contributes its full length. */
  lemma {:induction false} KeptCountAtLeastPrefix(t: seq<Ext>, n: nat, threshold: Ext)
    requires n <= |t| && forall j :: 0 <= j < n ==> Keep(t[j], threshold)
    ensures KeptCount(t, threshold) >= n
  {
    if n > 0 {
      KeptCountAtLeastPrefix(t[1..], n - 1, threshold);
    }
  }

  /** In the ordinary case at least mask_index + 1 pixels are kept: every value
      sorted at or before the threshold passes it. */
  lemma AtLeastMaskIndexPlusOneKept(itc: Ext, cam: seq<Ext>)
    requires !HasNonFinite(cam) && MaskIndex(MaskRatio(itc)) < |cam|
    ensures Threshold(itc, cam).Ok?
    ensures KeptCount(cam, Threshold(itc, cam).value) >= MaskIndex(MaskRatio(itc)) + 1
  {
    var t := SortDescending(cam);
    var mi := MaskIndex(MaskRatio(itc));
    ThresholdIsSortedElement(itc, cam);
    SameElements(cam, t);
    SortedPrefixKept(t, mi);
    KeptCountAtLeastPrefix(t, mi + 1, t[mi]);
    KeptCountSorted(cam, t[mi]);
  }

  /** In a sorted finite map every value up to position k passes the value at k. */
  lemma SortedPrefixKept(t: seq<Ext>, k: nat)
    requires Descending(t) && !HasNonFinite(t) && k < |t|
    ensures forall j :: 0 <= j <= k ==> Keep(t[j], t[k])
  {
    forall j | 0 <= j <= k ensures Keep(t[j], t[k]) {
      assert t[j].Num? && t[k].Num?;
      if j < k {
        assert SortLe(t[k], t[j]);
      }
    }
  }

  /** A higher ITC score gives a smaller mask_index, a threshold that is no lower,
      and so never keeps a pixel that a lower score would mask. */
  lemma HigherItcMasksMore(s: real, u: real, cam: seq<Ext>)
    requires s <= u && !HasNonFinite(cam)
    requires MaskIndex(MaskRatio(Num(s))) < |cam|
    ensures MaskIndex(MaskRatio(Num(u))) <= MaskIndex(MaskRatio(Num(s)))
    ensures Threshold(Num(s), cam).Ok? && Threshold(Num(u), cam).Ok?
    ensures forall i :: 0 <= i < |cam| && Keep(cam[i], Threshold(Num(u), cam).value) ==>
      Keep(cam[i], Threshold(Num(s), cam).value)
  {
    MaskRatioAntitone(s, u);
    MaskIndexMonotone(MaskRatio(Num(u)), MaskRatio(Num(s)));
    var t := SortDescending(cam);
    var ms, mu := MaskIndex(MaskRatio(Num(s))), MaskIndex(MaskRatio(Num(u)));
    ThresholdIsSortedElement(Num(s), cam);
    ThresholdIsSortedElement(Num(u), cam);
    SameElements(cam, t);
    LaterThresholdKeepsMore(t, ms, mu);
    forall i | 0 <= i < |cam| && Keep(cam[i], t[mu]) ensures Keep(cam[i], t[ms]) {
      assert cam[i].Num?;
    }
  }

  /** In a sorted finite map the value at a later position is no higher, so a
      finite value passing the earlier one passes the later one. */
  lemma LaterThresholdKeepsMore(t: seq<Ext>, ms: nat, mu: nat)
    requires Descending(t) && !HasNonFinite(t) && mu <= ms < |t|
    ensures t[ms].Num? && t[mu].Num? && t[ms].r <= t[mu].r
    ensures forall x: Ext :: x.Num? && Keep(x, t[mu]) ==> Keep(x, t[ms])
  {
    assert t[ms].Num? && t[mu].Num?;
    if mu < ms {
      assert SortLe(t[ms], t[mu]);
    }
  }
}
