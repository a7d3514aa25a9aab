/**
 * The transfer from a density sub-array to displayed values: the Miller
 * mask applied with `np.where`, the min/max normalisation followed by the
 * gamma curve, and the lower/upper density-slider threshold.
 */
module Transfer {
  import opened Wrappers
  import opened Vec
  import opened Field

  // ---------------------------------------------------------------------
  // np.where(miller_mask, sub_data, 0)
  // ---------------------------------------------------------------------

  function ApplyMask(sub: Field3<real>, mask: Option<Field3<bool>>, dx: nat, dy: nat, dz: nat): (r: Field3<real>)
    requires Shaped(sub, dx, dy, dz)
    requires mask.Some? ==> Shaped(mask.value, dx, dy, dz)
    ensures Shaped(r, dx, dy, dz)
    ensures mask.None? ==> r == sub
    ensures mask.Some? ==> forall i, j, k :: 0 <= i < dx && 0 <= j < dy && 0 <= k < dz ==>
      r[i][j][k] == (if mask.value[i][j][k] then sub[i][j][k] else 0.0)
  {
    match mask
    case None => sub
    case Some(m) =>
      seq(dx, i requires 0 <= i < dx =>
        seq(dy, j requires 0 <= j < dy =>
          seq(dz, k requires 0 <= k < dz => if m[i][j][k] then sub[i][j][k] else 0.0)))
  }

  // ---------------------------------------------------------------------
  // _histogram_normalise_gamma
  // ---------------------------------------------------------------------

  /** `np.isclose(a, b)` with its default tolerances `atol = 1e-8`, `rtol = 1e-5`. */
  predicate IsClose(a: real, b: real)
  {
    Abs(a - b) <= 0.00000001 + 0.00001 * Abs(b)
  }

  /** Every entry of a d-shaped array is an element of its ravel. */
  lemma EntryInFlatten(f: Field3<real>, dx: nat, dy: nat, dz: nat, i: nat, j: nat, k: nat)
    requires Shaped(f, dx, dy, dz) && i < dx && j < dy && k < dz
    ensures f[i][j][k] in Flatten(f)
  {
    FlattenContains(f, f[i][j][k]);
  }

  /** `image.min()` and `image.max()` of a non-empty array. */
  function FieldMin(f: Field3<real>, dx: nat, dy: nat, dz: nat): (m: real)
    requires Shaped(f, dx, dy, dz) && dx >= 1 && dy >= 1 && dz >= 1
    ensures forall i, j, k :: 0 <= i < dx && 0 <= j < dy && 0 <= k < dz ==> m <= f[i][j][k]
    ensures exists i, j, k :: 0 <= i < dx && 0 <= j < dy && 0 <= k < dz && m == f[i][j][k]
  {
    EntryInFlatten(f, dx, dy, dz, 0, 0, 0);
    var m := SeqMin(Flatten(f));
    forall i, j, k | 0 <= i < dx && 0 <= j < dy && 0 <= k < dz ensures m <= f[i][j][k] {
      EntryInFlatten(f, dx, dy, dz, i, j, k);
    }
    FlattenContains(f, m);
    m
  }

  function FieldMax(f: Field3<real>, dx: nat, dy: nat, dz: nat): (m: real)
    requires Shaped(f, dx, dy, dz) && dx >= 1 && dy >= 1 && dz >= 1
    ensures forall i, j, k :: 0 <= i < dx && 0 <= j < dy && 0 <= k < dz ==> f[i][j][k] <= m
    ensures exists i, j, k :: 0 <= i < dx && 0 <= j < dy && 0 <= k < dz && m == f[i][j][k]
  {
    EntryInFlatten(f, dx, dy, dz, 0, 0, 0);
    var m := SeqMax(Flatten(f));
    forall i, j, k | 0 <= i < dx && 0 <= j < dy && 0 <= k < dz ensures f[i][j][k] <= m {
      EntryInFlatten(f, dx, dy, dz, i, j, k);
    }
    FlattenContains(f, m);
    m
  }

  /** `(v - lo) / (hi - lo)`. */
  function Rescale(v: real, lo: real, hi: real): real
    requires lo < hi
  {
    (v - lo) / (hi - lo)
  }

  lemma DivideMonotone(a: real, b: real, w: real)
    requires a <= b && w > 0.0
    ensures a / w <= b / w
  {
    var q := 1.0 / w;
    assert a / w == a * q && b / w == b * q;
    MulMonotone(a, b, q);
  }

  lemma RescaleInUnit(v: real, lo: real, hi: real)
    requires lo <= v <= hi && lo < hi
    ensures 0.0 <= Rescale(v, lo, hi) <= 1.0
  {
    var w := hi - lo;
    DivideMonotone(0.0, v - lo, w);
    DivideMonotone(v - lo, w, w);
  }

  lemma SelfQuotient(w: real)
    requires w != 0.0
    ensures w / w == 1.0
  {
  }

  /** A maximum not close to the minimum lies strictly above it. */
  lemma NotCloseApart(lo: real, hi: real)
    requires lo <= hi && !IsClose(hi, lo)
    ensures lo < hi
  {
  }

  /** The gamma curve maps the unit interval into itself. */
  ghost predicate UnitCurve(gamma: real -> real)
  {
    forall x :: 0.0 <= x <= 1.0 ==> 0.0 <= gamma(x) <= 1.0
  }

  /**
   * Zeros when the maximum is close to the minimum, else `gamma` applied to
   * each value rescaled so that the minimum goes to 0 and the maximum to 1;
   * `gamma` stands for `x ** 0.5`.
   */
  function NormaliseGamma(image: Field3<real>, dx: nat, dy: nat, dz: nat, gamma: real -> real): (r: Field3<real>)
    requires Shaped(image, dx, dy, dz) && dx >= 1 && dy >= 1 && dz >= 1
    ensures Shaped(r, dx, dy, dz)
    ensures var lo, hi := FieldMin(image, dx, dy, dz), FieldMax(image, dx, dy, dz);
      IsClose(hi, lo) ==> forall i, j, k :: 0 <= i < dx && 0 <= j < dy && 0 <= k < dz ==> r[i][j][k] == 0.0
    ensures var lo, hi := FieldMin(image, dx, dy, dz), FieldMax(image, dx, dy, dz);
      !IsClose(hi, lo) ==> lo < hi && forall i, j, k :: 0 <= i < dx && 0 <= j < dy && 0 <= k < dz ==>
        r[i][j][k] == gamma(Rescale(image[i][j][k], lo, hi))
  {
    var lo, hi := FieldMin(image, dx, dy, dz), FieldMax(image, dx, dy, dz);
    if IsClose(hi, lo) then Fill(dx, dy, dz, 0.0)
    else
      assert lo <= image[0][0][0] <= hi;
      NotCloseApart(lo, hi);
      seq(dx, i requires 0 <= i < dx =>
        seq(dy, j requires 0 <= j < dy =>
          seq(dz, k requires 0 <= k < dz => gamma(Rescale(image[i][j][k], lo, hi)))))
  }

  /** Normalised values lie in [0, 1]. */
  lemma NormalisedInUnit(image: Field3<real>, dx: nat, dy: nat, dz: nat, gamma: real -> real, i: nat, j: nat, k: nat)
    requires Shaped(image, dx, dy, dz) && dx >= 1 && dy >= 1 && dz >= 1
    requires UnitCurve(gamma) && i < dx && j < dy && k < dz
    ensures 0.0 <= NormaliseGamma(image, dx, dy, dz, gamma)[i][j][k] <= 1.0
  {
    var lo, hi := FieldMin(image, dx, dy, dz), FieldMax(image, dx, dy, dz);
    if !IsClose(hi, lo) {
      RescaleInUnit(image[i][j][k], lo, hi);
    }
  }

  /** Unless the field is flat, a smallest voxel goes to `gamma(0)` and a largest to `gamma(1)`. */
  lemma NormalisedExtremes(image: Field3<real>, dx: nat, dy: nat, dz: nat, gamma: real -> real, i: nat, j: nat, k: nat)
    requires Shaped(image, dx, dy, dz) && dx >= 1 && dy >= 1 && dz >= 1 && i < dx && j < dy && k < dz
    requires !IsClose(FieldMax(image, dx, dy, dz), FieldMin(image, dx, dy, dz))
    ensures image[i][j][k] == FieldMin(image, dx, dy, dz) ==>
      NormaliseGamma(image, dx, dy, dz, gamma)[i][j][k] == gamma(0.0)
    ensures image[i][j][k] == FieldMax(image, dx, dy, dz) ==>
      NormaliseGamma(image, dx, dy, dz, gamma)[i][j][k] == gamma(1.0)
  {
    var lo, hi := FieldMin(image, dx, dy, dz), FieldMax(image, dx, dy, dz);
    var v := image[i][j][k];
    assert lo < hi && NormaliseGamma(image, dx, dy, dz, gamma)[i][j][k] == gamma(Rescale(v, lo, hi));
    if v == lo {
      assert Rescale(v, lo, hi) == 0.0;
    }
    if v == hi {
      assert Rescale(v, lo, hi) == 1.0 by {
        SelfQuotient(hi - lo);
      }
    }
  }

  /**
   * On a non-negative field a voxel the mask removes becomes the darkest
   * value: 0 when the field is flat, else `gamma(0)`.
   */
  lemma MaskedVoxelIsDarkest(sub: Field3<real>, mask: Field3<bool>, dx: nat, dy: nat, dz: nat,
                             gamma: real -> real, i: nat, j: nat, k: nat)
    requires Shaped(sub, dx, dy, dz) && Shaped(mask, dx, dy, dz) && dx >= 1 && dy >= 1 && dz >= 1
    requires NonNegative(sub, dx, dy, dz)
    requires i < dx && j < dy && k < dz && !mask[i][j][k]
    ensures var f := ApplyMask(sub, Some(mask), dx, dy, dz);
      var r := NormaliseGamma(f, dx, dy, dz, gamma);
      r[i][j][k] == (if IsClose(FieldMax(f, dx, dy, dz), FieldMin(f, dx, dy, dz)) then 0.0 else gamma(0.0))
  {
    var f := ApplyMask(sub, Some(mask), dx, dy, dz);
    var lo, hi := FieldMin(f, dx, dy, dz), FieldMax(f, dx, dy, dz);
    assert f[i][j][k] == 0.0;
    var a, b, c :| 0 <= a < dx && 0 <= b < dy && 0 <= c < dz && lo == f[a][b][c];
    assert f[a][b][c] >= 0.0;
    assert lo == 0.0;
    if !IsClose(hi, lo) {
      assert Rescale(f[i][j][k], lo, hi) == 0.0;
    }
  }

  // ---------------------------------------------------------------------
  // The density-slider threshold
  // ---------------------------------------------------------------------

  /** `np.clip(x, 0, 1)`. */
  function Clip(x: real): (r: real)
    ensures 0.0 <= r <= 1.0
    ensures 0.0 <= x <= 1.0 ==> r == x
  {
    MinR(MaxR(x, 0.0), 1.0)
  }

  /** A density slider's position in [0, 255] as a fraction. */
  function SliderFraction(s: int): real { s as real / 255.0 }

  /**
   * `np.where(lower <= upper, np.clip((v - lower) / (upper - lower), 0, 1), 0)`
   * on one normalised value. With equal sliders the division is by zero:
   * above the slider it gives 1, below it 0 and at it NaN, written `None`.
   */
  function Threshold(v: real, lowerSlider: int, upperSlider: int): (r: Option<real>)
    ensures r.None? <==> lowerSlider == upperSlider && v == SliderFraction(lowerSlider)
    ensures lowerSlider > upperSlider ==> r == Some(0.0)
    ensures r.Some? ==> 0.0 <= r.value <= 1.0
  {
    var lo, hi := SliderFraction(lowerSlider), SliderFraction(upperSlider);
    if lo > hi then Some(0.0)
    else if lo < hi then Some(Clip((v - lo) / (hi - lo)))
    else if v > lo then Some(1.0)
    else if v < lo then Some(0.0)
    else None
  }

  /** With the lower slider below the upper one the threshold is a non-decreasing ramp. */
  lemma ThresholdMonotone(v1: real, v2: real, lowerSlider: int, upperSlider: int)
    requires lowerSlider < upperSlider && v1 <= v2
    ensures Threshold(v1, lowerSlider, upperSlider).Some? && Threshold(v2, lowerSlider, upperSlider).Some?
    ensures Threshold(v1, lowerSlider, upperSlider).value <= Threshold(v2, lowerSlider, upperSlider).value
  {
    var lo, hi := SliderFraction(lowerSlider), SliderFraction(upperSlider);
    DivideMonotone(v1 - lo, v2 - lo, hi - lo);
  }

  /** Values at or below the lower slider vanish; values at or above the upper one are fully shown. */
  lemma ThresholdEnds(v: real, lowerSlider: int, upperSlider: int)
    requires lowerSlider < upperSlider
    ensures v <= SliderFraction(lowerSlider) ==> Threshold(v, lowerSlider, upperSlider) == Some(0.0)
    ensures v >= SliderFraction(upperSlider) ==> Threshold(v, lowerSlider, upperSlider) == Some(1.0)
  {
    var lo, hi := SliderFraction(lowerSlider), SliderFraction(upperSlider);
    if v <= lo {
      DivideMonotone(v - lo, 0.0, hi - lo);
    }
    if v >= hi {
      DivideMonotone(hi - lo, v - lo, hi - lo);
    }
  }

  /** With equal sliders the threshold is a step: 0 below, 1 above. */
  lemma ThresholdStep(v: real, slider: int)
    ensures v < SliderFraction(slider) ==> Threshold(v, slider, slider) == Some(0.0)
    ensures v > SliderFraction(slider) ==> Threshold(v, slider, slider) == Some(1.0)
  {
  }

  /** The threshold applied to every voxel. */
  function ThresholdField(f: Field3<real>, lowerSlider: int, upperSlider: int): (r: Field3<Option<real>>)
    ensures |r| == |f|
    ensures forall i :: 0 <= i < |f| ==> |r[i]| == |f[i]| && forall j :: 0 <= j < |f[i]| ==>
      |r[i][j]| == |f[i][j]| && forall k :: 0 <= k < |f[i][j]| ==>
        r[i][j][k] == Threshold(f[i][j][k], lowerSlider, upperSlider)
  {
    Map3(f, v => Threshold(v, lowerSlider, upperSlider))
  }

  // ---------------------------------------------------------------------
  // The displayed density volume
  // ---------------------------------------------------------------------

  /**
   * `_visualise_histogram`'s density volume for a region sub-array: zeroed
   * outside the slab, normalised with the gamma curve and passed through
   * the density-slider threshold.
   */
  function DensityVolume(sub: Field3<real>, mask: Option<Field3<bool>>, dx: nat, dy: nat, dz: nat,
                         lowerSlider: int, upperSlider: int, gamma: real -> real): (v: Field3<Option<real>>)
    requires Shaped(sub, dx, dy, dz) && dx >= 1 && dy >= 1 && dz >= 1
    requires mask.Some? ==> Shaped(mask.value, dx, dy, dz)
    ensures Shaped(v, dx, dy, dz)
  {
    ThresholdField(NormaliseGamma(ApplyMask(sub, mask, dx, dy, dz), dx, dy, dz, gamma), lowerSlider, upperSlider)
  }

  /** One voxel of the volume is the threshold of that voxel of the normalised sub-array. */
  lemma VolumeVoxel(sub: Field3<real>, mask: Option<Field3<bool>>, dx: nat, dy: nat, dz: nat,
                    lowerSlider: int, upperSlider: int, gamma: real -> real, i: nat, j: nat, k: nat)
    requires Shaped(sub, dx, dy, dz) && dx >= 1 && dy >= 1 && dz >= 1
    requires mask.Some? ==> Shaped(mask.value, dx, dy, dz)
    requires i < dx && j < dy && k < dz
    ensures DensityVolume(sub, mask, dx, dy, dz, lowerSlider, upperSlider, gamma)[i][j][k]
      == Threshold(NormaliseGamma(ApplyMask(sub, mask, dx, dy, dz), dx, dy, dz, gamma)[i][j][k], lowerSlider, upperSlider)
  {
    var f := NormaliseGamma(ApplyMask(sub, mask, dx, dy, dz), dx, dy, dz, gamma);
    assert |f| == dx && |f[i]| == dy && |f[i][j]| == dz;
  }

  /**
   * Each shown value lies in [0, 1]; inverted density sliders hide the whole
   * volume; a value that is not a number appears only when the two sliders
   * agree.
   */
  lemma DensityVolumeAt(sub: Field3<real>, mask: Option<Field3<bool>>, dx: nat, dy: nat, dz: nat,
                        lowerSlider: int, upperSlider: int, gamma: real -> real, i: nat, j: nat, k: nat)
    requires Shaped(sub, dx, dy, dz) && dx >= 1 && dy >= 1 && dz >= 1
    requires mask.Some? ==> Shaped(mask.value, dx, dy, dz)
    requires i < dx && j < dy && k < dz
    ensures var v := DensityVolume(sub, mask, dx, dy, dz, lowerSlider, upperSlider, gamma)[i][j][k];
      && (v.Some? ==> 0.0 <= v.value <= 1.0)
      && (lowerSlider > upperSlider ==> v == Some(0.0))
      && (v.None? ==> lowerSlider == upperSlider)
  {
    VolumeVoxel(sub, mask, dx, dy, dz, lowerSlider, upperSlider, gamma, i, j, k);
  }

  /**
   * A voxel outside the slab is fully transparent: on a non-negative
   * sub-array, with increasing density sliders and a curve with
   * `gamma(0) == 0`, its thresholded value is 0.
   */
  lemma MaskedVoxelTransparent(sub: Field3<real>, mask: Field3<bool>, dx: nat, dy: nat, dz: nat,
                               lowerSlider: int, upperSlider: int, gamma: real -> real, i: nat, j: nat, k: nat)
    requires Shaped(sub, dx, dy, dz) && Shaped(mask, dx, dy, dz) && dx >= 1 && dy >= 1 && dz >= 1
    requires NonNegative(sub, dx, dy, dz)
    requires i < dx && j < dy && k < dz && !mask[i][j][k]
    requires 0 <= lowerSlider < upperSlider && gamma(0.0) == 0.0
    ensures DensityVolume(sub, Some(mask), dx, dy, dz, lowerSlider, upperSlider, gamma)[i][j][k] == Some(0.0)
  {
    MaskedVoxelIsDarkest(sub, mask, dx, dy, dz, gamma, i, j, k);
    VolumeVoxel(sub, Some(mask), dx, dy, dz, lowerSlider, upperSlider, gamma, i, j, k);
    ThresholdEnds(0.0, lowerSlider, upperSlider);
  }

  /**
   * Without slicing, a largest voxel of a sub-array that is not flat is
   * fully dense: with `gamma(1) == 1` and the upper slider at most 255 it
   * thresholds to 1.
   */
  lemma PeakVoxelOpaque(sub: Field3<real>, dx: nat, dy: nat, dz: nat,
                        lowerSlider: int, upperSlider: int, gamma: real -> real, i: nat, j: nat, k: nat)
    requires Shaped(sub, dx, dy, dz) && dx >= 1 && dy >= 1 && dz >= 1
    requires i < dx && j < dy && k < dz
    requires !IsClose(FieldMax(sub, dx, dy, dz), FieldMin(sub, dx, dy, dz)) && sub[i][j][k] == FieldMax(sub, dx, dy, dz)
    requires lowerSlider < upperSlider <= 255 && gamma(1.0) == 1.0
    ensures DensityVolume(sub, None, dx, dy, dz, lowerSlider, upperSlider, gamma)[i][j][k] == Some(1.0)
  {
    NormalisedExtremes(sub, dx, dy, dz, gamma, i, j, k);
    VolumeVoxel(sub, None, dx, dy, dz, lowerSlider, upperSlider, gamma, i, j, k);
    assert SliderFraction(upperSlider) <= 1.0;
    ThresholdEnds(1.0, lowerSlider, upperSlider);
  }
}
