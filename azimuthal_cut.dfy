/**
 * `azimuthal_cut`: the mean and standard deviation of the pixel values in a
 * ring of one beam width around a given radius, binned by position angle
 * (measured from north) into bins of one sampling step.
 */
module AzimuthalCut {
  import opened Results
  import opened Numerics
  import opened Grids
  import opened Binning
  import opened AxisUnits
  import ScriptsImage

  /** A float result that may be NaN, as `np.mean` and `np.std` of an empty list are. */
  datatype Value = Num(v: real) | NaN

  /** The centre pixel and the transcendental functions the pixel loop uses. */
  datatype Geometry = Geometry(ops: RealOps, cx: int, cy: int)
  {
    /** The distance of pixel `(i, j)` from the centre: never negative, and zero at the centre. */
    function Dist(i: int, j: int): (d: real)
      ensures ops.Valid() ==> 0.0 <= d
      ensures ops.Valid() && i == cy && j == cx ==> d == 0.0
    {
      ops.sqrt(((j - cx) * (j - cx) + (i - cy) * (i - cy)) as real)
    }

    /** The position angle in degrees, north up: `(degrees(arctan2(dy, dx)) - 90) % 360`. */
    function Angle(i: int, j: int): (a: real)
      ensures 0.0 <= a < 360.0
    {
      FMod(Degrees(ops.atan2((i - cy) as real, (j - cx) as real)) - 90.0, 360.0)
    }
  }

  /**
   * The pixel is inside the closed annulus `r_min <= dist <= r_max`: an empty
   * annulus holds nothing, and one reaching down to 0 holds the centre.
   */
  predicate InAnnulus(geo: Geometry, rMin: real, rMax: real, i: int, j: int): (b: bool)
    ensures rMax < rMin ==> !b
    ensures geo.ops.Valid() && rMin <= 0.0 <= rMax && i == geo.cy && j == geo.cx ==> b
  {
    !(geo.Dist(i, j) < rMin || geo.Dist(i, j) > rMax)
  }

  /**
   * The bin a pixel joins (`np.argmin` of the distances to the bin angles):
   * one exactly when the pixel lies in the annulus, and then a bin whose angle
   * is at least as near to the pixel's angle as any other and strictly nearer
   * than every earlier one.
   */
  function AngleBin(geo: Geometry, bins: seq<real>, rMin: real, rMax: real, i: int, j: int): (b: Option<nat>)
    requires |bins| > 0
    ensures b.Some? <==> rMin <= geo.Dist(i, j) <= rMax
    ensures b.Some? ==> b.value < |bins|
    ensures b.Some? ==> forall n :: 0 <= n < |bins| ==> Abs(bins[b.value] - geo.Angle(i, j)) <= Abs(bins[n] - geo.Angle(i, j))
    ensures b.Some? ==> forall n :: 0 <= n < b.value ==> Abs(bins[b.value] - geo.Angle(i, j)) < Abs(bins[n] - geo.Angle(i, j))
  {
    if !InAnnulus(geo, rMin, rMax, i, j) then None
    else Some(ArgMin(bins, geo.Angle(i, j)))
  }

  /** `AngleBin` as the bin assignment of the shared pixel loop. */
  function Binner(geo: Geometry, bins: seq<real>, rMin: real, rMax: real): (int, int) -> Option<nat>
  {
    (i, j) => if |bins| > 0 then AngleBin(geo, bins, rMin, rMax, i, j) else None
  }

  /**
   * There is no wrap-around at 360: with the `arange` bins, an angle at or
   * beyond the last bin angle joins the last bin, never bin 0, however close
   * it is to 360.
   */
  lemma {:induction false} NoWrapAround(step: real, a: real)
    requires step > 0.0
    requires Arange(360.0, step)[|Arange(360.0, step)| - 1] <= a
    ensures ArgMin(Arange(360.0, step), a) == |Arange(360.0, step)| - 1
  {
    var bins := Arange(360.0, step);
    var last := |bins| - 1;
    var idx := ArgMin(bins, a);
    assert idx == last by {
      if idx < last {
        ScaleCompare(idx as real, last as real, step, bins[idx], bins[last]);
      }
    }
  }

  /** A bin's statistics: NaN for an empty bin. */
  function NanMean(s: seq<real>): Value
  {
    if s == [] then NaN else Num(Mean(s))
  }

  function NanStd(ops: RealOps, s: seq<real>): Value
  {
    if s == [] then NaN else Num(Std(ops, s))
  }

  /**
   * An empty bin reports NaN for both statistics, never 0; a bin of one
   * repeated value reports that value and deviation 0.
   */
  lemma BinValues(ops: RealOps, s: seq<real>)
    requires ops.Valid()
    ensures s == [] <==> NanMean(s) == NaN
    ensures s == [] <==> NanStd(ops, s) == NaN
    ensures s != [] && (forall k :: 0 <= k < |s| ==> s[k] == s[0]) ==>
      NanMean(s) == Num(s[0]) && NanStd(ops, s) == Num(0.0)
  {
    if s != [] && forall k :: 0 <= k < |s| ==> s[k] == s[0] {
      ConstantStatistics(ops, s, s[0]);
    }
  }

  /** The three arrays `azimuthal_cut` returns. */
  datatype Cut = Cut(angle: seq<real>, mean: seq<Value>, std: seq<Value>)

  /**
   * What `azimuthal_cut` returns for plane `g`: the bin angles, and for bin `k`
   * the statistics of the annulus pixels whose nearest bin angle is bin `k`.
   */
  ghost predicate CutSpec(c: Cut, g: seq<seq<real>>, geo: Geometry, step: real, rMin: real, rMax: real)
    requires IsGrid(g, |g|, Cols(g)) && step > 0.0
  {
    var bins := Arange(360.0, step);
    var bin := Binner(geo, bins, rMin, rMax);
    && c.angle == bins
    && |c.mean| == |bins| && |c.std| == |bins|
    && forall k :: 0 <= k < |bins| ==>
         && c.mean[k] == NanMean(GridSamples(g, Cols(g), bin, k, |g|))
         && c.std[k] == NanStd(geo.ops, GridSamples(g, Cols(g), bin, k, |g|))
  }

  /**
   * On a constant image every bin that some annulus pixel falls into reports
   * the image's value as its mean and 0 as its standard deviation; every other
   * bin reports NaN for both.
   */
  lemma ConstantPlaneCut(c: Cut, g: seq<seq<real>>, geo: Geometry, step: real, rMin: real, rMax: real, v: real, k: nat)
    requires IsGrid(g, |g|, Cols(g)) && step > 0.0 && geo.ops.Valid()
    requires CutSpec(c, g, geo, step, rMin, rMax)
    requires forall i, j :: 0 <= i < |g| && 0 <= j < Cols(g) ==> g[i][j] == v
    requires k < |c.angle|
    ensures (exists i, j :: 0 <= i < |g| && 0 <= j < Cols(g) && AngleBin(geo, c.angle, rMin, rMax, i, j) == Some(k)) ==>
      c.mean[k] == Num(v) && c.std[k] == Num(0.0)
    ensures (forall i, j :: 0 <= i < |g| && 0 <= j < Cols(g) ==> AngleBin(geo, c.angle, rMin, rMax, i, j) != Some(k)) ==>
      c.mean[k] == NaN && c.std[k] == NaN
  {
    var bin := Binner(geo, c.angle, rMin, rMax);
    assert forall i, j :: bin(i, j) == AngleBin(geo, c.angle, rMin, rMax, i, j);
    var s := GridSamples(g, Cols(g), bin, k, |g|);
    assert c.mean[k] == NanMean(s) && c.std[k] == NanStd(geo.ops, s);
    GridSamplesEmpty(g, Cols(g), bin, k);
    ConstantSamples(g, Cols(g), bin, k, v);
    BinValues(geo.ops, s);
  }

  /** The part of `azimuthal_cut` after the checks: allocate the bins, bin the annulus pixels and reduce. */
  method Bins(g: seq<seq<real>>, geo: Geometry, step: real, rMin: real, rMax: real) returns (c: Cut)
    requires IsGrid(g, |g|, Cols(g)) && step > 0.0
    ensures CutSpec(c, g, geo, step, rMin, rMax)
  {
    var lineAzm := Arange(360.0, step);
    var samples := Collect(g, Cols(g), Binner(geo, lineAzm, rMin, rMax), |lineAzm|);
    var means := seq(|samples|, k requires 0 <= k < |samples| => NanMean(samples[k]));
    var stds := seq(|samples|, k requires 0 <= k < |samples| => NanStd(geo.ops, samples[k]));
    return Cut(lineAzm, means, stds);
  }

  /** The sampling step in degrees and the closed radial bounds of the annulus, in pixels. */
  datatype Sampling = Sampling(step: real, rMin: real, rMax: real)

  /**
   * The beam size in pixels is the larger of the two beam axes over their
   * pixel sizes; the annulus is one beam size wide and centred on the cut's
   * radius in pixels; the step is the beam size times the factor, as an angle
   * in degrees at that radius, and is positive for positive inputs.
   */
  function SamplingOf(major: real, minor: real, incrX: real, incrY: real, radius: real, beamFactor: real): (s: Sampling)
    requires incrX != 0.0 && incrY != 0.0 && radius > 0.0
    ensures s.rMax - s.rMin == Max(major / Abs(incrX), minor / Abs(incrY))
    ensures (s.rMin + s.rMax) / 2.0 == radius / Abs(incrX)
    ensures major > 0.0 && minor > 0.0 && beamFactor > 0.0 ==> s.step > 0.0
  {
    var beamSize := Max(major / Abs(incrX), minor / Abs(incrY));
    var radiusPx := radius / Abs(incrX);
    var turn := beamSize * beamFactor / radiusPx;
    assert major > 0.0 && minor > 0.0 && beamFactor > 0.0 ==> beamSize * beamFactor > 0.0;
    Sampling(Degrees(turn), radiusPx - beamSize / 2.0, radiusPx + beamSize / 2.0)
  }

  /**
   * `azimuthal_cut`: a missing beam is a `ValueError`; otherwise the image's
   * axes are converted to arcseconds in place (a missing pair is a `KeyError`),
   * the centre is `(width // 2, height // 2)` of the full image, and bin `k`
   * holds the annulus pixels `AngleBin` sends to it.
   */
  method AzimuthalCutOf(img: ScriptsImage.Image, ops: RealOps, radius: real, beamFactor: real)
    returns (r: Result<Cut>)
    requires img.Valid()
    requires img.img.Plane? && WellShaped(img.img)
    requires img.incrX != 0.0 && img.incrY != 0.0
    requires radius > 0.0 && beamFactor > 0.0
    requires img.beam ==> img.beamX.value > 0.0 && img.beamY.value > 0.0
    modifies img
    ensures img.Valid() && img.img == old(img.img) && img.beam == old(img.beam)
    ensures unchanged(img`imageName, img`width, img`height, img`figWidth, img`figHeight)
    ensures unchanged(img`nhz, img`isCube, img`incrHz, img`beam, img`beamX, img`beamY, img`beamAng)
    ensures unchanged(img`axisNameX, img`axisNameY, img`imType, img`imUnit)
    ensures img.beam && Convert(old(img.AxesOf()), "arcsec").missing.None? ==> r.Ok?
    ensures !img.beam ==> r == Err(ValueError(MissingBeam)) && img.AxesOf() == old(img.AxesOf())
    ensures img.beam ==> img.AxesOf() == Convert(old(img.AxesOf()), "arcsec").axes
    ensures img.beam && Convert(old(img.AxesOf()), "arcsec").missing.Some? ==>
      var missing := Convert(old(img.AxesOf()), "arcsec").missing.value;
      r == Err(KeyError(missing.0, missing.1))
    ensures r.Ok? ==>
      && img.incrX != 0.0 && img.incrY != 0.0
      && var s := SamplingOf(img.beamX.value, img.beamY.value, img.incrX, img.incrY, radius, beamFactor);
         && s.step > 0.0
         && CutSpec(r.value, img.img.plane, Geometry(ops, img.width / 2, img.height / 2), s.step, s.rMin, s.rMax)
  {
    var cx := img.width / 2;
    var cy := img.height / 2;
    if !img.beam {
      return Err(ValueError(MissingBeam));
    }
    var err := img.ConvertAxesUnit("arcsec");
    if err.Some? {
      return Err(err.value);
    }
    ConvertKeepsSigns(old(img.AxesOf()), "arcsec");
    var s := SamplingOf(img.beamX.value, img.beamY.value, img.incrX, img.incrY, radius, beamFactor);
    var c := Bins(img.img.plane, Geometry(ops, cx, cy), s.step, s.rMin, s.rMax);
    return Ok(c);
  }
}
