/**
 * `radial_profile`: the mean and standard deviation of the pixel values in
 * rings of one sampling step around the image centre, optionally restricted
 * to an azimuth window and deprojected for inclination and position angle.
 */
module RadialProfile {
  import opened Results
  import opened Numerics
  import opened Grids
  import opened Binning
  import opened AxisUnits
  import opened CasaFitsImage

  /**
   * The azimuth window measured from north, turned to the angle convention of
   * `arctan2` by adding 90 degrees modulo 360; no window means `(0, 359)`.
   */
  function AzimuthWindow(azimuth: Option<(real, real)>): (w: (real, real))
    ensures 0.0 <= w.0 < 360.0 && 0.0 <= w.1 < 360.0
  {
    var given := if azimuth.None? then (0.0, 359.0) else azimuth.value;
    (FMod(given.0 + 90.0, 360.0), FMod(given.1 + 90.0, 360.0))
  }

  /** `is_in_azimuth_range`: an interval when the start is below the end, otherwise a range wrapping past 360. */
  predicate InAzimuthRange(angle: real, w: (real, real))
  {
    if w.0 < w.1 then w.0 <= angle <= w.1 else w.0 <= angle || angle <= w.1
  }

  /**
   * The default window becomes `(90, 89)`: it wraps, and of the angles in
   * `[0, 360)` it leaves out exactly those strictly between 89 and 90 degrees.
   */
  lemma DefaultWindow(angle: real)
    requires 0.0 <= angle < 360.0
    ensures AzimuthWindow(None) == (90.0, 89.0)
    ensures InAzimuthRange(angle, AzimuthWindow(None)) <==> !(89.0 < angle < 90.0)
  {
    FModShift(90.0, 360.0, 0);
    FModShift(449.0, 360.0, 1);
  }

  /** A window whose ends coincide after remapping accepts every angle. */
  lemma EqualEndsAcceptAll(w: (real, real), angle: real)
    requires w.0 == w.1
    ensures InAzimuthRange(angle, w)
  {
  }

  /** A window given in `[0, 270)` on both ends is shifted by exactly 90 degrees. */
  lemma WindowShift(a0: real, a1: real)
    requires 0.0 <= a0 < 270.0 && 0.0 <= a1 < 270.0
    ensures AzimuthWindow(Some((a0, a1))) == (a0 + 90.0, a1 + 90.0)
  {
    FModShift(a0 + 90.0, 360.0, 0);
    FModShift(a1 + 90.0, 360.0, 0);
  }

  /**
   * The ring width in pixels: the larger beam axis in pixels times the beam
   * factor, rounded up. A positive beam and factor give at least one pixel.
   */
  function SamplingSize(beam: Beam, incrX: real, incrY: real, beamFactor: real): (n: int)
    requires incrX != 0.0 && incrY != 0.0
    ensures beam.major > 0.0 && beam.minor > 0.0 && beamFactor > 0.0 ==> n >= 1
  {
    var size := Max(beam.major / Abs(incrX), beam.minor / Abs(incrY));
    assert beam.major > 0.0 && beamFactor > 0.0 ==> size * beamFactor > 0.0;
    Ceil(size * beamFactor)
  }

  /** The transcendental functions and the viewing geometry the pixel loop uses. */
  datatype Geometry = Geometry(ops: RealOps, cx: real, cy: real, inc: real, pa: real)
  {
    /** `cos(inc_rad)`, the divisor of the deprojection. */
    function CosInc(): real { ops.cos(Radians(inc)) }

    /**
     * Pixel `(i, j)` shifted to the centre, rotated by `-PA` and with `y`
     * deprojected; the centre itself lands on the origin.
     */
    function Deprojected(i: int, j: int): (d: (real, real))
      requires CosInc() != 0.0
      ensures i as real == cy && j as real == cx ==> d == (0.0, 0.0)
    {
      var dx := j as real - cx;
      var dy := i as real - cy;
      var xRot := dx * ops.cos(-Radians(pa)) - dy * ops.sin(-Radians(pa));
      var yRot := dx * ops.sin(-Radians(pa)) + dy * ops.cos(-Radians(pa));
      assert dx == 0.0 && dy == 0.0 ==> xRot == 0.0 && yRot == 0.0 && yRot / CosInc() == 0.0;
      (xRot, yRot / CosInc())
    }

    /** The deprojected radius of pixel `(i, j)`: never negative, and zero at the centre. */
    function Radius(i: int, j: int): (r: real)
      requires CosInc() != 0.0
      ensures ops.Valid() ==> 0.0 <= r
      ensures ops.Valid() && i as real == cy && j as real == cx ==> r == 0.0
    {
      var (x, y) := Deprojected(i, j);
      ops.sqrt(x * x + y * y)
    }

    /** The pixel's angle in degrees: `arctan2` taken modulo `2*pi`, so in `[0, 360)`. */
    function Angle(i: int, j: int): (a: real)
      requires CosInc() != 0.0
      ensures 0.0 <= a < 360.0
    {
      var (x, y) := Deprojected(i, j);
      var turn := FMod(ops.atan2(y, x), 2.0 * Pi);
      DegreesOfTurn(turn);
      Degrees(turn)
    }
  }

  /**
   * The ring pixel `(i, j)` is appended to: `int(r / step)` when the pixel is
   * in the window and that index is below the bin count, none otherwise.
   */
  function RadialBin(geo: Geometry, w: (real, real), step: int, count: nat, i: int, j: int): (b: Option<nat>)
    requires step >= 1
    ensures b.Some? ==> b.value < count
  {
    if geo.CosInc() == 0.0 then None
    else if !InAzimuthRange(geo.Angle(i, j), w) then None
    else
      var idx := Trunc(geo.Radius(i, j) / step as real);
      if idx < 0 || idx >= count then None else Some(idx)
  }

  /** `RadialBin` as the bin assignment of the shared pixel loop. */
  function Binner(geo: Geometry, w: (real, real), step: int, count: nat): (int, int) -> Option<nat>
    requires step >= 1
  {
    (i, j) => RadialBin(geo, w, step, count, i, j)
  }

  /**
   * A pixel lands in ring `k` exactly when it is in the azimuth window, `k` is
   * below the bin count and its radius lies in `[k*step, (k+1)*step)`; pixels
   * beyond the last ring are dropped.
   */
  lemma RadialBinMeaning(geo: Geometry, w: (real, real), step: int, count: nat, i: int, j: int, k: nat)
    requires geo.ops.Valid() && geo.CosInc() != 0.0
    requires step >= 1
    ensures RadialBin(geo, w, step, count, i, j) == Some(k) <==>
      && InAzimuthRange(geo.Angle(i, j), w)
      && k < count
      && k as real * step as real <= geo.Radius(i, j) < (k + 1) as real * step as real
  {
    var (x, y) := geo.Deprojected(i, j);
    assert x * x + y * y >= 0.0;
    TruncBucket(geo.Radius(i, j), step as real, k);
  }

  /** For `r >= 0`, `int(r / s)` is `k` exactly when `r` lies in `[k*s, (k+1)*s)`. */
  lemma TruncBucket(r: real, s: real, k: nat)
    requires r >= 0.0 && s > 0.0
    ensures Trunc(r / s) == k <==> k as real * s <= r < (k + 1) as real * s
  {
    var q := r / s;
    assert q * s == r;
    var lo, hi := k as real * s, (k + 1) as real * s;
    ScaleCompare(k as real, q, s, lo, r);
    ScaleCompare(q, (k + 1) as real, s, r, hi);
    ScaleCompare(0.0, q, s, 0.0, r);
    var idx := Trunc(q);
    assert idx as real <= q < idx as real + 1.0;
    assert idx == k <==> k as real <= q < (k + 1) as real;
  }

  /** `np.mean` of a ring, or 0 for an empty ring. */
  function BinMean(s: seq<real>): real
  {
    if s == [] then 0.0 else Mean(s)
  }

  /** `np.std` of a ring, or 0 for an empty ring. */
  function BinStd(ops: RealOps, s: seq<real>): real
  {
    if s == [] then 0.0 else Std(ops, s)
  }

  /**
   * An empty ring reports mean and deviation 0; a ring of one repeated value
   * reports that value and deviation 0; any other mean lies within the ring's
   * values.
   */
  lemma BinStatistics(ops: RealOps, s: seq<real>, lo: real, hi: real)
    requires ops.Valid()
    ensures s == [] ==> BinMean(s) == 0.0 && BinStd(ops, s) == 0.0
    ensures s != [] && (forall k :: 0 <= k < |s| ==> s[k] == s[0]) ==>
      BinMean(s) == s[0] && BinStd(ops, s) == 0.0
    ensures s != [] && (forall k :: 0 <= k < |s| ==> lo <= s[k] <= hi) ==> lo <= BinMean(s) <= hi
  {
    if s != [] {
      if forall k :: 0 <= k < |s| ==> s[k] == s[0] {
        ConstantStatistics(ops, s, s[0]);
      }
      if forall k :: 0 <= k < |s| ==> lo <= s[k] <= hi {
        MeanWithinBounds(s, lo, hi);
      }
    }
  }

  /** The loop over the rings that appends each ring's mean and deviation. */
  method ReduceRings(ops: RealOps, samples: seq<seq<real>>) returns (means: seq<real>, stds: seq<real>)
    ensures |means| == |samples| && |stds| == |samples|
    ensures forall k :: 0 <= k < |samples| ==> means[k] == BinMean(samples[k]) && stds[k] == BinStd(ops, samples[k])
  {
    means, stds := [], [];
    var k := 0;
    while k < |samples|
      invariant 0 <= k <= |samples|
      invariant |means| == k && |stds| == k
      invariant forall n :: 0 <= n < k ==> means[n] == BinMean(samples[n]) && stds[n] == BinStd(ops, samples[n])
    {
      if samples[k] == [] {
        means := means + [0.0];
        stds := stds + [0.0];
      } else {
        means := means + [Mean(samples[k])];
        stds := stds + [Std(ops, samples[k])];
      }
      k := k + 1;
    }
  }

  /** The three arrays `radial_profile` returns. */
  datatype Profile = Profile(radius: seq<real>, mean: seq<real>, std: seq<real>)

  /**
   * Ring `k` of `p` starts at `k * step * scale` and reports the statistics of
   * the pixels of `g` that `bin` sends to it, for each of the `count` rings.
   */
  ghost predicate ProfileOf(p: Profile, g: seq<seq<real>>, ops: RealOps, bin: (int, int) -> Option<nat>,
                            count: nat, step: int, scale: real)
    requires IsGrid(g, |g|, Cols(g))
  {
    && |p.radius| == count && |p.mean| == count && |p.std| == count
    && forall k :: 0 <= k < count ==>
         && p.radius[k] == k as real * step as real * scale
         && p.mean[k] == BinMean(GridSamples(g, Cols(g), bin, k, |g|))
         && p.std[k] == BinStd(ops, GridSamples(g, Cols(g), bin, k, |g|))
  }

  /**
   * What `radial_profile` returns for plane `g`: one ring per `arange` start
   * below `min(center_x, center_y)`, ring `k` starting at `k * step` pixels
   * (times `scale`, the pixel size) and reporting the statistics of the pixels
   * `RadialBin` sends to it.
   */
  ghost predicate RingsSpec(p: Profile, g: seq<seq<real>>, geo: Geometry, w: (real, real), step: int, scale: real)
    requires IsGrid(g, |g|, Cols(g)) && step >= 1
  {
    var count := |Arange(Min(geo.cx, geo.cy), step as real)|;
    ProfileOf(p, g, geo.ops, Binner(geo, w, step, count), count, step, scale)
  }

  /**
   * On a constant image every ring reports a standard deviation of 0, and a ring
   * that some pixel falls into reports the image's value as its mean; a ring no
   * pixel falls into reports 0.
   */
  lemma ConstantPlaneRings(p: Profile, g: seq<seq<real>>, geo: Geometry, w: (real, real), step: int, scale: real,
                           v: real, k: nat)
    requires IsGrid(g, |g|, Cols(g)) && step >= 1 && geo.ops.Valid()
    requires RingsSpec(p, g, geo, w, step, scale)
    requires forall i, j :: 0 <= i < |g| && 0 <= j < Cols(g) ==> g[i][j] == v
    requires k < |p.mean|
    ensures p.std[k] == 0.0
    ensures (exists i, j :: 0 <= i < |g| && 0 <= j < Cols(g) && RadialBin(geo, w, step, |p.mean|, i, j) == Some(k)) ==>
      p.mean[k] == v
    ensures (forall i, j :: 0 <= i < |g| && 0 <= j < Cols(g) ==> RadialBin(geo, w, step, |p.mean|, i, j) != Some(k)) ==>
      p.mean[k] == 0.0
  {
    var count := |p.mean|;
    var bin := Binner(geo, w, step, count);
    assert forall i, j :: bin(i, j) == RadialBin(geo, w, step, count, i, j);
    var s := GridSamples(g, Cols(g), bin, k, |g|);
    assert p.mean[k] == BinMean(s) && p.std[k] == BinStd(geo.ops, s);
    GridSamplesEmpty(g, Cols(g), bin, k);
    ConstantSamples(g, Cols(g), bin, k, v);
    BinStatistics(geo.ops, s, v, v);
  }

  /**
   * The part of `radial_profile` after the checks: allocate one ring per
   * `arange` start below `min(center_x, center_y)`, bin the pixels, reduce each
   * ring and scale the ring starts by `scale` (the pixel size).
   */
  method Rings(g: seq<seq<real>>, geo: Geometry, w: (real, real), step: int, scale: real) returns (p: Profile)
    requires IsGrid(g, |g|, Cols(g)) && step >= 1
    ensures RingsSpec(p, g, geo, w, step, scale)
  {
    var lineR := Arange(Min(geo.cx, geo.cy), step as real);
    var bin := Binner(geo, w, step, |lineR|);
    BinnerInRange(g, geo, w, step, |lineR|);
    p := ReduceBins(g, geo.ops, bin, lineR, step, scale);
  }

  /**
   * Bin the pixels of `g` by `bin` into one ring per start, reduce each ring to
   * its mean and deviation, and scale the starts by `scale`.
   */
  method ReduceBins(g: seq<seq<real>>, ops: RealOps, bin: (int, int) -> Option<nat>, starts: seq<real>,
                    step: int, scale: real)
    returns (p: Profile)
    requires IsGrid(g, |g|, Cols(g)) && BinsInRange(g, Cols(g), bin, |starts|)
    requires forall k :: 0 <= k < |starts| ==> starts[k] == k as real * step as real
    ensures ProfileOf(p, g, ops, bin, |starts|, step, scale)
  {
    var samples := Collect(g, Cols(g), bin, |starts|);
    var means, stds := ReduceRings(ops, samples);
    var radius := seq(|starts|, k requires 0 <= k < |starts| => starts[k] * scale);
    ScaledStarts(radius, starts, step, scale);
    p := Profile(radius, means, stds);
  }

  /**
   * Scaling the `arange` starts `k * step` by `scale` gives `k * step * scale`:
   * the radius column `ReduceBins` returns (`np.array(line_r) * abs(img.incr_x)`).
   * Kept apart so that its nonlinear step stays out of `ReduceBins`'s proof.
   */
  lemma ScaledStarts(radius: seq<real>, starts: seq<real>, step: int, scale: real)
    requires |radius| == |starts|
    requires forall k :: 0 <= k < |starts| ==> starts[k] == k as real * step as real
    requires forall k :: 0 <= k < |starts| ==> radius[k] == starts[k] * scale
    ensures forall k :: 0 <= k < |starts| ==> radius[k] == k as real * step as real * scale
  {
  }

  /**
   * Every pixel `Binner` assigns goes to one of the `count` rings: the
   * precondition `Rings` must meet to hand `Binner` to `ReduceBins`, as the
   * `idx >= len(line_r)` test keeps `sample[idx]` in range in the source.
   */
  lemma BinnerInRange(g: seq<seq<real>>, geo: Geometry, w: (real, real), step: int, count: nat)
    requires step >= 1
    ensures BinsInRange(g, Cols(g), Binner(geo, w, step, count), count)
  {
  }

  /**
   * `radial_profile`: a missing beam is a `ValueError` before anything changes;
   * otherwise the image's axes are converted to arcseconds in place, and ring
   * `k` holds the pixels `RadialBin` sends to it, its radius being
   * `k * step * |incr_x|`. A zero `cos(inc)` fails at the first pixel.
   */
  method RadialProfileOf(img: Image, ops: RealOps, azimuth: Option<(real, real)>, beamFactor: real,
                         inc: real, pa: real)
    returns (r: Result<Profile>)
    requires ops.Valid()
    requires img.data.Plane? && WellShaped(img.data)
    requires img.incrX != 0.0 && img.incrY != 0.0
    requires beamFactor > 0.0
    requires img.beam.Some? ==> img.beam.value.major > 0.0 && img.beam.value.minor > 0.0
    modifies img
    ensures img.data == old(img.data) && img.beam == old(img.beam) && img.centerPix == old(img.centerPix)
    ensures img.beam.None? ==> r == Err(ValueError(MissingBeam)) && img.AxesOf() == old(img.AxesOf())
    ensures img.beam.Some? ==> img.AxesOf() == Convert(old(img.AxesOf()), "arcsec").axes
    ensures img.beam.Some? && Convert(old(img.AxesOf()), "arcsec").missing.Some? ==>
      var missing := Convert(old(img.AxesOf()), "arcsec").missing.value;
      r == Err(ValueError(UnsupportedUnitConversion(missing.0, missing.1)))
    ensures r.Ok? ==>
      && img.incrX != 0.0 && img.incrY != 0.0
      && SamplingSize(img.beam.value, img.incrX, img.incrY, beamFactor) >= 1
      && RingsSpec(r.value, img.data.plane, Geometry(ops, img.centerPix.0, img.centerPix.1, inc, pa),
                   AzimuthWindow(azimuth), SamplingSize(img.beam.value, img.incrX, img.incrY, beamFactor),
                   Abs(img.incrX))
    ensures unchanged(img`imageName, img`width, img`height, img`nchan)
    ensures unchanged(img`centerRaDec, img`freq0, img`incrHz, img`unitData)
    ensures img.beam.Some? && Convert(old(img.AxesOf()), "arcsec").missing.None? ==>
      (r.Ok? <==> !(ops.cos(Radians(inc)) == 0.0 && |img.data.plane| > 0 && Cols(img.data.plane) > 0))
    ensures img.beam.Some? && Convert(old(img.AxesOf()), "arcsec").missing.None?
            && ops.cos(Radians(inc)) == 0.0 && |img.data.plane| > 0 && Cols(img.data.plane) > 0 ==>
      r == Err(ZeroDivisionError)
  {
    var cx, cy := img.centerPix.0, img.centerPix.1;
    if img.beam.None? {
      return Err(ValueError(MissingBeam));
    }
    var err := img.ConvertAxesUnit("arcsec");
    if err.Some? {
      return Err(err.value);
    }
    ConvertKeepsSigns(old(img.AxesOf()), "arcsec");
    var step := SamplingSize(img.beam.value, img.incrX, img.incrY, beamFactor);
    var w := AzimuthWindow(azimuth);
    var geo := Geometry(ops, cx, cy, inc, pa);
    var g := img.data.plane;
    if geo.CosInc() == 0.0 && |g| > 0 && Cols(g) > 0 {
      return Err(ZeroDivisionError);
    }
    var p := Rings(g, geo, w, step, Abs(img.incrX));
    return Ok(p);
  }
}
