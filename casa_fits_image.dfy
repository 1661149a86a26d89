/**
 * The image record of the `casa_fits` package: header values and pixel data of
 * one image, with in-place unit conversion, tick generation and Stokes/channel
 * selection. The FITS reader that fills the fields is not part of this model;
 * the constructor takes their values.
 */
module CasaFitsImage {
  import opened Results
  import opened Grids
  import opened Utilities
  import opened AxisUnits
  import opened Ticks

  /** The restoring beam: major and minor axis and position angle. */
  datatype Beam = Beam(major: real, minor: real, angle: real)

  class Image {
    var imageName: string
    var data: Pixels
    var width: int
    var height: int
    var nchan: int
    var centerRaDec: (real, real)
    var centerPix: (real, real)
    var freq0: real
    var incrX: real
    var incrY: real
    var incrHz: real
    var unitX: string
    var unitY: string
    var unitData: string
    var beam: Option<Beam>

    constructor (imageName: string, data: Pixels, width: int, height: int, nchan: int,
                 centerRaDec: (real, real), centerPix: (real, real), freq0: real,
                 incrX: real, incrY: real, incrHz: real,
                 unitX: string, unitY: string, unitData: string, beam: Option<Beam>)
      ensures this.imageName == imageName && this.data == data
      ensures this.width == width && this.height == height && this.nchan == nchan
      ensures this.centerRaDec == centerRaDec && this.centerPix == centerPix && this.freq0 == freq0
      ensures this.incrX == incrX && this.incrY == incrY && this.incrHz == incrHz
      ensures this.unitX == unitX && this.unitY == unitY && this.unitData == unitData
      ensures this.beam == beam
    {
      this.imageName := imageName;
      this.data := data;
      this.width := width;
      this.height := height;
      this.nchan := nchan;
      this.centerRaDec := centerRaDec;
      this.centerPix := centerPix;
      this.freq0 := freq0;
      this.incrX := incrX;
      this.incrY := incrY;
      this.incrHz := incrHz;
      this.unitX := unitX;
      this.unitY := unitY;
      this.unitData := unitData;
      this.beam := beam;
    }

    /** The axis fields that a unit conversion works on. */
    function AxesOf(): Axes
      reads this
    {
      Axes(incrX, incrY, unitX, unitY)
    }

    /**
     * `convert_axes_unit`: the fields end as `Convert` leaves them, and a
     * missing table pair is reported as a `ValueError` naming that pair.
     */
    method ConvertAxesUnit(unit: string) returns (err: Option<Error>)
      modifies this
      ensures AxesOf() == Convert(old(AxesOf()), unit).axes
      ensures var missing := Convert(old(AxesOf()), unit).missing;
        err == if missing.None? then None
               else Some(ValueError(UnsupportedUnitConversion(missing.value.0, missing.value.1)))
      ensures imageName == old(imageName) && data == old(data) && width == old(width) && height == old(height)
      ensures nchan == old(nchan) && centerRaDec == old(centerRaDec) && centerPix == old(centerPix)
      ensures freq0 == old(freq0) && incrHz == old(incrHz) && unitData == old(unitData) && beam == old(beam)
    {
      var fx := ConversionFactor(unitX, unit);
      if fx.None? {
        return Some(ValueError(UnsupportedUnitConversion(unitX, unit)));
      }
      incrX := incrX * fx.value;
      var fy := ConversionFactor(unitY, unit);
      if fy.None? {
        return Some(ValueError(UnsupportedUnitConversion(unitY, unit)));
      }
      incrY := incrY * fy.value;
      unitX := unit;
      unitY := unit;
      return None;
    }

    /**
     * `get_ticks`: for each axis, `2 + 2*span` ticks over the full image size and
     * their numeric labels (offset from the middle times the increment). The
     * `relative` flag selects between two identical label lists, so the result
     * does not depend on it.
     */
    method GetTicks(xTickSpan: int, yTickSpan: int, relative: bool)
      returns (xTicks: seq<real>, xLabels: seq<real>, yTicks: seq<real>, yLabels: seq<real>)
      ensures AxisTicksSpec(xTicks, xLabels, width as real, incrX, xTickSpan)
      ensures AxisTicksSpec(yTicks, yLabels, height as real, incrY, yTickSpan)
      ensures width >= 0 ==> forall k :: 0 <= k < |xTicks| ==> 0.0 <= xTicks[k] <= width as real
      ensures height >= 0 ==> forall k :: 0 <= k < |yTicks| ==> 0.0 <= yTicks[k] <= height as real
    {
      xTicks, xLabels := AxisTicks(width as real, incrX, xTickSpan);
      yTicks, yLabels := AxisTicks(height as real, incrY, yTickSpan);
      if width >= 0 {
        TicksWithinExtent(xTicks, xLabels, width as real, incrX, xTickSpan);
      }
      if height >= 0 {
        TicksWithinExtent(yTicks, yLabels, height as real, incrY, yTickSpan);
      }
    }

    /**
     * `keep_stokes_chan`: only a four-axis array with `0 <= stokes < shape[0]`
     * and `0 <= chan < shape[1]` is accepted, each failure with its own
     * `ValueError`; on success the data becomes the plane `data[stokes][chan]`.
     */
    method KeepStokesChan(stokes: int, chan: int) returns (err: Option<Error>)
      requires WellShaped(data)
      modifies this
      ensures err == StokesChanError(old(data), stokes, chan)
      ensures err.None? ==> data == Plane(old(data).hyper[stokes][chan])
      ensures err.Some? ==> data == old(data)
      ensures WellShaped(data)
      ensures AxesOf() == old(AxesOf()) && beam == old(beam) && centerPix == old(centerPix)
      ensures width == old(width) && height == old(height) && nchan == old(nchan)
      ensures unchanged(this`imageName, this`centerRaDec, this`freq0, this`incrHz, this`unitData)
    {
      if data.Ndim() != 4 {
        return Some(ValueError(NotFourDimensional(data.Ndim())));
      }
      if stokes < 0 || chan < 0 {
        return Some(ValueError(NegativeIndex));
      }
      if stokes >= |data.hyper| {
        return Some(ValueError(StokesOutOfBounds(stokes)));
      }
      if chan >= |data.hyper[0]| {
        return Some(ValueError(ChannelOutOfBounds(chan)));
      }
      data := Plane(data.hyper[stokes][chan]);
      return None;
    }
  }

  /**
   * The validation of `keep_stokes_chan`, in the order the source checks:
   * number of axes, signs, then the Stokes and channel bounds.
   */
  function StokesChanError(p: Pixels, stokes: int, chan: int): Option<Error>
  {
    if p.Ndim() != 4 then Some(ValueError(NotFourDimensional(p.Ndim())))
    else if stokes < 0 || chan < 0 then Some(ValueError(NegativeIndex))
    else if stokes >= |p.hyper| then Some(ValueError(StokesOutOfBounds(stokes)))
    else if chan >= |p.hyper[0]| then Some(ValueError(ChannelOutOfBounds(chan)))
    else None
  }

  /**
   * The selection succeeds exactly on a four-axis array with both indices in
   * range, and the plane it keeps is then itself rectangular.
   */
  lemma StokesChanAccepted(p: Pixels, stokes: int, chan: int)
    requires WellShaped(p)
    ensures StokesChanError(p, stokes, chan).None? <==>
      p.Hyper? && 0 <= stokes < |p.hyper| && 0 <= chan < |p.hyper[stokes]|
    ensures StokesChanError(p, stokes, chan).None? ==> WellShaped(Plane(p.hyper[stokes][chan]))
  {
    if p.Hyper? && 0 <= stokes < |p.hyper| {
      assert |p.hyper[stokes]| == |p.hyper[0]|;
      if 0 <= chan < |p.hyper[stokes]| && p.hyper[0] != [] {
        var rows := |p.hyper[0][0]|;
        var cols := Cols(p.hyper[0][0]);
        assert IsGrid(p.hyper[stokes][chan], rows, cols);
      }
    }
  }
}
