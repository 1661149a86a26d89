/**
 * The image record of `skrbcr_casa_scripts`: built from a CASA image header,
 * cropped to a centred figure box, with in-place unit conversion and tick
 * generation over the figure size.
 */
module ScriptsImage {
  import opened Results
  import opened Grids
  import opened Utilities
  import opened AxisUnits
  import opened Ticks

  /**
   * The parts of the `imhead` dictionary the constructor reads. Keys missing
   * from the `restoringbeam` entry (or the entry itself) are absent from the map.
   */
  datatype Header = Header(
    shape: seq<int>,
    axisNames: seq<string>,
    incr: seq<real>,
    restoringBeam: Option<map<string, map<string, real>>>,
    imageType: string,
    unit: string,
    axisUnits: seq<string>)
  {
    /** The entries the constructor indexes exist. */
    predicate Complete()
    {
      |shape| >= 4 && |axisNames| >= 2 && |incr| >= 4 && |axisUnits| >= 2
    }
  }

  /** The pixel box handed to `imval`, corners inclusive. */
  datatype Box = Box(left: int, bottom: int, right: int, top: int)

  /** `restoringbeam[key]['value']`, with a `KeyError` anywhere on the way as `None`. */
  function BeamValue(beam: Option<map<string, map<string, real>>>, key: string): (v: Option<real>)
    ensures beam.None? ==> v.None?
    ensures v.Some? ==> key in beam.value && "value" in beam.value[key] && v.value == beam.value[key]["value"]
    ensures beam.Some? && key in beam.value && "value" in beam.value[key] ==> v == Some(beam.value[key]["value"])
  {
    if beam.Some? && key in beam.value && "value" in beam.value[key] then Some(beam.value[key]["value"])
    else None
  }

  /**
   * The figure extent along one axis: the requested size when it is given and
   * lies in `1 .. full`, the full image size otherwise.
   */
  function FigExtent(requested: Option<int>, full: int): (r: int)
    ensures requested.Some? && 1 <= requested.value <= full ==> r == requested.value
    ensures !(requested.Some? && 1 <= requested.value <= full) ==> r == full
    ensures 1 <= full ==> 1 <= r <= full
  {
    if requested.None? || requested.value <= 0 || requested.value > full then full else requested.value
  }

  /**
   * The first and last pixel of a crop of `fig` pixels centred in `full`: it
   * holds exactly `fig` pixels, lies inside the image when `fig <= full`, and
   * its left margin equals its right margin or is one pixel smaller.
   */
  function CropRange(full: int, fig: int): (r: (int, int))
    ensures r.1 - r.0 + 1 == fig
    ensures 0 <= fig <= full ==> 0 <= r.0 && r.1 <= full - 1
    ensures r.0 <= full - 1 - r.1 <= r.0 + 1
  {
    ((full - fig) / 2, (full + fig) / 2 - 1)
  }

  class Image {
    var imageName: string
    var width: int
    var height: int
    var nhz: int
    var isCube: bool
    var figWidth: int
    var figHeight: int
    var axisNameX: string
    var axisNameY: string
    var incrX: real
    var incrY: real
    var incrHz: real
    var beam: bool
    var beamX: Option<real>
    var beamY: Option<real>
    var beamAng: Option<real>
    var imType: string
    var imUnit: string
    var axisUnitX: string
    var axisUnitY: string
    var img: Pixels

    /**
     * What construction establishes and no method breaks: the figure fits the
     * image, `isCube` follows the frequency axis, and the beam flag records
     * whether all three beam lookups succeeded (an attribute assigned before
     * the failing lookup keeps its value).
     */
    ghost predicate Valid()
      reads this
    {
      && (1 <= width ==> 1 <= figWidth <= width)
      && (1 <= height ==> 1 <= figHeight <= height)
      && isCube == (nhz > 1)
      && (beam <==> beamAng.Some?)
      && (beamAng.Some? ==> beamY.Some?)
      && (beamY.Some? ==> beamX.Some?)
    }

    /** The crop box the constructor passes to `imval`. */
    function CropBox(): Box
      reads this
    {
      var (left, right) := CropRange(width, figWidth);
      var (bottom, top) := CropRange(height, figHeight);
      Box(left, bottom, right, top)
    }

    /**
     * `__init__` with the `imhead` result as `header` and `imval` (including the
     * transpose that follows it) as a function of the box.
     */
    constructor (imageName: string, header: Header, width: Option<int>, height: Option<int>,
                 imval: Box -> Pixels)
      requires header.Complete()
      ensures Valid()
      ensures this.imageName == imageName
      ensures this.width == header.shape[0] && this.height == header.shape[1] && nhz == header.shape[3]
      ensures isCube <==> header.shape[3] > 1
      ensures figWidth == FigExtent(width, header.shape[0]) && figHeight == FigExtent(height, header.shape[1])
      ensures axisNameX == header.axisNames[0] && axisNameY == header.axisNames[1]
      ensures incrX == header.incr[0] && incrY == header.incr[1] && incrHz == header.incr[3]
      ensures beamX == BeamValue(header.restoringBeam, "major")
      ensures beamX.Some? ==> beamY == BeamValue(header.restoringBeam, "minor")
      ensures beamY.Some? ==> beamAng == BeamValue(header.restoringBeam, "positionangle")
      ensures !beam <==>
        || BeamValue(header.restoringBeam, "major").None?
        || BeamValue(header.restoringBeam, "minor").None?
        || BeamValue(header.restoringBeam, "positionangle").None?
      ensures imType == header.imageType && imUnit == header.unit
      ensures axisUnitX == header.axisUnits[0] && axisUnitY == header.axisUnits[1]
      ensures img == imval(CropBox())
    {
      this.imageName := imageName;
      this.width := header.shape[0];
      this.height := header.shape[1];
      nhz := header.shape[3];
      isCube := header.shape[3] > 1;
      axisNameX := header.axisNames[0];
      axisNameY := header.axisNames[1];
      incrX := header.incr[0];
      incrY := header.incr[1];
      incrHz := header.incr[3];
      var major := BeamValue(header.restoringBeam, "major");
      var minor := if major.Some? then BeamValue(header.restoringBeam, "minor") else None;
      var angle := if minor.Some? then BeamValue(header.restoringBeam, "positionangle") else None;
      beamX, beamY, beamAng := major, minor, angle;
      beam := angle.Some?;
      imType := header.imageType;
      imUnit := header.unit;
      axisUnitX := header.axisUnits[0];
      axisUnitY := header.axisUnits[1];
      var fw := FigExtent(width, header.shape[0]);
      var fh := FigExtent(height, header.shape[1]);
      figWidth, figHeight := fw, fh;
      var (left, right) := CropRange(header.shape[0], fw);
      var (bottom, top) := CropRange(header.shape[1], fh);
      img := imval(Box(left, bottom, right, top));
    }

    /** `get_fig_size`: the figure extent, which fits the image. */
    method GetFigSize() returns (w: int, h: int)
      requires Valid()
      ensures w == figWidth && h == figHeight
      ensures 1 <= width ==> 1 <= w <= width
      ensures 1 <= height ==> 1 <= h <= height
    {
      return figWidth, figHeight;
    }

    /** The axis fields that a unit conversion works on. */
    function AxesOf(): Axes
      reads this
    {
      Axes(incrX, incrY, axisUnitX, axisUnitY)
    }

    /**
     * `convert_axes_unit`: the fields end as `Convert` leaves them, and a
     * missing table pair surfaces as the dictionary's own `KeyError`.
     */
    method ConvertAxesUnit(unit: string) returns (err: Option<Error>)
      requires Valid()
      modifies this
      ensures Valid()
      ensures AxesOf() == Convert(old(AxesOf()), unit).axes
      ensures var missing := Convert(old(AxesOf()), unit).missing;
        err == if missing.None? then None else Some(KeyError(missing.value.0, missing.value.1))
      ensures unchanged(this`imageName, this`img, this`width, this`height, this`figWidth, this`figHeight)
      ensures unchanged(this`nhz, this`isCube, this`incrHz, this`beam, this`beamX, this`beamY, this`beamAng)
      ensures unchanged(this`axisNameX, this`axisNameY, this`imType, this`imUnit)
    {
      ghost var before := AxesOf();
      var fx := ConversionFactor(axisUnitX, unit);
      if fx.None? {
        assert Convert(before, unit) == Conversion(before, Some((axisUnitX, unit)));
        return Some(KeyError(axisUnitX, unit));
      }
      incrX := incrX * fx.value;
      var fy := ConversionFactor(axisUnitY, unit);
      if fy.None? {
        assert Convert(before, unit) == Conversion(AxesOf(), Some((axisUnitY, unit)));
        return Some(KeyError(axisUnitY, unit));
      }
      incrY := incrY * fy.value;
      axisUnitX := unit;
      axisUnitY := unit;
      assert Convert(before, unit) == Conversion(AxesOf(), None);
      return None;
    }

    /**
     * `get_ticks`: like the other image class, but over the figure size rather
     * than the full image, so every tick lies within the cropped figure.
     */
    method GetTicks(xTickSpan: int, yTickSpan: int, relative: bool)
      returns (xTicks: seq<real>, xLabels: seq<real>, yTicks: seq<real>, yLabels: seq<real>)
      requires Valid()
      ensures AxisTicksSpec(xTicks, xLabels, figWidth as real, incrX, xTickSpan)
      ensures AxisTicksSpec(yTicks, yLabels, figHeight as real, incrY, yTickSpan)
      ensures 1 <= width ==> forall k :: 0 <= k < |xTicks| ==> 0.0 <= xTicks[k] <= figWidth as real
      ensures 1 <= height ==> forall k :: 0 <= k < |yTicks| ==> 0.0 <= yTicks[k] <= figHeight as real
    {
      xTicks, xLabels := AxisTicks(figWidth as real, incrX, xTickSpan);
      yTicks, yLabels := AxisTicks(figHeight as real, incrY, yTickSpan);
      if 1 <= width {
        TicksWithinExtent(xTicks, xLabels, figWidth as real, incrX, xTickSpan);
      }
      if 1 <= height {
        TicksWithinExtent(yTicks, yLabels, figHeight as real, incrY, yTickSpan);
      }
    }
  }

  /** For a positive image size the crop box lies inside the image and holds exactly the figure. */
  lemma CropBoxInside(requested: Option<int>, full: int)
    requires 1 <= full
    ensures var fig := FigExtent(requested, full);
            var (lo, hi) := CropRange(full, fig);
            0 <= lo <= hi <= full - 1 && hi - lo + 1 == fig
  {
  }
}
