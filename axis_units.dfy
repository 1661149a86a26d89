/**
 * `convert_axes_unit`, which both image classes implement the same way:
 * scale the x increment, then the y increment, then set both axis units,
 * stopping at the first pair the conversion table lacks.
 */
module AxisUnits {
  import opened Results
  import opened Numerics
  import opened Utilities

  /** The four fields `convert_axes_unit` reads and writes. */
  datatype Axes = Axes(incrX: real, incrY: real, unitX: string, unitY: string)

  /**
   * What a conversion leaves behind: the fields as they stand when it stops,
   * and the `(from, to)` pair whose lookup failed, if one did.
   */
  datatype Conversion = Conversion(axes: Axes, missing: Option<(string, string)>)

  /** The step-by-step effect of `convert_axes_unit(unit)` on `a`. */
  function Convert(a: Axes, unit: string): Conversion
  {
    match ConversionFactor(a.unitX, unit)
    case None => Conversion(a, Some((a.unitX, unit)))
    case Some(fx) =>
      var scaled := a.(incrX := a.incrX * fx);
      match ConversionFactor(a.unitY, unit)
      case None => Conversion(scaled, Some((a.unitY, unit)))
      case Some(fy) => Conversion(Axes(scaled.incrX, a.incrY * fy, unit, unit), None)
  }

  /** A conversion completes exactly when the table supports both the x pair and the y pair. */
  lemma ConvertSucceeds(a: Axes, unit: string)
    ensures Convert(a, unit).missing.None? <==> SupportedPair(a.unitX, unit) && SupportedPair(a.unitY, unit)
  {
    UnitTableShape(a.unitX, unit);
    UnitTableShape(a.unitY, unit);
  }

  /**
   * The three outcomes, stated against the list of supported pairs: both pairs
   * supported scales both increments and sets both units; an unsupported x pair
   * changes nothing; a supported x pair with an unsupported y pair leaves the x
   * increment already scaled and everything else as it was.
   */
  lemma ConvertOutcomes(a: Axes, unit: string)
    ensures !SupportedPair(a.unitX, unit) ==>
      Convert(a, unit) == Conversion(a, Some((a.unitX, unit)))
    ensures SupportedPair(a.unitX, unit) && !SupportedPair(a.unitY, unit) ==>
      Convert(a, unit) == Conversion(a.(incrX := a.incrX * UnitConv[(a.unitX, unit)]), Some((a.unitY, unit)))
    ensures SupportedPair(a.unitX, unit) && SupportedPair(a.unitY, unit) ==>
      Convert(a, unit) == Conversion(Axes(a.incrX * UnitConv[(a.unitX, unit)], a.incrY * UnitConv[(a.unitY, unit)], unit, unit), None)
  {
    var x, y := SupportedPair(a.unitX, unit), SupportedPair(a.unitY, unit);
    FactorLookup(a.unitX, unit);
    FactorLookup(a.unitY, unit);
    if x && y {
      assert Convert(a, unit) ==
        Conversion(Axes(a.incrX * UnitConv[(a.unitX, unit)], a.incrY * UnitConv[(a.unitY, unit)], unit, unit), None);
    } else if x {
      assert Convert(a, unit) == Conversion(a.(incrX := a.incrX * UnitConv[(a.unitX, unit)]), Some((a.unitY, unit)));
    }
  }

  /**
   * Converting a second time to the same unit changes nothing: both units are
   * already `unit`, and a unit's factor to itself is 1.
   */
  lemma ConvertTwiceSameUnit(a: Axes, unit: string)
    requires Convert(a, unit).missing.None?
    ensures Convert(Convert(a, unit).axes, unit) == Conversion(Convert(a, unit).axes, None)
  {
    IdentityFactor(unit);
  }

  /** A successful conversion never flips the sign of an increment, since every factor is positive. */
  lemma ConvertKeepsSigns(a: Axes, unit: string)
    ensures (Convert(a, unit).axes.incrX > 0.0 <==> a.incrX > 0.0)
    ensures (Convert(a, unit).axes.incrY > 0.0 <==> a.incrY > 0.0)
    ensures (Convert(a, unit).axes.incrX == 0.0 <==> a.incrX == 0.0)
    ensures (Convert(a, unit).axes.incrY == 0.0 <==> a.incrY == 0.0)
  {
    CrossFactorsReciprocal(a.unitX, unit);
    CrossFactorsReciprocal(a.unitY, unit);
  }

  /** Radians become arcseconds by the factor 648000/pi. */
  lemma RadiansToArcsec(a: Axes)
    requires a.unitX == "rad" && a.unitY == "rad"
    ensures Convert(a, "arcsec") ==
      Conversion(Axes(a.incrX * (648000.0 / Pi), a.incrY * (648000.0 / Pi), "arcsec", "arcsec"), None)
  {
  }
}
