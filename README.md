# my_casa_tools — a Dafny model of the image-analysis core

`my_casa_tools` is a set of Python helpers for CASA radio-astronomy images.
This project models its computational core in Dafny and proves properties of it:

- the unit-conversion and SI-prefix tables of `utilities.py`;
- the two image classes, `casa_fits/Image.py` and `skrbcr_casa_scripts/Image.py`:
  in-place axis-unit conversion, tick generation, Stokes/channel selection, and
  the constructor's figure cropping;
- peak detection (`detectpeak.py`): the cell check and the row-major scan for
  pixels equal to the maximum of their window;
- the radial profile (`casa_fits/radial_profile.py`) and the azimuthal cut
  (`azimuthal_cut.py`): pixels are binned by deprojected radius or by position
  angle, and each bin is reduced to its mean and standard deviation.

Modules follow the source. `Utilities`, `AxisUnits` (the conversion both image
classes share), `Ticks` (the tick loop both classes share), `CasaFitsImage`,
`ScriptsImage`, `DetectPeak`, `RadialProfile` and `AzimuthalCut` model the
source files. `Results`, `Numerics`, `Grids` and `Binning` (the nested pixel
loop both profile routines share) hold the common pieces.

The mutable image objects are Dafny classes whose methods update their fields.
Loops are methods with loop invariants, proved against specification
functions. Python floats are exact reals. `sqrt`, `sin`, `cos` and `arctan2`
are uninterpreted functions passed in a `RealOps` record. `RealOps.Valid`
assumes two facts of `sqrt`: it is non-negative on non-negative inputs, and
`sqrt(0) == 0`. Python's `%` on floats,
`int()` and `math.ceil` are written out (`FMod`, `Trunc`, `Ceil`). NumPy's NaN
(the mean of an empty bin in `azimuthal_cut`) is a `Value` constructor.

Where the code's behaviour differs from what its names suggest, the model follows the code:

- `detectpeak` reports every pixel equal to its window's maximum, zero-valued
  plateaus included, not only isolated peaks (`ZeroPlateauReported`).
- Its column slice is one column short of the `cell`-by-`cell` window. The
  model's `DetectPeak` scans with the window as written (`AsWritten`); the
  square window appears only in the corrected half of the Findings row.

## Model

| member | source | states |
|---|---|---|
| `Numerics.Ceil` | casa_fits/radial_profile.py:42 | `math.ceil`: the least integer not below `x` |
| `Numerics.Trunc` | casa_fits/radial_profile.py:84 | `int()` truncates toward zero, for negative arguments as well |
| `Numerics.FMod` | casa_fits/radial_profile.py:48 | Python's float `%` with a positive modulus lies in `[0, m)` and differs from `x` by whole multiples of `m` |
| `Numerics.FModShift` | casa_fits/radial_profile.py:48 | if `x - n*m` lies in `[0, m)`, that is the result of `x % m` |
| `Numerics.DegreesOfTurn` | casa_fits/radial_profile.py:82 | an angle in `[0, 2*pi)` is in `[0, 360)` degrees |
| `Numerics.MeanWithinBounds` | casa_fits/radial_profile.py:95 | `np.mean` of values in `[lo, hi]` lies in `[lo, hi]` |
| `Numerics.ConstantStatistics` | casa_fits/radial_profile.py:95-96 | for a list of one repeated value, `np.mean` is that value and `np.std` and the variance are 0 |
| `Numerics.Arange` | casa_fits/radial_profile.py:57 | `np.arange(0, stop, step)`: element `k` is `k*step`, every element lies in `[0, stop)`, and the next start would reach `stop` |
| `Numerics.ArangeBounds` | casa_fits/radial_profile.py:57 | the element count `ceil(stop/step)` (0 for `stop <= 0`) keeps every start below `stop` and covers `stop` |
| `Numerics.ArgMin` | azimuthal_cut.py:52 | `np.argmin` of the distances: the chosen element is at least as near as any other and strictly nearer than every earlier one |
| `Utilities.UnitTableShape` | utilities.py:4-9 | the conversion table holds four pairs, and a lookup (`ConversionFactor`) succeeds exactly on the pairs listed independently (`SupportedPair`) |
| `Utilities.FactorLookup` | utilities.py:4-9 | a lookup yields the table entry for a supported pair and fails (`KeyError`) for any other pair |
| `Utilities.IdentityFactor` | utilities.py:5-6 | converting a unit to itself multiplies by 1 |
| `Utilities.CrossFactorsReciprocal` | utilities.py:7-8 | the rad→arcsec and arcsec→rad factors are reciprocal; every factor is positive |
| `Utilities.UnknownPrefixFallback` | utilities.py:33-43 | for an unknown prefix, `GetSiPrefixSymbol` and `GetSiPrefixBase10` fall back to the `'None'` entry: symbol `''` and multiplier 1 |
| `Utilities.KnownPrefixLookup` | utilities.py:33-43 | for a known prefix, `GetSiPrefixSymbol` and `GetSiPrefixBase10` return its own entry's symbol and multiplier |
| `Utilities.PrefixLookupsTotal` | utilities.py:16-43 | `micro` has symbol `μ`; the alternative `u` is never returned; every multiplier is positive |
| `Utilities.GetPretDirNameAsWritten` | utilities.py:45-47 | the loop as written ends in an `IndexError` for every input |
| `Utilities.GetPretDirName` | utilities.py:45-47 | corrected loop: the longest prefix that is empty or ends with `/`; no later character is `/` |
| `AxisUnits.ConvertSucceeds` | casa_fits/Image.py:30-43 | `Convert` completes exactly when both the x pair and the y pair are supported |
| `AxisUnits.ConvertOutcomes` | casa_fits/Image.py:30-43 | three outcomes: unsupported x pair changes nothing; unsupported y pair leaves only the x increment scaled; otherwise both increments are scaled and both units set |
| `AxisUnits.ConvertTwiceSameUnit` | skrbcr_casa_scripts/Image.py:80-90 | converting twice to the same unit changes nothing the second time |
| `AxisUnits.ConvertKeepsSigns` | skrbcr_casa_scripts/Image.py:87-88 | conversion never changes the sign of an increment, nor whether it is zero |
| `AxisUnits.RadiansToArcsec` | utilities.py:7 | radians become arcseconds by the factor 648000/pi on both axes |
| `Ticks.AxisTicks` | casa_fits/Image.py:59-81 | the tick loop yields `2 + 2*span` ticks `[0, mid, …]` and their numeric labels as `AxisTicksSpec` states |
| `Ticks.NextPair` | casa_fits/Image.py:76-81 | one loop step computes the left tick `mid*i/(span+1)`, its mirror tick, and both labels |
| `Ticks.FirstPair` | casa_fits/Image.py:59-74 | the first two ticks are 0 and the middle, labelled `-extent/2*incr` and 0 |
| `Ticks.TicksWithinExtent` | casa_fits/Image.py:73-81 | every tick lies in `[0, extent]` |
| `Ticks.TicksMirrored` | casa_fits/Image.py:76-81 | ticks `2i` and `2i+1` are mirror images about the middle (sum `extent`); their labels are opposite |
| `Ticks.LeftTicksIncrease` | casa_fits/Image.py:76 | the left ticks strictly increase with `i` |
| `Ticks.LeftTickBounds` | casa_fits/Image.py:76 | each left tick lies in `[0, extent/2]` |
| `CasaFitsImage.Image.constructor` | casa_fits/Image.py:6-21 | the record holds the given header values and pixel data |
| `CasaFitsImage.Image.ConvertAxesUnit` | casa_fits/Image.py:23-43 | the axis fields end as `Convert` leaves them; a missing pair is a `ValueError` naming it; the other fields are unchanged |
| `CasaFitsImage.Image.GetTicks` | casa_fits/Image.py:45-93 | ticks and labels over the full image size; the `relative` flag makes no difference; every tick is within the image |
| `CasaFitsImage.Image.KeepStokesChan` | casa_fits/Image.py:95-127 | the errors in the source's order (not 4-D, negative index, Stokes out of range, channel out of range); on success the data is plane `[stokes][chan]`; every other field is unchanged |
| `CasaFitsImage.StokesChanAccepted` | casa_fits/Image.py:104-121 | `StokesChanError` reports no error exactly on a 4-D array with both indices in range, and the kept plane is rectangular |
| `ScriptsImage.FigExtent` | skrbcr_casa_scripts/Image.py:56-59 | the requested size if given and within `1 .. full`, otherwise the full size |
| `ScriptsImage.CropRange` | skrbcr_casa_scripts/Image.py:60-63 | the crop holds exactly `fig` pixels, lies inside the image, and its margins differ by at most one pixel |
| `ScriptsImage.CropBoxInside` | skrbcr_casa_scripts/Image.py:56-63 | for a positive image size the crop box is inside the image and has the figure's size |
| `ScriptsImage.BeamValue` | skrbcr_casa_scripts/Image.py:45-50 | a beam value exists exactly when the image has a beam with that key and a `value` entry, and it is that entry; any missing step is the `KeyError` |
| `ScriptsImage.Image.constructor` | skrbcr_casa_scripts/Image.py:11-69 | fields are read from the header; `is_cube` follows `nhz > 1`; the beam flag is false when any of the three beam lookups fails; the pixels come from the crop box |
| `ScriptsImage.Image.GetFigSize` | skrbcr_casa_scripts/Image.py:71-78 | returns the figure size, which fits the image |
| `ScriptsImage.Image.ConvertAxesUnit` | skrbcr_casa_scripts/Image.py:80-90 | the axis fields end as `Convert` leaves them; a missing pair is the dictionary's `KeyError`; the other fields are unchanged |
| `ScriptsImage.Image.GetTicks` | skrbcr_casa_scripts/Image.py:92-132 | ticks and labels over the figure size; every tick is within the figure |
| `Binning.Collect` | casa_fits/radial_profile.py:66-87 | bin `k` ends up with the values of exactly the pixels assigned to `k`, in row-major order |
| `Binning.GridSamplesWithin` | casa_fits/radial_profile.py:66-87 | every value collected into bin `k` satisfies any property that holds of all the pixels sent to `k` |
| `Binning.GridSamplesNone` | casa_fits/radial_profile.py:66-87 | a bin to which no pixel is sent collects no values |
| `Binning.GridSamplesComplete` | casa_fits/radial_profile.py:66-87 | a bin to which some pixel is sent collects at least one value |
| `Binning.GridSamplesEmpty` | casa_fits/radial_profile.py:66-87 | bin `k` is empty exactly when no pixel of the plane is sent to `k` |
| `Binning.ConstantSamples` | casa_fits/radial_profile.py:66-87 | on a plane holding `v` everywhere, every value collected into any bin is `v` |
| `DetectPeak.RowMaxIsMax` | detectpeak.py:29 | the maximum of a row slice bounds every element of the slice and is one of them |
| `DetectPeak.BlockMaxIsMax` | detectpeak.py:29 | the same for `np.max` of a 2-D block |
| `DetectPeak.ReportedIffDominates` | detectpeak.py:23 | the test `img[i][j] == np.max(window)` holds exactly when no window value exceeds the pixel |
| `DetectPeak.ScanPeaks` | detectpeak.py:18-31 | the nested loops return `peak_x`/`peak_y`, the coordinates of the specification scan `Scan`, in order |
| `DetectPeak.ScanRow` | detectpeak.py:28-31 | the inner loop returns the columns of row `i`'s peaks, left to right |
| `DetectPeak.GridScanMembers` | detectpeak.py:21-31 | a position is in the scan of the visited rows exactly when it is visited and passes the test |
| `DetectPeak.ScanMembership` | detectpeak.py:21-31 | `Scan` reports only interior positions, exactly those passing the window test |
| `DetectPeak.ScanRowMajor` | detectpeak.py:21-31 | peaks come out in strictly increasing row-major order, so none is reported twice |
| `DetectPeak.ScanIffDominates` | detectpeak.py:27-29 | an interior pixel is reported exactly when the mask allows it and no window value exceeds it |
| `DetectPeak.LargerNeighbourExcludes` | detectpeak.py:29 | a pixel with a strictly larger value in its window is never reported |
| `DetectPeak.MaskedScanFilters` | detectpeak.py:19-25 | masked peaks are exactly the unmasked peaks where the mask is positive |
| `DetectPeak.ConstantImageAllPeaks` | detectpeak.py:27-31 | on a constant image every interior pixel is reported |
| `DetectPeak.RightColumnIgnored` | detectpeak.py:29 | as written, a 3×3 image whose centre has a larger right-hand neighbour still reports the centre |
| `DetectPeak.SquareWindowPeaks` | detectpeak.py:29 | with the `cell`-by-`cell` window, a pixel is reported exactly when it is at least every value within `c` rows and `c` columns |
| `DetectPeak.ZeroPlateauReported` | detectpeak.py:27-31 | in zeros with one spike, a zero pixel whose window misses the spike is reported beside the spike; a pixel next to the spike is not |
| `DetectPeak.ValidCellFits` | detectpeak.py:11-12 | a `cell` that `ValidCell` accepts is odd and at least 3, and its window fits the figure |
| `DetectPeak.DetectPeak` | detectpeak.py:7-31 | figure size, then axis conversion (a `KeyError` on a missing pair), then the cell check (`ValueError`), then the scan over the figure with the window as written; success exactly when the conversion and the cell check pass; every field but the axis fields is unchanged |
| `RadialProfile.AzimuthWindow` | casa_fits/radial_profile.py:46-48 | the window (default `(0, 359)`) shifted by 90 degrees modulo 360; both ends lie in `[0, 360)` |
| `RadialProfile.DefaultWindow` | casa_fits/radial_profile.py:46-54 | the default window becomes `(90, 89)` and drops exactly the angles strictly between 89 and 90 degrees |
| `RadialProfile.EqualEndsAcceptAll` | casa_fits/radial_profile.py:50-54 | `InAzimuthRange` with ends that coincide accepts every angle |
| `RadialProfile.WindowShift` | casa_fits/radial_profile.py:48 | ends given in `[0, 270)` are shifted by exactly 90 degrees |
| `RadialProfile.SamplingSize` | casa_fits/radial_profile.py:37-42 | the ring width is at least one pixel for a positive beam and factor |
| `RadialProfile.Geometry.Deprojected` | casa_fits/radial_profile.py:63-77 | the pixel shifted to the centre, rotated by `-PA` and deprojected; the centre maps to the origin |
| `RadialProfile.Geometry.Radius` | casa_fits/radial_profile.py:80 | the deprojected radius is never negative, and is 0 at the centre |
| `RadialProfile.Geometry.Angle` | casa_fits/radial_profile.py:82 | `degrees(arctan2(y, x) % 2*pi)` lies in `[0, 360)` |
| `RadialProfile.RadialBin` | casa_fits/radial_profile.py:83-87 | a pixel's ring index is below the number of rings |
| `RadialProfile.RadialBinMeaning` | casa_fits/radial_profile.py:80-87 | a pixel lands in ring `k` exactly when it is in the window, `k` is below the ring count, and its deprojected radius lies in `[k*step, (k+1)*step)` |
| `RadialProfile.TruncBucket` | casa_fits/radial_profile.py:84 | for `r >= 0`, `int(r/s) == k` exactly when `r` lies in `[k*s, (k+1)*s)` |
| `RadialProfile.BinStatistics` | casa_fits/radial_profile.py:89-96 | an empty ring reports 0 and 0; a constant ring reports its value and 0; any mean lies within the ring's values |
| `RadialProfile.ReduceRings` | casa_fits/radial_profile.py:89-96 | the reduction loop appends 0 for an empty ring, otherwise the mean and standard deviation |
| `RadialProfile.Rings` | casa_fits/radial_profile.py:57-98 | one ring per `arange` start; ring `k` starts at `k*step*scale` and reports the statistics of the pixels `RadialBin` sends to it |
| `RadialProfile.ConstantPlaneRings` | casa_fits/radial_profile.py:66-96 | on an image holding `v` everywhere, every ring's standard deviation is 0; its mean is `v` when some pixel falls in the ring and 0 when none does |
| `RadialProfile.ReduceBins` | casa_fits/radial_profile.py:66-98 | binning, reduction and scaling for any bin assignment give the profile `ProfileOf` describes |
| `RadialProfile.RadialProfileOf` | casa_fits/radial_profile.py:30-98 | a missing beam is a `ValueError` and nothing changes; otherwise axes are converted to arcsec in place (a `ValueError` on a missing pair); after a conversion, the call fails exactly when `cos(inc)` is 0 on a non-empty image, with `ZeroDivisionError`, and otherwise succeeds; a result meets `RingsSpec`; every field but the axis fields is unchanged |
| `AzimuthalCut.Geometry.Dist` | azimuthal_cut.py:48 | the distance from the centre is never negative, and is 0 at the centre |
| `AzimuthalCut.Geometry.Angle` | azimuthal_cut.py:51 | the position angle from north lies in `[0, 360)` |
| `AzimuthalCut.InAnnulus` | azimuthal_cut.py:49-50 | an annulus with `r_max < r_min` holds no pixel; one reaching down to 0 holds the centre |
| `AzimuthalCut.AngleBin` | azimuthal_cut.py:48-52 | a pixel joins a bin exactly when it lies in the closed annulus, and then the first bin nearest its angle |
| `AzimuthalCut.NoWrapAround` | azimuthal_cut.py:38-52 | an angle at or beyond the last bin angle joins the last bin, never bin 0, however near it is to 360 |
| `AzimuthalCut.BinValues` | azimuthal_cut.py:55-56 | an empty bin reports NaN for both statistics; a constant bin reports its value and 0 |
| `AzimuthalCut.Bins` | azimuthal_cut.py:37-58 | the bin angles are `arange(0, 360, step)`; bin `k` reports the statistics of the annulus pixels `AngleBin` sends to it |
| `AzimuthalCut.ConstantPlaneCut` | azimuthal_cut.py:46-56 | on an image holding `v` everywhere, a bin that some annulus pixel falls in has mean `v` and standard deviation 0, and a bin no pixel falls in has mean and standard deviation NaN |
| `AzimuthalCut.SamplingOf` | azimuthal_cut.py:28-44 | the annulus is one beam size wide and centred on the radius in pixels; the angular step is positive for positive inputs |
| `AzimuthalCut.AzimuthalCutOf` | azimuthal_cut.py:20-58 | a missing beam is a `ValueError`; otherwise the axes are converted in place (`KeyError` on a missing pair); with a beam and a completed conversion the call succeeds; the centre is `(width // 2, height // 2)`, and the cut meets `CutSpec`; every field but the axis fields is unchanged |

## Left out

- Reading images is not modelled. For `skrbcr_casa_scripts`, the `imhead`
  dictionary becomes a `Header` value and `imval` (with its transpose) becomes a
  function of the crop box. The FITS reader that fills `casa_fits`'s record is
  not part of this model; its constructor takes the field values.
- Plotting and label formatting are not modelled. This covers the `matplotlib`
  calls in `detectpeak`, `set_axes_options` and `unitDict`, and the `_fmt.format`
  passes at casa_fits/Image.py:89-92 and skrbcr_casa_scripts/Image.py:128-131.
  Labels are kept as numbers.
- `imshow.py`, `imstat.py`, `compimage.py`, `prepare_image.py`, `PlotConfig.py`
  and `matplotlib_helper.py` lie outside the modelled core.
- Floating-point rounding is not modelled; arithmetic is exact over the reals.
  Comparisons on computed values that rounding could flip are modelled exactly.
  Examples are the `idx >= len(line_r)` test on `int(r / sampling_size)` in
  casa_fits/radial_profile.py and the annulus test `dist < r_min or dist > r_max`
  in azimuthal_cut.py.
- `sqrt`, `sin`, `cos` and `arctan2` are uninterpreted. The only facts assumed
  are that `sqrt` is non-negative on non-negative inputs and that `sqrt(0) == 0`.
  The "standard deviation is 0" results (`ConstantStatistics`, `BinStatistics`,
  `BinValues`) and the zero radius at the centre depend on the second fact.
- `Utilities.GetPretDirName`: models the strip loop only. The final
  `os.path.split` is left out because it is a library call.
- `DetectPeak.DetectPeak`: takes the mask as a pixel array of the figure's
  size, not as an image name that it opens.
- `DetectPeak.DetectPeak`: requires a single image plane. On a cube,
  `img[i][j] == np.max(...)` at detectpeak.py:29 compares arrays, and the `if`
  fails; that failure is not modelled.
- `DetectPeak.ScanPeaks`: the inner loop is the separate method `ScanRow`.
  The specification of both is the generic `RowScan`/`GridScan` recursion.
- `RadialProfile.RadialProfileOf` and `AzimuthalCut.AzimuthalCutOf` require the following.
  - Nonzero pixel increments. A zero increment would divide by zero inside
    NumPy and give an infinite beam size.
  - A positive beam factor and positive beam axes. Otherwise the step can be 0
    or negative, and `np.arange` raises or returns nothing.
- `AzimuthalCut.AzimuthalCutOf` also requires a positive radius. A radius of 0
  divides by zero; a negative one gives a negative step.
- The profiles work on a single image plane. Cube data (`is_cube`) is not binned.
- `ScriptsImage.Image.constructor`: requires a header with at least four axes
  (`header.Complete()`). With fewer, the indexing of `shape[3]` and `incr[3]`
  at skrbcr_casa_scripts/Image.py:28 and :43 raises `IndexError`; that failure
  is not modelled.
- `CasaFitsImage.Image.KeepStokesChan`: the 3-D branch at
  casa_fits/Image.py:122-123 is unreachable after the 4-D check, and is not modelled.
- `RadialProfile.RadialBin`: negative ring indices are dropped.
  - The source never produces one, because a valid `sqrt` is non-negative
    (`RadialBinMeaning` assumes `ops.Valid()`).
  - A zero `cos(inc)` is reported as `ZeroDivisionError` before binning.

## Findings

| source | as written | input that shows it | evidently intended | confidence | as-written member | corrected member |
|---|---|---|---|---|---|---|
| utilities.py:46 | `while dir[-1] != '/' or len(dir) != 0` strips the whole string, then indexes the empty string | any string, e.g. `"a/b"` | `while len(dir) != 0 and dir[-1] != '/'`, stopping at the last slash | not executed | `Utilities.GetPretDirNameAsWritten` | `Utilities.GetPretDirName` |
| detectpeak.py:23, detectpeak.py:29 | the column slice `j - cell // 2 : j + cell // 2` leaves out column `j + cell // 2`, although the rows run to `i + cell // 2 + 1` | 3×3 image `[[0,0,0],[0,1,5],[0,0,0]]`, `cell = 3`: the centre is reported although its right neighbour is 5 | a `cell`-by-`cell` window, columns to `j + cell // 2 + 1` | not executed | `DetectPeak.RightColumnIgnored` | `DetectPeak.SquareWindowPeaks` |
