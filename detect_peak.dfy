/**
 * `detectpeak`: the cell validation and the row-major scan that reports every
 * interior pixel equal to the maximum of the window around it, optionally
 * only where a mask image is positive.
 */
module DetectPeak {
  import opened Results
  import opened Numerics
  import opened Grids
  import opened AxisUnits
  import ScriptsImage

  /** A reported peak: column `x`, row `y`. */
  datatype Pos = Pos(x: int, y: int)

  /**
   * The window's columns. `AsWritten` is the slice `j - c : j + c`, which stops
   * one column short on the right; `Square` is the `cell`-by-`cell` window the
   * rows use (`i - c : i + c + 1`).
   */
  datatype WindowShape = AsWritten | Square

  /** The exclusive end of the window's column slice at column `j`. */
  function ColEnd(shape: WindowShape, j: int, c: int): int
  {
    match shape
    case AsWritten => j + c
    case Square => j + c + 1
  }

  /** `np.max` of `row[lo:hi]`. */
  function RowMax(row: seq<real>, lo: int, hi: int): real
    requires 0 <= lo < hi <= |row|
    decreases hi - lo
  {
    if hi - lo == 1 then row[lo] else Max(RowMax(row, lo, hi - 1), row[hi - 1])
  }

  /** `np.max` of the block `g[top:bottom, lo:hi]`. */
  function BlockMax(g: seq<seq<real>>, top: int, bottom: int, lo: int, hi: int): real
    requires 0 <= top < bottom <= |g|
    requires 0 <= lo < hi && forall r :: top <= r < bottom ==> hi <= |g[r]|
    decreases bottom - top
  {
    if bottom - top == 1 then RowMax(g[top], lo, hi)
    else Max(BlockMax(g, top, bottom - 1, lo, hi), RowMax(g[bottom - 1], lo, hi))
  }

  /** The row maximum bounds every element of the slice and is one of them. */
  lemma {:induction false} RowMaxIsMax(row: seq<real>, lo: int, hi: int)
    requires 0 <= lo < hi <= |row|
    ensures forall k :: lo <= k < hi ==> row[k] <= RowMax(row, lo, hi)
    ensures exists k :: lo <= k < hi && row[k] == RowMax(row, lo, hi)
    decreases hi - lo
  {
    if hi - lo > 1 {
      RowMaxIsMax(row, lo, hi - 1);
      var k :| lo <= k < hi - 1 && row[k] == RowMax(row, lo, hi - 1);
      assert row[if RowMax(row, lo, hi) == row[hi - 1] then hi - 1 else k] == RowMax(row, lo, hi);
    } else {
      assert row[lo] == RowMax(row, lo, hi);
    }
  }

  /** The block maximum bounds every element of the block and is one of them. */
  lemma {:induction false} BlockMaxIsMax(g: seq<seq<real>>, top: int, bottom: int, lo: int, hi: int)
    requires 0 <= top < bottom <= |g|
    requires 0 <= lo < hi && forall r :: top <= r < bottom ==> hi <= |g[r]|
    ensures forall r, k :: top <= r < bottom && lo <= k < hi ==> g[r][k] <= BlockMax(g, top, bottom, lo, hi)
    ensures exists r, k :: top <= r < bottom && lo <= k < hi && g[r][k] == BlockMax(g, top, bottom, lo, hi)
    decreases bottom - top
  {
    RowMaxIsMax(g[bottom - 1], lo, hi);
    if bottom - top > 1 {
      BlockMaxIsMax(g, top, bottom - 1, lo, hi);
    }
  }

  /**
   * What the scan needs: a half-width `c >= 1` whose `cell` fits the image,
   * a rectangular image of `height` rows by `width` columns, and a mask of the
   * same size.
   */
  predicate ScanDomain(g: seq<seq<real>>, mask: Option<seq<seq<real>>>, c: int, height: int, width: int)
  {
    && 1 <= c && 2 * c + 1 <= height && 2 * c + 1 <= width
    && IsGrid(g, height, width)
    && (mask.Some? ==> IsGrid(mask.value, height, width))
  }

  /** Row `i`, column `j` is one the loops visit. */
  predicate Interior(c: int, height: int, width: int, i: int, j: int)
  {
    c <= i < height - c && c <= j < width - c
  }

  /** The test of the loop body at `(i, j)`: the mask is positive there and the pixel equals its window's maximum. */
  predicate Reported(g: seq<seq<real>>, mask: Option<seq<seq<real>>>, c: int, shape: WindowShape,
                     height: int, width: int, i: int, j: int)
    requires ScanDomain(g, mask, c, height, width) && Interior(c, height, width, i, j)
  {
    && (mask.None? || mask.value[i][j] > 0.0)
    && g[i][j] == BlockMax(g, i - c, i + c + 1, j - c, ColEnd(shape, j, c))
  }

  /** No pixel of the window is larger than `g[i][j]`. */
  predicate Dominates(g: seq<seq<real>>, c: int, shape: WindowShape, height: int, width: int, i: int, j: int)
    requires ScanDomain(g, None, c, height, width) && Interior(c, height, width, i, j)
  {
    forall r, k :: i - c <= r <= i + c && j - c <= k < ColEnd(shape, j, c) ==> g[r][k] <= g[i][j]
  }

  /** The window test holds exactly when the pixel dominates its window (and the mask allows it). */
  lemma ReportedIffDominates(g: seq<seq<real>>, mask: Option<seq<seq<real>>>, c: int, shape: WindowShape,
                             height: int, width: int, i: int, j: int)
    requires ScanDomain(g, mask, c, height, width) && Interior(c, height, width, i, j)
    ensures Reported(g, mask, c, shape, height, width, i, j) <==>
      (mask.None? || mask.value[i][j] > 0.0) && Dominates(g, c, shape, height, width, i, j)
  {
    BlockMaxIsMax(g, i - c, i + c + 1, j - c, ColEnd(shape, j, c));
  }

  /** The loop body's test as a total predicate: a visited position that passes the window test. */
  predicate Peak(g: seq<seq<real>>, mask: Option<seq<seq<real>>>, c: int, shape: WindowShape,
                 height: int, width: int, i: int, j: int)
  {
    && ScanDomain(g, mask, c, height, width)
    && Interior(c, height, width, i, j)
    && Reported(g, mask, c, shape, height, width, i, j)
  }

  function PeakTest(g: seq<seq<real>>, mask: Option<seq<seq<real>>>, c: int, shape: WindowShape,
                    height: int, width: int): (int, int) -> bool
  {
    (i, j) => Peak(g, mask, c, shape, height, width, i, j)
  }

  /** The positions of row `i` at columns `c .. n-1` that pass `test`, left to right. */
  function RowScan(test: (int, int) -> bool, c: int, i: int, n: int): seq<Pos>
    decreases n - c
  {
    if n <= c then []
    else RowScan(test, c, i, n - 1) + (if test(i, n - 1) then [Pos(n - 1, i)] else [])
  }

  /** The positions of rows `c .. m-1`, columns `c .. width-c-1`, that pass `test`, in row-major order. */
  function GridScan(test: (int, int) -> bool, c: int, width: int, m: int): seq<Pos>
    decreases m - c
  {
    if m <= c then []
    else GridScan(test, c, width, m - 1) + RowScan(test, c, m - 1, width - c)
  }

  /** Every peak the two nested loops report, in the order they report them. */
  function Scan(g: seq<seq<real>>, mask: Option<seq<seq<real>>>, c: int, shape: WindowShape,
                height: int, width: int): seq<Pos>
  {
    GridScan(PeakTest(g, mask, c, shape, height, width), c, width, height - c)
  }

  /**
   * The two nested loops, appending the column to `peakX` and the row to
   * `peakY` of every position that passes the test.
   */
  method ScanPeaks(g: seq<seq<real>>, mask: Option<seq<seq<real>>>, c: int, shape: WindowShape,
                   height: int, width: int)
    returns (peakX: seq<int>, peakY: seq<int>)
    requires ScanDomain(g, mask, c, height, width)
    ensures |peakX| == |peakY| == |Scan(g, mask, c, shape, height, width)|
    ensures forall k :: 0 <= k < |peakX| ==> Scan(g, mask, c, shape, height, width)[k] == Pos(peakX[k], peakY[k])
  {
    ghost var test := PeakTest(g, mask, c, shape, height, width);
    peakX, peakY := [], [];
    var i := c;
    while i < height - c
      invariant c <= i <= height - c
      invariant Tracks(GridScan(test, c, width, i), peakX, peakY)
    {
      var xs := ScanRow(g, mask, c, shape, height, width, i);
      var ys := seq(|xs|, _ => i);
      AppendRow(test, c, width, i + 1, peakX, peakY, xs, ys);
      peakX := peakX + xs;
      peakY := peakY + ys;
      i := i + 1;
    }
  }

  /** The inner loop of the scan: the columns of row `i`'s peaks, left to right. */
  method ScanRow(g: seq<seq<real>>, mask: Option<seq<seq<real>>>, c: int, shape: WindowShape,
                 height: int, width: int, i: int)
    returns (xs: seq<int>)
    requires ScanDomain(g, mask, c, height, width) && c <= i < height - c
    ensures |xs| == |RowScan(PeakTest(g, mask, c, shape, height, width), c, i, width - c)|
    ensures forall k :: 0 <= k < |xs| ==>
      RowScan(PeakTest(g, mask, c, shape, height, width), c, i, width - c)[k] == Pos(xs[k], i)
  {
    ghost var test := PeakTest(g, mask, c, shape, height, width);
    xs := [];
    ghost var rowPeaks: seq<Pos> := [];
    var j := c;
    while j < width - c
      invariant c <= j <= width - c
      invariant rowPeaks == RowScan(test, c, i, j)
      invariant |xs| == |rowPeaks|
      invariant forall k :: 0 <= k < |xs| ==> rowPeaks[k] == Pos(xs[k], i)
    {
      assert test(i, j) == Reported(g, mask, c, shape, height, width, i, j);
      if Reported(g, mask, c, shape, height, width, i, j) {
        xs := xs + [j];
        rowPeaks := rowPeaks + [Pos(j, i)];
      }
      j := j + 1;
    }
  }

  /** The coordinate lists `xs` and `ys` hold the positions of `peaks`, in order. */
  predicate Tracks(peaks: seq<Pos>, xs: seq<int>, ys: seq<int>)
  {
    && |xs| == |peaks| && |ys| == |peaks|
    && forall k :: 0 <= k < |peaks| ==> peaks[k] == Pos(xs[k], ys[k])
  }

  /**
   * Appending row `m - 1`'s peak columns and its row number to the coordinate
   * lists of rows `c .. m-2` gives the coordinate lists of rows `c .. m-1`.
   */
  lemma AppendRow(test: (int, int) -> bool, c: int, width: int, m: int,
                  peakX: seq<int>, peakY: seq<int>, xs: seq<int>, ys: seq<int>)
    requires m > c && Tracks(GridScan(test, c, width, m - 1), peakX, peakY)
    requires |xs| == |RowScan(test, c, m - 1, width - c)|
    requires forall k :: 0 <= k < |xs| ==> RowScan(test, c, m - 1, width - c)[k] == Pos(xs[k], m - 1)
    requires ys == seq(|xs|, _ => m - 1)
    ensures Tracks(GridScan(test, c, width, m), peakX + xs, peakY + ys)
  {
    var done, row := GridScan(test, c, width, m - 1), RowScan(test, c, m - 1, width - c);
    assert GridScan(test, c, width, m) == done + row;
    forall k | 0 <= k < |done + row|
      ensures (done + row)[k] == Pos((peakX + xs)[k], (peakY + ys)[k])
    {
      if k < |done| {
        assert (done + row)[k] == done[k];
      } else {
        assert (done + row)[k] == row[k - |done|];
      }
    }
  }

  /** `p` comes before `q` in row-major order. */
  predicate Before(p: Pos, q: Pos)
  {
    p.y < q.y || (p.y == q.y && p.x < q.x)
  }

  /** Positions listed left to right. */
  predicate LeftToRight(row: seq<Pos>)
  {
    forall a, b :: 0 <= a < b < |row| ==> row[a].x < row[b].x
  }

  /** Positions listed in strictly increasing row-major order. */
  predicate RowMajor(peaks: seq<Pos>)
  {
    forall a, b :: 0 <= a < b < |peaks| ==> Before(peaks[a], peaks[b])
  }

  /** `p` is in row `i`'s scan exactly when it is a position of row `i` below column `n` that passes the test. */
  lemma {:induction false} RowScanMembers(test: (int, int) -> bool, c: int, i: int, n: int, p: Pos)
    ensures p in RowScan(test, c, i, n) <==> p.y == i && c <= p.x < n && test(i, p.x)
    decreases n - c
  {
    if n > c {
      RowScanMembers(test, c, i, n - 1, p);
    }
  }

  /** Row `i`'s scan lists its positions left to right. */
  lemma {:induction false} RowScanOrdered(test: (int, int) -> bool, c: int, i: int, n: int)
    ensures LeftToRight(RowScan(test, c, i, n))
    decreases n - c
  {
    if n > c {
      RowScanOrdered(test, c, i, n - 1);
      var prev := RowScan(test, c, i, n - 1);
      var all := RowScan(test, c, i, n);
      forall a, b | 0 <= a < b < |all|
        ensures all[a].x < all[b].x
      {
        assert all[a] == prev[a] && prev[a] in prev;
        RowScanMembers(test, c, i, n - 1, prev[a]);
        if b >= |prev| {
          assert all[b] == Pos(n - 1, i);
        } else {
          assert all[b] == prev[b];
        }
      }
    }
  }

  /** Every position in the scan of rows `c .. m-1` is one of their positions that passes the test. */
  lemma {:induction false} GridScanSound(test: (int, int) -> bool, c: int, width: int, m: int, p: Pos)
    requires p in GridScan(test, c, width, m)
    ensures c <= p.y < m && c <= p.x < width - c && test(p.y, p.x)
    decreases m - c
  {
    var prev, row := GridScan(test, c, width, m - 1), RowScan(test, c, m - 1, width - c);
    if p in prev {
      GridScanSound(test, c, width, m - 1, p);
    } else {
      RowScanMembers(test, c, m - 1, width - c, p);
    }
  }

  /** Every position of rows `c .. m-1` that passes the test is in their scan. */
  lemma {:induction false} GridScanComplete(test: (int, int) -> bool, c: int, width: int, m: int, p: Pos)
    requires c <= p.y < m && c <= p.x < width - c && test(p.y, p.x)
    ensures p in GridScan(test, c, width, m)
    decreases m - c
  {
    var prev, row := GridScan(test, c, width, m - 1), RowScan(test, c, m - 1, width - c);
    if p.y < m - 1 {
      GridScanComplete(test, c, width, m - 1, p);
      assert p in prev;
    } else {
      RowScanMembers(test, c, m - 1, width - c, p);
      assert p in row;
    }
  }

  /** `p` is in the scan of rows `c .. m-1` exactly when it is one of their positions that pass the test. */
  lemma GridScanMembers(test: (int, int) -> bool, c: int, width: int, m: int, p: Pos)
    ensures p in GridScan(test, c, width, m) <==> c <= p.y < m && c <= p.x < width - c && test(p.y, p.x)
  {
    if p in GridScan(test, c, width, m) {
      GridScanSound(test, c, width, m, p);
    }
    if c <= p.y < m && c <= p.x < width - c && test(p.y, p.x) {
      GridScanComplete(test, c, width, m, p);
    }
  }

  /** The scan of rows `c .. m-1` lists its positions in row-major order. */
  lemma {:induction false} GridScanOrdered(test: (int, int) -> bool, c: int, width: int, m: int)
    ensures RowMajor(GridScan(test, c, width, m))
    decreases m - c
  {
    if m > c {
      GridScanOrdered(test, c, width, m - 1);
      GridScanBelow(test, c, width, m - 1);
      RowScanOrdered(test, c, m - 1, width - c);
      RowScanInRow(test, c, m - 1, width - c);
      ConcatRowMajor(GridScan(test, c, width, m - 1), RowScan(test, c, m - 1, width - c), m - 1);
    }
  }

  /** Every position of row `i`'s scan lies in row `i`. */
  lemma {:induction false} RowScanInRow(test: (int, int) -> bool, c: int, i: int, n: int)
    ensures forall k :: 0 <= k < |RowScan(test, c, i, n)| ==> RowScan(test, c, i, n)[k].y == i
    decreases n - c
  {
    if n > c {
      RowScanInRow(test, c, i, n - 1);
    }
  }

  /** Every position in the scan of rows `c .. m-1` lies above row `m`. */
  lemma {:induction false} GridScanBelow(test: (int, int) -> bool, c: int, width: int, m: int)
    ensures forall k :: 0 <= k < |GridScan(test, c, width, m)| ==> GridScan(test, c, width, m)[k].y < m
    decreases m - c
  {
    if m > c {
      GridScanBelow(test, c, width, m - 1);
      RowScanInRow(test, c, m - 1, width - c);
    }
  }

  /** Rows in row-major order followed by one lower row listed left to right are in row-major order. */
  lemma ConcatRowMajor(prev: seq<Pos>, row: seq<Pos>, y: int)
    requires RowMajor(prev) && LeftToRight(row)
    requires forall k :: 0 <= k < |prev| ==> prev[k].y < y
    requires forall k :: 0 <= k < |row| ==> row[k].y == y
    ensures RowMajor(prev + row)
  {
    var all := prev + row;
    forall a, b | 0 <= a < b < |all|
      ensures Before(all[a], all[b])
    {
      if b < |prev| {
        assert all[a] == prev[a] && all[b] == prev[b];
      } else if a >= |prev| {
        assert all[a] == row[a - |prev|] && all[b] == row[b - |prev|];
      } else {
        assert all[a] == prev[a] && all[b] == row[b - |prev|];
      }
    }
  }

  /**
   * A position is reported exactly when the loops visit it and it passes the
   * window test: only interior positions, `c <= i < height - c` and
   * `c <= j < width - c`, ever appear.
   */
  lemma ScanMembership(g: seq<seq<real>>, mask: Option<seq<seq<real>>>, c: int, shape: WindowShape,
                       height: int, width: int, p: Pos)
    requires ScanDomain(g, mask, c, height, width)
    ensures p in Scan(g, mask, c, shape, height, width) <==>
      Interior(c, height, width, p.y, p.x) && Reported(g, mask, c, shape, height, width, p.y, p.x)
  {
    GridScanMembers(PeakTest(g, mask, c, shape, height, width), c, width, height - c, p);
  }

  /** Peaks come out in strictly increasing row-major order, so no position is reported twice. */
  lemma ScanRowMajor(g: seq<seq<real>>, mask: Option<seq<seq<real>>>, c: int, shape: WindowShape,
                     height: int, width: int)
    requires ScanDomain(g, mask, c, height, width)
    ensures var peaks := Scan(g, mask, c, shape, height, width);
      forall a, b :: 0 <= a < b < |peaks| ==> Before(peaks[a], peaks[b]) && peaks[a] != peaks[b]
  {
    GridScanOrdered(PeakTest(g, mask, c, shape, height, width), c, width, height - c);
  }

  /**
   * An interior position is reported exactly when it is at least every value
   * of its window (rows `i-c .. i+c`, columns `j-c` up to the window's column
   * end) and the mask allows it.
   */
  lemma ScanIffDominates(g: seq<seq<real>>, mask: Option<seq<seq<real>>>, c: int, shape: WindowShape,
                         height: int, width: int, i: int, j: int)
    requires ScanDomain(g, mask, c, height, width) && Interior(c, height, width, i, j)
    ensures Pos(j, i) in Scan(g, mask, c, shape, height, width) <==>
      (mask.None? || mask.value[i][j] > 0.0) && Dominates(g, c, shape, height, width, i, j)
  {
    ScanMembership(g, mask, c, shape, height, width, Pos(j, i));
    ReportedIffDominates(g, mask, c, shape, height, width, i, j);
  }

  /** A position whose window holds a strictly larger value is never reported. */
  lemma LargerNeighbourExcludes(g: seq<seq<real>>, mask: Option<seq<seq<real>>>, c: int, shape: WindowShape,
                                height: int, width: int, i: int, j: int, r: int, k: int)
    requires ScanDomain(g, mask, c, height, width)
    requires i - c <= r <= i + c && j - c <= k < ColEnd(shape, j, c)
    requires 0 <= i < height && 0 <= j < width && 0 <= r < height && 0 <= k < width
    requires g[r][k] > g[i][j]
    ensures Pos(j, i) !in Scan(g, mask, c, shape, height, width)
  {
    ScanMembership(g, mask, c, shape, height, width, Pos(j, i));
    if Interior(c, height, width, i, j) {
      ReportedIffDominates(g, mask, c, shape, height, width, i, j);
    }
  }

  /**
   * With a mask, the peaks are exactly the unmasked peaks at which the mask is
   * positive; in particular they are a subset of the unmasked peaks.
   */
  lemma MaskedScanFilters(g: seq<seq<real>>, mask: seq<seq<real>>, c: int, shape: WindowShape,
                          height: int, width: int, p: Pos)
    requires ScanDomain(g, Some(mask), c, height, width)
    ensures p in Scan(g, Some(mask), c, shape, height, width) <==>
      && p in Scan(g, None, c, shape, height, width)
      && Interior(c, height, width, p.y, p.x) && mask[p.y][p.x] > 0.0
  {
    ScanMembership(g, Some(mask), c, shape, height, width, p);
    ScanMembership(g, None, c, shape, height, width, p);
  }

  /** On a constant image every interior position is reported. */
  lemma ConstantImageAllPeaks(g: seq<seq<real>>, c: int, shape: WindowShape, height: int, width: int, v: real,
                              i: int, j: int)
    requires ScanDomain(g, None, c, height, width)
    requires forall r, k :: 0 <= r < height && 0 <= k < width ==> g[r][k] == v
    requires Interior(c, height, width, i, j)
    ensures Pos(j, i) in Scan(g, None, c, shape, height, width)
  {
    ScanIffDominates(g, None, c, shape, height, width, i, j);
  }

  /**
   * The column slice as written leaves out column `j + c`: in this image the
   * centre pixel is reported although its right-hand neighbour is larger, and
   * the `cell`-by-`cell` window would report nothing.
   */
  lemma RightColumnIgnored()
    ensures var g := [[0.0, 0.0, 0.0], [0.0, 1.0, 5.0], [0.0, 0.0, 0.0]];
      && ScanDomain(g, None, 1, 3, 3)
      && Scan(g, None, 1, AsWritten, 3, 3) == [Pos(1, 1)]
      && g[1][2] > g[1][1]
      && Scan(g, None, 1, Square, 3, 3) == []
  {
    var g := [[0.0, 0.0, 0.0], [0.0, 1.0, 5.0], [0.0, 0.0, 0.0]];
    assert ScanDomain(g, None, 1, 3, 3);
    ReportedIffDominates(g, None, 1, AsWritten, 3, 3, 1, 1);
    ReportedIffDominates(g, None, 1, Square, 3, 3, 1, 1);
    var asWritten := PeakTest(g, None, 1, AsWritten, 3, 3);
    var square := PeakTest(g, None, 1, Square, 3, 3);
    assert asWritten(1, 1) && !square(1, 1);
    assert RowScan(asWritten, 1, 1, 1) == [] && RowScan(square, 1, 1, 1) == [];
    assert GridScan(asWritten, 1, 3, 1) == [] && GridScan(square, 1, 3, 1) == [];
  }

  /**
   * The evidently intended test, the square window: a position is reported
   * exactly when it is at least every value within `c` rows and `c` columns,
   * the right-hand column included.
   */
  lemma SquareWindowPeaks(g: seq<seq<real>>, mask: Option<seq<seq<real>>>, c: int, height: int, width: int,
                          i: int, j: int)
    requires ScanDomain(g, mask, c, height, width) && Interior(c, height, width, i, j)
    ensures Pos(j, i) in Scan(g, mask, c, Square, height, width) <==>
      && (mask.None? || mask.value[i][j] > 0.0)
      && forall r, k :: i - c <= r <= i + c && j - c <= k <= j + c ==> g[r][k] <= g[i][j]
  {
    ScanIffDominates(g, mask, c, Square, height, width, i, j);
  }

  /**
   * Peak detection does not single out isolated maxima: in a 5-by-5 image of
   * zeros with one spike at row 1, column 1, the zero pixel at row 3, column 3,
   * whose 3-by-3 window misses the spike, is reported beside the spike itself,
   * with either window.
   */
  lemma ZeroPlateauReported(g: seq<seq<real>>, shape: WindowShape)
    requires IsGrid(g, 5, 5)
    requires forall r, k :: 0 <= r < 5 && 0 <= k < 5 ==> g[r][k] == if r == 1 && k == 1 then 1.0 else 0.0
    ensures Pos(1, 1) in Scan(g, None, 1, shape, 5, 5)
    ensures Pos(3, 3) in Scan(g, None, 1, shape, 5, 5)
    ensures Pos(2, 2) !in Scan(g, None, 1, shape, 5, 5)
  {
    assert ScanDomain(g, None, 1, 5, 5);
    ScanIffDominates(g, None, 1, shape, 5, 5, 1, 1);
    ScanIffDominates(g, None, 1, shape, 5, 5, 3, 3);
    LargerNeighbourExcludes(g, None, 1, shape, 5, 5, 2, 2, 1, 1);
  }

  /** `cell` is accepted when it is odd, at least 3 and no larger than the figure. */
  predicate ValidCell(cell: int, width: int, height: int)
  {
    !(cell % 2 == 0 || cell < 3 || cell > width || cell > height)
  }

  /** An accepted `cell` gives a half-width of at least 1 whose window fits the figure. */
  lemma ValidCellFits(cell: int, width: int, height: int)
    requires ValidCell(cell, width, height)
    ensures 1 <= cell / 2 && 2 * (cell / 2) + 1 == cell
    ensures 2 * (cell / 2) + 1 <= width && 2 * (cell / 2) + 1 <= height
  {
  }

  /**
   * `detectpeak` on an opened image: take the figure size, convert the axes to
   * arcseconds (a missing table pair is the dictionary's `KeyError`), validate
   * `cell`, then scan. The mask is the pixel array of the mask image opened at
   * the same figure size. Plotting is not modelled.
   */
  method DetectPeak(img: ScriptsImage.Image, cell: int, mask: Option<seq<seq<real>>>)
    returns (r: Result<(seq<int>, seq<int>)>)
    requires img.Valid()
    requires img.img.Plane? && IsGrid(img.img.plane, img.figHeight, img.figWidth)
    requires mask.Some? ==> IsGrid(mask.value, img.figHeight, img.figWidth)
    modifies img
    ensures img.Valid() && img.img == old(img.img)
    ensures unchanged(img`imageName, img`width, img`height, img`figWidth, img`figHeight)
    ensures unchanged(img`nhz, img`isCube, img`incrHz, img`beam, img`beamX, img`beamY, img`beamAng)
    ensures unchanged(img`axisNameX, img`axisNameY, img`imType, img`imUnit)
    ensures var conv := Convert(old(img.AxesOf()), "arcsec");
      && img.AxesOf() == conv.axes
      && (conv.missing.Some? ==> r == Err(KeyError(conv.missing.value.0, conv.missing.value.1)))
      && (conv.missing.None? && !ValidCell(cell, img.figWidth, img.figHeight) ==> r == Err(ValueError(InvalidCell(cell))))
      && (conv.missing.None? && ValidCell(cell, img.figWidth, img.figHeight) ==> r.Ok?)
    ensures r.Ok? ==>
      var peaks := Scan(img.img.plane, mask, cell / 2, AsWritten, img.figHeight, img.figWidth);
      |r.value.0| == |r.value.1| == |peaks| &&
      forall k :: 0 <= k < |peaks| ==> peaks[k] == Pos(r.value.0[k], r.value.1[k])
  {
    var width, height := img.GetFigSize();
    var err := img.ConvertAxesUnit("arcsec");
    if err.Some? {
      return Err(err.value);
    }
    if !ValidCell(cell, width, height) {
      return Err(ValueError(InvalidCell(cell)));
    }
    ValidCellFits(cell, width, height);
    var peakX, peakY := ScanPeaks(img.img.plane, mask, cell / 2, AsWritten, height, width);
    return Ok((peakX, peakY));
  }
}
