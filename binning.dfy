/**
 * The pixel loop that both profile routines share: visit the plane row by row,
 * ask which bin (if any) a pixel belongs to, and append its value to that bin.
 */
module Binning {
  import opened Results
  import opened Grids

  /** The values of row `i` at columns `0 .. n-1` that fall into bin `k`, in column order. */
  function RowSamples(row: seq<real>, i: int, bin: (int, int) -> Option<nat>, k: nat, n: nat): seq<real>
    requires n <= |row|
  {
    if n == 0 then []
    else RowSamples(row, i, bin, k, n - 1) + (if bin(i, n - 1) == Some(k) then [row[n - 1]] else [])
  }

  /** The values of rows `0 .. m-1` that fall into bin `k`, in row-major order. */
  function GridSamples(g: seq<seq<real>>, cols: nat, bin: (int, int) -> Option<nat>, k: nat, m: nat): seq<real>
    requires m <= |g|
    requires forall r :: 0 <= r < |g| ==> |g[r]| == cols
  {
    if m == 0 then []
    else GridSamples(g, cols, bin, k, m - 1) + RowSamples(g[m - 1], m - 1, bin, k, cols)
  }

  /** The bins a pixel may be assigned to all exist. */
  predicate BinsInRange(g: seq<seq<real>>, cols: nat, bin: (int, int) -> Option<nat>, count: nat)
  {
    forall i, j :: 0 <= i < |g| && 0 <= j < cols && bin(i, j).Some? ==> bin(i, j).value < count
  }

  /**
   * The nested `for i` / `for j` loops with `sample[idx].append(...)`: bin `k`
   * ends up holding, in row-major order, exactly the values of the pixels that
   * `bin` sends to `k`.
   */
  method Collect(g: seq<seq<real>>, cols: nat, bin: (int, int) -> Option<nat>, count: nat)
    returns (samples: seq<seq<real>>)
    requires IsGrid(g, |g|, cols)
    requires BinsInRange(g, cols, bin, count)
    ensures |samples| == count
    ensures forall k :: 0 <= k < count ==> samples[k] == GridSamples(g, cols, bin, k, |g|)
  {
    samples := seq(count, _ => []);
    var i := 0;
    while i < |g|
      invariant 0 <= i <= |g|
      invariant |samples| == count
      invariant forall k :: 0 <= k < count ==> samples[k] == GridSamples(g, cols, bin, k, i)
    {
      var j := 0;
      while j < cols
        invariant 0 <= j <= cols
        invariant |samples| == count
        invariant forall k :: 0 <= k < count ==>
          samples[k] == GridSamples(g, cols, bin, k, i) + RowSamples(g[i], i, bin, k, j)
      {
        var b := bin(i, j);
        if b.Some? {
          samples := samples[b.value := samples[b.value] + [g[i][j]]];
        }
        j := j + 1;
      }
      i := i + 1;
    }
  }
  /**
   * Whatever holds of the value of every column of row `i` that `bin` sends to
   * `k` holds of every value the row contributes to bin `k`.
   */
  lemma {:induction false} RowSamplesWithin(row: seq<real>, i: int, bin: (int, int) -> Option<nat>, k: nat, n: nat,
                                            P: real -> bool)
    requires n <= |row|
    requires forall j :: 0 <= j < n && bin(i, j) == Some(k) ==> P(row[j])
    ensures forall t :: 0 <= t < |RowSamples(row, i, bin, k, n)| ==> P(RowSamples(row, i, bin, k, n)[t])
  {
    if n > 0 {
      RowSamplesWithin(row, i, bin, k, n - 1, P);
    }
  }

  /**
   * Whatever holds of the value of every pixel of rows `0 .. m-1` that `bin`
   * sends to `k` holds of every sample of bin `k`: the samples are values of
   * exactly those pixels.
   */
  lemma {:induction false} GridSamplesWithin(g: seq<seq<real>>, cols: nat, bin: (int, int) -> Option<nat>, k: nat, m: nat,
                                             P: real -> bool)
    requires m <= |g|
    requires forall r :: 0 <= r < |g| ==> |g[r]| == cols
    requires forall i, j :: 0 <= i < m && 0 <= j < cols && bin(i, j) == Some(k) ==> P(g[i][j])
    ensures forall t :: 0 <= t < |GridSamples(g, cols, bin, k, m)| ==> P(GridSamples(g, cols, bin, k, m)[t])
  {
    if m > 0 {
      GridSamplesWithin(g, cols, bin, k, m - 1, P);
      RowSamplesWithin(g[m - 1], m - 1, bin, k, cols, P);
    }
  }

  /** A column of row `i` that `bin` sends to `k` makes the row's contribution to `k` non-empty. */
  lemma {:induction false} RowSamplesComplete(row: seq<real>, i: int, bin: (int, int) -> Option<nat>, k: nat, n: nat, j: int)
    requires n <= |row| && 0 <= j < n && bin(i, j) == Some(k)
    ensures RowSamples(row, i, bin, k, n) != []
  {
    if j < n - 1 {
      RowSamplesComplete(row, i, bin, k, n - 1, j);
    }
  }

  /** A pixel of rows `0 .. m-1` that `bin` sends to `k` makes bin `k` non-empty. */
  lemma {:induction false} GridSamplesComplete(g: seq<seq<real>>, cols: nat, bin: (int, int) -> Option<nat>, k: nat, m: nat,
                                               i: int, j: int)
    requires m <= |g|
    requires forall r :: 0 <= r < |g| ==> |g[r]| == cols
    requires 0 <= i < m && 0 <= j < cols && bin(i, j) == Some(k)
    ensures GridSamples(g, cols, bin, k, m) != []
  {
    if i < m - 1 {
      GridSamplesComplete(g, cols, bin, k, m - 1, i, j);
    } else {
      RowSamplesComplete(g[m - 1], m - 1, bin, k, cols, j);
    }
  }
  /** A row none of whose first `n` pixels is sent to bin `k` contributes no sample to it. */
  lemma {:induction false} RowSamplesNone(row: seq<real>, i: int, bin: (int, int) -> Option<nat>, k: nat, n: nat)
    requires n <= |row|
    requires forall j :: 0 <= j < n ==> bin(i, j) != Some(k)
    ensures RowSamples(row, i, bin, k, n) == []
  {
    if n > 0 {
      RowSamplesNone(row, i, bin, k, n - 1);
    }
  }

  /** Rows `0 .. m-1` none of whose pixels is sent to bin `k` contribute no sample to it. */
  lemma {:induction false} GridSamplesNone(g: seq<seq<real>>, cols: nat, bin: (int, int) -> Option<nat>, k: nat, m: nat)
    requires m <= |g|
    requires forall r :: 0 <= r < |g| ==> |g[r]| == cols
    requires forall i, j :: 0 <= i < m && 0 <= j < cols ==> bin(i, j) != Some(k)
    ensures GridSamples(g, cols, bin, k, m) == []
  {
    if m > 0 {
      GridSamplesNone(g, cols, bin, k, m - 1);
      RowSamplesNone(g[m - 1], m - 1, bin, k, cols);
    }
  }

  /** Bin `k` is empty exactly when no pixel of the plane is sent to it. */
  lemma GridSamplesEmpty(g: seq<seq<real>>, cols: nat, bin: (int, int) -> Option<nat>, k: nat)
    requires forall r :: 0 <= r < |g| ==> |g[r]| == cols
    ensures GridSamples(g, cols, bin, k, |g|) == [] <==>
      forall i, j :: 0 <= i < |g| && 0 <= j < cols ==> bin(i, j) != Some(k)
  {
    if forall i, j :: 0 <= i < |g| && 0 <= j < cols ==> bin(i, j) != Some(k) {
      GridSamplesNone(g, cols, bin, k, |g|);
    } else {
      var i, j :| 0 <= i < |g| && 0 <= j < cols && bin(i, j) == Some(k);
      GridSamplesComplete(g, cols, bin, k, |g|, i, j);
    }
  }

  /** On a plane holding `v` everywhere, every sample of every bin is `v`. */
  lemma ConstantSamples(g: seq<seq<real>>, cols: nat, bin: (int, int) -> Option<nat>, k: nat, v: real)
    requires forall r :: 0 <= r < |g| ==> |g[r]| == cols
    requires forall i, j :: 0 <= i < |g| && 0 <= j < cols ==> g[i][j] == v
    ensures forall t :: 0 <= t < |GridSamples(g, cols, bin, k, |g|)| ==> GridSamples(g, cols, bin, k, |g|)[t] == v
  {
    GridSamplesWithin(g, cols, bin, k, |g|, x => x == v);
  }
}
