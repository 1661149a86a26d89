/** Pixel arrays as the image objects hold them: planes of rows of values. */
module Grids {

  /** A numpy array of two (Y, X), three (channel, Y, X) or four (Stokes, channel, Y, X) axes. */
  datatype Pixels =
    | Plane(plane: seq<seq<real>>)
    | Cube(cube: seq<seq<seq<real>>>)
    | Hyper(hyper: seq<seq<seq<seq<real>>>>)
  {
    function Ndim(): nat
    {
      match this
      case Plane(_) => 2
      case Cube(_) => 3
      case Hyper(_) => 4
    }
  }

  /** `g` has `rows` rows of `cols` values each. */
  predicate IsGrid(g: seq<seq<real>>, rows: int, cols: int)
  {
    |g| == rows && forall r :: 0 <= r < |g| ==> |g[r]| == cols
  }

  /** The length of the first row, which numpy reports as the second axis. */
  function Cols(g: seq<seq<real>>): nat
  {
    if g == [] then 0 else |g[0]|
  }

  /** Every plane of a cube has the same number of rows and columns. */
  predicate IsCube(c: seq<seq<seq<real>>>, rows: int, cols: int)
  {
    forall k :: 0 <= k < |c| ==> IsGrid(c[k], rows, cols)
  }

  /** A rectangular four-axis array of `stokes` by `chans` planes. */
  predicate IsHyper(h: seq<seq<seq<seq<real>>>>, stokes: int, chans: int, rows: int, cols: int)
  {
    |h| == stokes && forall s :: 0 <= s < |h| ==> |h[s]| == chans && IsCube(h[s], rows, cols)
  }

  /** The array is rectangular along every axis, as a numpy array is. */
  predicate WellShaped(p: Pixels)
  {
    match p
    case Plane(g) => IsGrid(g, |g|, Cols(g))
    case Cube(c) => c == [] || IsCube(c, |c[0]|, Cols(c[0]))
    case Hyper(h) =>
      h == [] || (h[0] == [] && IsHyper(h, |h|, 0, 0, 0))
              || (h[0] != [] && IsHyper(h, |h|, |h[0]|, |h[0][0]|, Cols(h[0][0])))
  }
}
