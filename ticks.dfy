/**
 * Axis ticks of `get_ticks` (both image classes compute them the same way):
 * the two ends-and-middle ticks `0` and `extent/2`, then for `i = 1 .. span`
 * one tick in the left half and its mirror image in the right half. Labels
 * are the tick's offset from the middle times the pixel increment; their
 * string formatting is not modelled.
 */
module Ticks {

  /** Python's `range(1, span + 1)` is empty for a negative span. */
  function Steps(span: int): nat { if span < 0 then 0 else span }

  /** The `i`-th inner tick of the left half, `i` counting from 1 as the source's loop does. */
  function LeftTick(extent: real, span: int, i: int): real
  {
    extent / 2.0 * i as real / (Steps(span) + 1) as real
  }

  /**
   * Tick `k` of an axis: `0`, the middle, then alternately the `i`-th left-half
   * tick (at `k = 2i`) and its mirror image about the middle (at `k = 2i + 1`).
   */
  function TickAt(extent: real, span: int, k: int): real
  {
    if k <= 0 then 0.0
    else if k == 1 then extent / 2.0
    else if k % 2 == 0 then LeftTick(extent, span, k / 2)
    else extent - LeftTick(extent, span, (k - 1) / 2)
  }

  /** The label of a tick: its offset from the middle of the axis, in units of `incr`. */
  function LabelOf(extent: real, incr: real, tick: real): real
  {
    (tick - extent / 2.0) * incr
  }

  /** What `get_ticks` returns for one axis of `extent` pixels with increment `incr`. */
  ghost predicate AxisTicksSpec(ticks: seq<real>, labels: seq<real>, extent: real, incr: real, span: int)
  {
    && |ticks| == 2 + 2 * Steps(span)
    && |labels| == |ticks|
    && forall k :: 0 <= k < |ticks| ==>
         ticks[k] == TickAt(extent, span, k) && labels[k] == LabelOf(extent, incr, ticks[k])
  }

  /**
   * The two appending loops of `get_ticks` for one axis, with the source's own
   * tick and label arithmetic.
   */
  method AxisTicks(extent: real, incr: real, span: int) returns (ticks: seq<real>, labels: seq<real>)
    ensures AxisTicksSpec(ticks, labels, extent, incr, span)
  {
    var mid := extent / 2.0;
    var lini := -extent / 2.0 * incr;
    var lmid := 0.0;
    var lfin := extent / 2.0 * incr;
    FirstPair(extent, incr, span);
    AppendPair([], [], k => TickAt(extent, span, k), t => LabelOf(extent, incr, t), 0.0, mid, lini, lmid);
    labels := [lini, lmid];
    ticks := [0.0, mid];
    var i := 1;
    while i < span + 1
      invariant 1 <= i <= Steps(span) + 1
      invariant |ticks| == 2 * i && |labels| == 2 * i
      invariant forall k :: 0 <= k < |ticks| ==>
        ticks[k] == TickAt(extent, span, k) && labels[k] == LabelOf(extent, incr, ticks[k])
    {
      var left, right, leftLabel, rightLabel := NextPair(extent, incr, span, i, mid, lini, lmid, lfin);
      AppendPair(ticks, labels, k => TickAt(extent, span, k), t => LabelOf(extent, incr, t), left, right, leftLabel, rightLabel);
      ticks := ticks + [left, right];
      labels := labels + [leftLabel, rightLabel];
      i := i + 1;
    }
  }

  /**
   * The body of the appending loop for step `i`: the source's expressions for
   * the left tick, its mirror image and their labels give ticks `2i` and
   * `2i+1` of the axis.
   */
  method NextPair(extent: real, incr: real, span: int, i: int, mid: real, lini: real, lmid: real, lfin: real)
    returns (left: real, right: real, leftLabel: real, rightLabel: real)
    requires 1 <= i <= span
    requires mid == extent / 2.0 && lini == -extent / 2.0 * incr && lmid == 0.0 && lfin == extent / 2.0 * incr
    ensures left == TickAt(extent, span, 2 * i) && right == TickAt(extent, span, 2 * i + 1)
    ensures leftLabel == LabelOf(extent, incr, left) && rightLabel == LabelOf(extent, incr, right)
  {
    left := mid * i as real / (span + 1) as real;
    right := (mid - extent) * i as real / (span + 1) as real + extent;
    leftLabel := (lmid - lini) * i as real / (span + 1) as real + lini;
    rightLabel := (lmid - lfin) * i as real / (span + 1) as real + lfin;
    TickArithmetic(extent, incr, i as real, (span + 1) as real);
    assert left == LeftTick(extent, span, i);
    assert (2 * i) / 2 == i && (2 * i + 1 - 1) / 2 == i && (2 * i + 1) % 2 == 1;
  }

  /** The first two ticks, `0` and the middle, and their labels. */
  lemma FirstPair(extent: real, incr: real, span: int)
    ensures 0.0 == TickAt(extent, span, 0) && extent / 2.0 == TickAt(extent, span, 1)
    ensures -extent / 2.0 * incr == LabelOf(extent, incr, 0.0)
    ensures 0.0 == LabelOf(extent, incr, extent / 2.0)
  {
  }

  /**
   * Appending one pair of ticks that follow `tick`, labelled by `labelOf`, keeps
   * both lists so described.
   */
  lemma AppendPair(ticks: seq<real>, labels: seq<real>, tick: int -> real, labelOf: real -> real,
                   left: real, right: real, leftLabel: real, rightLabel: real)
    requires |ticks| == |labels|
    requires forall k :: 0 <= k < |ticks| ==> ticks[k] == tick(k) && labels[k] == labelOf(ticks[k])
    requires left == tick(|ticks|) && right == tick(|ticks| + 1)
    requires leftLabel == labelOf(left) && rightLabel == labelOf(right)
    ensures forall k :: 0 <= k < |ticks| + 2 ==>
      (ticks + [left, right])[k] == tick(k) &&
      (labels + [leftLabel, rightLabel])[k] == labelOf((ticks + [left, right])[k])
  {
    var t, l := ticks + [left, right], labels + [leftLabel, rightLabel];
    forall k | 0 <= k < |ticks| + 2
      ensures t[k] == tick(k) && l[k] == labelOf(t[k])
    {
      if k < |ticks| {
        assert t[k] == ticks[k] && l[k] == labels[k];
      } else if k == |ticks| {
        assert t[k] == left && l[k] == leftLabel;
      } else {
        assert t[k] == right && l[k] == rightLabel;
      }
    }
  }

  /** Every tick lies within the axis, `[0, extent]`. */
  lemma TicksWithinExtent(ticks: seq<real>, labels: seq<real>, extent: real, incr: real, span: int)
    requires extent >= 0.0
    requires AxisTicksSpec(ticks, labels, extent, incr, span)
    ensures forall k :: 0 <= k < |ticks| ==> 0.0 <= ticks[k] <= extent
  {
    forall k | 0 <= k < |ticks|
      ensures 0.0 <= ticks[k] <= extent
    {
      if k >= 2 {
        LeftTickBounds(extent, span, if k % 2 == 0 then k / 2 else (k - 1) / 2);
      }
    }
  }

  /**
   * The inner ticks come in pairs mirrored about the middle of the axis: each
   * pair sums to `extent`, and its two labels are opposite.
   */
  lemma TicksMirrored(ticks: seq<real>, labels: seq<real>, extent: real, incr: real, span: int, i: int)
    requires AxisTicksSpec(ticks, labels, extent, incr, span)
    requires 1 <= i <= Steps(span)
    ensures ticks[2 * i] + ticks[2 * i + 1] == extent
    ensures labels[2 * i + 1] == -labels[2 * i]
  {
    assert (2 * i) / 2 == i && (2 * i + 1 - 1) / 2 == i;
    assert ticks[2 * i] == LeftTick(extent, span, i);
    assert ticks[2 * i + 1] == extent - LeftTick(extent, span, i);
  }

  /** The left-half ticks increase: each lies right of the one before it, towards the middle. */
  lemma LeftTicksIncrease(ticks: seq<real>, labels: seq<real>, extent: real, incr: real, span: int, i: int)
    requires AxisTicksSpec(ticks, labels, extent, incr, span)
    requires extent > 0.0
    requires 1 <= i < Steps(span)
    ensures ticks[2 * i] < ticks[2 * i + 2]
  {
    var d := (Steps(span) + 1) as real;
    ScaleDiv(extent / 2.0, i as real, d);
    ScaleDiv(extent / 2.0, (i + 1) as real, d);
    assert i as real / d < (i + 1) as real / d;
    assert (2 * i) / 2 == i && (2 * i + 2) / 2 == i + 1;
    assert ticks[2 * i] == LeftTick(extent, span, i);
    assert ticks[2 * i + 2] == LeftTick(extent, span, i + 1);
  }

  lemma LeftTickBounds(extent: real, span: int, i: int)
    requires extent >= 0.0 && 1 <= i <= Steps(span)
    ensures 0.0 <= LeftTick(extent, span, i) <= extent / 2.0
  {
    var n := Steps(span);
    var f := i as real / (n + 1) as real;
    ScaleDiv(extent / 2.0, i as real, (n + 1) as real);
    assert 0.0 < f <= 1.0;
    assert extent / 2.0 * (1.0 - f) >= 0.0;
    assert extent / 2.0 * f >= 0.0;
  }

  /** The source's tick and label expressions for step `i` of `d - 1`, in closed form. */
  lemma TickArithmetic(extent: real, incr: real, i: real, d: real)
    requires d > 0.0
    ensures var mid := extent / 2.0;
            var lini := -extent / 2.0 * incr;
            var lfin := extent / 2.0 * incr;
            var left := mid * i / d;
            var right := (mid - extent) * i / d + extent;
            && right == extent - left
            && (0.0 - lini) * i / d + lini == (left - mid) * incr
            && (0.0 - lfin) * i / d + lfin == (right - mid) * incr
  {
    var mid := extent / 2.0;
    var q := i / d;
    ScaleDiv(mid, i, d);
    ScaleDiv(mid - extent, i, d);
    ScaleDiv(0.0 - -extent / 2.0 * incr, i, d);
    ScaleDiv(0.0 - extent / 2.0 * incr, i, d);
    assert mid - extent == -mid;
    assert (mid - extent) * q == -(mid * q);
    assert (0.0 - -extent / 2.0 * incr) == mid * incr;
    assert (mid * incr) * q == (mid * q) * incr;
  }

  lemma ScaleDiv(a: real, b: real, d: real)
    requires d != 0.0
    ensures a * b / d == a * (b / d)
  {
    var q := b / d;
    assert b == q * d;
    assert a * b == (a * q) * d;
  }
}
