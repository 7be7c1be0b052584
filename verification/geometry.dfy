/**
 The fixed layout of `drawCandleChart` and its one price-to-pixel map. Prices
 are `real` (the sketch uses `float`); the map is evaluated in real arithmetic
 and then converted to `int` the way C++ converts a floating value: by
 truncation toward zero.
 */
module Geometry {

  const ChartWidth: int := 380
  const ChartHeight: int := 245
  const ChartX: int := 62
  const ChartY: int := 320
  /** `chartWidth / 10 - 5`. */
  const CandleWidth: int := ChartWidth / 10 - 5
  /** Horizontal distance between the left edges of neighbouring candles. */
  const CandleStep: int := CandleWidth + 2
  /** The pixel row of the lowest price, `chartY + chartHeight`. */
  const Bottom: int := ChartY + ChartHeight

  /** The conversion of a floating value to `int`: the fraction is dropped. */
  function Trunc(x: real): (n: int)
    ensures 0.0 <= x ==> n as real <= x < n as real + 1.0
    ensures x < 0.0 ==> n as real - 1.0 < x <= n as real
  {
    if x >= 0.0 then x.Floor else -((-x).Floor)
  }

  lemma TruncMonotone(x: real, y: real)
    requires x <= y
    ensures Trunc(x) <= Trunc(y)
  {
    if 0.0 <= x {
      assert x.Floor <= y.Floor;
    } else if y < 0.0 {
      assert (-y).Floor <= (-x).Floor;
    }
  }

  /** An integral value converts to itself. */
  lemma TruncOfInt(n: int)
    ensures Trunc(n as real) == n
  {
  }

  /** `*std::min_element(v, v + n)`. */
  function MinOf(s: seq<real>): (m: real)
    requires |s| > 0
    ensures m in s
    ensures forall k :: 0 <= k < |s| ==> m <= s[k]
  {
    if |s| == 1 then s[0]
    else
      var rest := MinOf(s[1..]);
      if s[0] <= rest then s[0] else rest
  }

  /** `*std::max_element(v, v + n)`. */
  function MaxOf(s: seq<real>): (m: real)
    requires |s| > 0
    ensures m in s
    ensures forall k :: 0 <= k < |s| ==> s[k] <= m
  {
    if |s| == 1 then s[0]
    else
      var rest := MaxOf(s[1..]);
      if rest <= s[0] then s[0] else rest
  }

  /** `minValue` and `valueRange = maxValue - minValue` of one drawing. */
  datatype Scale = Scale(min: real, range: real)

  /** `chartY + chartHeight - (chartHeight * (p - minValue) / valueRange)`,
      converted to `int`. */
  function PriceY(sc: Scale, p: real): int
    requires sc.range != 0.0
  {
    Trunc(Bottom as real - (ChartHeight as real * (p - sc.min)) / sc.range)
  }

  /** A higher price never lies lower on the screen. */
  lemma PriceYAntitone(sc: Scale, p: real, q: real)
    requires sc.range > 0.0 && p <= q
    ensures PriceY(sc, q) <= PriceY(sc, p)
  {
    var a := ChartHeight as real * (p - sc.min);
    var b := ChartHeight as real * (q - sc.min);
    assert a <= b;
    assert a / sc.range <= b / sc.range;
    TruncMonotone(Bottom as real - b / sc.range, Bottom as real - a / sc.range);
  }

  /** The minimum maps to the bottom row and the maximum to the top row. */
  lemma PriceYEnds(sc: Scale)
    requires sc.range != 0.0
    ensures PriceY(sc, sc.min) == Bottom
    ensures PriceY(sc, sc.min + sc.range) == ChartY
  {
    assert (ChartHeight as real * (sc.min + sc.range - sc.min)) / sc.range == ChartHeight as real;
    TruncOfInt(Bottom);
    TruncOfInt(ChartY);
  }

  /** Prices between the minimum and the maximum land inside the chart. */
  lemma PriceYInChart(sc: Scale, p: real)
    requires sc.range > 0.0 && sc.min <= p <= sc.min + sc.range
    ensures ChartY <= PriceY(sc, p) <= Bottom
  {
    PriceYEnds(sc);
    PriceYAntitone(sc, sc.min, p);
    PriceYAntitone(sc, p, sc.min + sc.range);
  }

  /** Left edge of the candle in drawing slot `i`: `chartX + i * (candleWidth + 2)`. */
  function CandleX(i: nat): int {
    ChartX + i * CandleStep
  }

  /** Candles are laid out left to right without touching, and the ten of
      them fit in the chart's width. */
  lemma CandlesSideBySide(i: nat, j: nat)
    requires i < j < 10
    ensures CandleX(i) + CandleWidth < CandleX(j)
    ensures ChartX <= CandleX(i) && CandleX(j) + CandleWidth <= ChartX + ChartWidth
  {
  }
}
