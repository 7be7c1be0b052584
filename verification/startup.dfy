/**
 The one place where the two parts meet: `setup` calls `fetchStockData` and
 then `drawCandleChart` unconditionally, on arrays that start zeroed. These
 lemmas say what the drawing meets when the fetch did not fill all ten slots.
 */
module Startup {
  import opened Quotes
  import opened Fetch
  import opened Chart

  /** When the first fetch stores nothing (it fails, or the reply holds no
      time-series entries), the arrays are still all zero: the lowest low
      equals the highest high, and the drawing would divide by zero. */
  lemma NothingStoredLeavesZeroRange(labels: Labels, o: Outcome)
    requires !Accepted(o) || (o.Response? && o.body.Parsed? && |o.body.doc.series| == 0)
    ensures var st := FetchStockData(State(Zeroed(), labels), o);
            !Drawable(st.series)
  {
    var z := Zeroed();
    assert forall k :: 0 <= k < Slots ==> z.low[k] == z.At(k).low == 0.0 && z.high[k] == z.At(k).high == 0.0;
    var sc := ScaleOf(z);
    assert sc.min == 0.0 && sc.min + sc.range == 0.0;
  }

  /** When the time series holds fewer than ten entries, the oldest slot
      keeps its empty date, and the very first candle drawn (record 9)
      makes `substr(8, 2)` throw. */
  lemma ShortSeriesAbortsDrawing(labels: Labels, code: int, doc: Document, disp: Display)
    requires code > 0 && |doc.series| < Slots
    requires Drawable(FetchStockData(State(Zeroed(), labels), Response(code, Parsed(doc))).series)
    ensures var st := FetchStockData(State(Zeroed(), labels), Response(code, Parsed(doc)));
            DrawCandleChart(disp, st.series) == Aborted(Slots - 1)
  {
    var st := FetchStockData(State(Zeroed(), labels), Response(code, Parsed(doc)));
    SlotsWritten(State(Zeroed(), labels), doc, code);
    assert st.series.At(Slots - 1) == Zeroed().At(Slots - 1);
    assert st.series.dates[Slots - 1] == "";
    OldestDateTooShort(disp, st.series);
  }
}
