/**
 `drawCandleChart` and `clearCandleChart`. The widget library is reduced to
 what these two functions do with it: objects are created on the active
 screen with a fresh identity and remembered in `candleObjects`, the status
 panel's background colour is set, and listed objects are deleted again.
 Every object the chart creates is described by an abstract primitive
 carrying the position, size, colour or text passed to the library.
 */
module Chart {
  import CppString
  import opened Wrappers
  import opened Quotes
  import opened Geometry

  /** The two candle colours, `0x00FF00` and `0xFF0000`. */
  datatype Color = Green | Red

  /** What one created object shows. Coordinates are those given to
      `lv_obj_set_pos` / `lv_obj_align`, sizes those given to `lv_obj_set_size`. */
  datatype Primitive =
    | Shadow(x: int, y: int, w: int, h: int, color: Color)
    | Body(x: int, y: int, w: int, h: int, color: Color)
    | DayLabel(x: int, y: int, text: string)
    | AxisLabel(x: int, y: int, value: int)

  /** A child of the active screen: a chart primitive, or one of the widgets
      of the designed UI tree that the chart code never touches. */
  datatype Widget = ChartPart(part: Primitive) | Designed(name: string)

  /** An object with the identity the library gave it on creation. */
  datatype Obj = Obj(id: nat, widget: Widget)

  /** The active screen's children in creation order, the ids listed in
      `candleObjects`, the next id the library will hand out, and the
      background colour of `ui_Panel_Status`. */
  datatype Display = Display(screen: seq<Obj>, candleObjects: seq<nat>, nextId: nat, status: Color) {

    /** Every id in use was handed out before `nextId`. */
    ghost predicate Valid() {
      && (forall o :: o in screen ==> o.id < nextId)
      && (forall id :: id in candleObjects ==> id < nextId)
    }

    /** Creates one object per primitive, in order, and pushes each onto
        `candleObjects`: `lv_obj_create(lv_scr_act())` followed by
        `candleObjects.push_back`. */
    function Create(ps: seq<Primitive>): (r: Display)
      ensures |r.screen| == |screen| + |ps| && r.screen[..|screen|] == screen
      ensures |r.candleObjects| == |candleObjects| + |ps| && r.candleObjects[..|candleObjects|] == candleObjects
      ensures forall k :: 0 <= k < |ps| ==> r.screen[|screen| + k].widget == ChartPart(ps[k])
      ensures forall k :: |screen| <= k < |r.screen| ==> r.screen[k].id in r.candleObjects[|candleObjects|..]
      ensures Valid() ==> r.Valid() && forall o, k :: o in screen && |screen| <= k < |r.screen| ==> o.id != r.screen[k].id
      ensures r.status == status
    {
      var objs, ids := NewObjects(nextId, ps), NewIds(nextId, |ps|);
      NewIdsListed(screen, candleObjects, objs, ids);
      NewIdsFresh(nextId, screen, candleObjects, ps);
      Display(screen + objs, candleObjects + ids, nextId + |ps|, status)
    }
  }

  /** Each new object's id is listed among the new ids. */
  lemma NewIdsListed(screen: seq<Obj>, listed: seq<nat>, objs: seq<Obj>, ids: seq<nat>)
    requires |objs| == |ids| && forall k :: 0 <= k < |objs| ==> objs[k].id == ids[k]
    ensures forall k :: |screen| <= k < |screen + objs| ==> (screen + objs)[k].id in (listed + ids)[|listed|..]
  {
    assert (listed + ids)[|listed|..] == ids;
    forall k | |screen| <= k < |screen + objs|
      ensures (screen + objs)[k].id in ids
    {
      assert (screen + objs)[k] == objs[k - |screen|];
    }
  }

  /** Ids handed out from `nextId` on are used by no earlier object. */
  lemma NewIdsFresh(next: nat, screen: seq<Obj>, listed: seq<nat>, ps: seq<Primitive>)
    ensures Display(screen, listed, next, Green).Valid() ==>
              && Display(screen + NewObjects(next, ps), listed + NewIds(next, |ps|), next + |ps|, Green).Valid()
              && forall o, k :: o in screen && |screen| <= k < |screen + NewObjects(next, ps)| ==> o.id != (screen + NewObjects(next, ps))[k].id
  {
    if !Display(screen, listed, next, Green).Valid() {
      return;
    }
    var objs, ids := NewObjects(next, ps), NewIds(next, |ps|);
    assert forall o :: o in objs ==> next <= o.id < next + |ps|;
    assert forall id :: id in ids ==> id < next + |ps|;
    forall o, k | o in screen && |screen| <= k < |screen + objs|
      ensures o.id != (screen + objs)[k].id
    {
      assert (screen + objs)[k] == objs[k - |screen|];
    }
  }

  /** The objects created for `ps`, with consecutive ids from `first` on. */
  function NewObjects(first: nat, ps: seq<Primitive>): seq<Obj> {
    seq(|ps|, k requires 0 <= k < |ps| => Obj(first + k, ChartPart(ps[k])))
  }

  /** The ids `first .. first + n - 1`. */
  function NewIds(first: nat, n: nat): seq<nat> {
    seq(n, k requires 0 <= k < n => first + k)
  }

  /** The scale of one drawing: minimum of `lowValues`, and the maximum of
      `highValues` minus that minimum. */
  function ScaleOf(d: Series): (sc: Scale)
    requires d.Valid()
    ensures sc.min in d.low && sc.min + sc.range in d.high
    ensures forall k :: 0 <= k < Slots ==> sc.min <= d.low[k] && d.high[k] <= sc.min + sc.range
  {
    var lo := MinOf(d.low);
    Scale(lo, MaxOf(d.high) - lo)
  }

  /** The source divides by the range unguarded: the chart can be drawn only
      when the highest high differs from the lowest low. */
  ghost predicate Drawable(d: Series) {
    d.Valid() && ScaleOf(d).range != 0.0
  }

  /** Drawing slot `i` (left to right) shows record `9 - i`: oldest left. */
  function RecordOf(i: nat): nat
    requires i < Slots
  {
    Slots - 1 - i
  }

  function Row(d: Series, p: real): int
    requires Drawable(d)
  {
    PriceY(ScaleOf(d), p)
  }

  /** `closeValues[k] > openValues[k]`: equal prices count as bearish. */
  predicate Bullish(c: Candle) {
    c.close > c.open
  }

  function ColorOf(c: Candle): Color {
    if Bullish(c) then Green else Red
  }

  /** The date of the record in drawing slot `i` is long enough for
      `substr(8, 2)` not to throw. */
  ghost predicate DayReadable(d: Series, i: nat)
    requires d.Valid() && i < Slots
  {
    8 <= |d.dates[RecordOf(i)]|
  }

  /** The shadow, body and day label of drawing slot `i`, or `None` when
      `substr(8, 2)` throws `std::out_of_range` on the record's date. */
  function CandleParts(d: Series, i: nat): (r: Option<seq<Primitive>>)
    requires Drawable(d) && i < Slots
    ensures r.Some? <==> DayReadable(d, i)
    ensures r.Some? ==> |r.value| == 3 && r.value[0].Shadow? && r.value[1].Body? && r.value[2].DayLabel?
  {
    var c := d.At(RecordOf(i));
    var x := CandleX(i);
    var openY, closeY, highY, lowY := Row(d, c.open), Row(d, c.close), Row(d, c.high), Row(d, c.low);
    var color := ColorOf(c);
    var shadow := Shadow(x + CandleWidth / 2 - 1, highY, 5, lowY - highY, color);
    var body :=
      if Bullish(c) then Body(x, closeY, CandleWidth, openY - closeY, color)
      else Body(x, openY, CandleWidth, closeY - openY, color);
    match CppString.Substr(c.date, 8, 2)
    case None => None
    case Some(day) => Some([shadow, body, DayLabel(x + CandleWidth / 2 - 5, Bottom + 5, day)])
  }

  /** What the candle loop produces: every part in order, or the drawing
      slot whose date made `substr` throw, which ends the program. */
  datatype Parts = Parts(prims: seq<Primitive>) | OutOfRange(slot: nat)

  /** The three primitives of drawing slot `g` within a list of parts. */
  function Group(s: seq<Primitive>, g: nat): seq<Primitive>
    requires 3 * g + 3 <= |s|
  {
    s[3 * g..3 * g + 3]
  }

  /** The candle loop over drawing slots `0 .. n - 1`. */
  function CandlesUpTo(d: Series, n: nat): (r: Parts)
    requires Drawable(d) && n <= Slots
    ensures r.Parts? <==> forall k :: 0 <= k < n ==> DayReadable(d, k)
    ensures r.Parts? ==> |r.prims| == 3 * n
    ensures r.Parts? ==> forall k :: 0 <= k < n ==> CandleParts(d, k).Some? && Group(r.prims, k) == CandleParts(d, k).value
    ensures r.OutOfRange? ==> r.slot < n && !DayReadable(d, r.slot)
    ensures r.OutOfRange? ==> forall k :: 0 <= k < r.slot ==> DayReadable(d, k)
  {
    if n == 0 then Parts([])
    else
      var done := CandlesUpTo(d, n - 1);
      if done.OutOfRange? then done
      else match CandleParts(d, n - 1)
        case None => OutOfRange(n - 1)
        case Some(p) =>
          var all := done.prims + p;
          assert Group(all, n - 1) == p;
          assert forall k :: 0 <= k < n - 1 ==> Group(all, k) == Group(done.prims, k);
          Parts(all)
  }

  /** Number of y-axis intervals, `labelCount`; `labelCount + 1` labels. */
  const LabelCount: nat := 5

  /** `minValue + j * (valueRange / labelCount)`. */
  function AxisValue(sc: Scale, j: nat): real {
    sc.min + j as real * (sc.range / LabelCount as real)
  }

  /** The y-axis labels for `j = 0 .. labelCount`, placed at `chartX - 40`
      and ten pixels above their row; the text is the value converted to `int`. */
  function AxisLabels(d: Series): (r: seq<Primitive>)
    requires Drawable(d)
    ensures |r| == LabelCount + 1
    ensures forall j :: 0 <= j < |r| ==> r[j].AxisLabel? && r[j].x == ChartX - 40
  {
    var sc := ScaleOf(d);
    seq(LabelCount + 1, j requires 0 <= j <= LabelCount => AxisLabel(ChartX - 40, PriceY(sc, AxisValue(sc, j)) - 10, Trunc(AxisValue(sc, j))))
  }

  /** One call of `drawCandleChart`: either the finished display, or the
      record whose date is too short, at which point the program stops. */
  datatype Drawing = Drawn(display: Display) | Aborted(record: nat)

  function DrawCandleChart(disp: Display, d: Series): (r: Drawing)
    requires Drawable(d)
    ensures r.Drawn? <==> forall k :: 0 <= k < Slots ==> DayReadable(d, k)
    ensures r.Aborted? ==> r.record < Slots && |d.dates[r.record]| < 8
    ensures r.Aborted? ==> forall k :: r.record < k < Slots ==> 8 <= |d.dates[k]|
    ensures r.Drawn? ==> |r.display.screen| == |disp.screen| + 3 * Slots + LabelCount + 1
    ensures r.Drawn? ==> |r.display.candleObjects| == |disp.candleObjects| + 3 * Slots + LabelCount + 1
    ensures r.Drawn? ==> r.display.screen[..|disp.screen|] == disp.screen
    ensures r.Drawn? ==> r.display.candleObjects[..|disp.candleObjects|] == disp.candleObjects
    ensures r.Drawn? ==> r.display.status == ColorOf(d.At(0))
    ensures r.Drawn? && disp.Valid() ==> r.display.Valid()
  {
    match CandlesUpTo(d, Slots)
    case OutOfRange(i) =>
      assert forall k :: RecordOf(i) < k < Slots ==> 8 <= |d.dates[k]| by {
        forall k | RecordOf(i) < k < Slots
          ensures 8 <= |d.dates[k]|
        {
          assert RecordOf(k) < i && DayReadable(d, RecordOf(k));
        }
      }
      Aborted(RecordOf(i))
    case Parts(ps) =>
      Drawn(disp.Create(ps + AxisLabels(d)).(status := ColorOf(d.At(RecordOf(Slots - 1)))))
  }

  /** The oldest record is drawn first: if its date is too short, nothing
      else is looked at. */
  lemma OldestDateTooShort(disp: Display, d: Series)
    requires Drawable(d) && |d.dates[Slots - 1]| < 8
    ensures DrawCandleChart(disp, d) == Aborted(Slots - 1)
  {
    assert !DayReadable(d, 0);
  }

  /** Removes the objects whose ids are listed, keeping the order of the
      rest. */
  function Remove(objs: seq<Obj>, ids: seq<nat>): (r: seq<Obj>)
    ensures forall o :: o in r <==> o in objs && o.id !in ids
    ensures |r| <= |objs|
  {
    if |objs| == 0 then []
    else if objs[0].id in ids then Remove(objs[1..], ids)
    else [objs[0]] + Remove(objs[1..], ids)
  }

  /** Every object that is not listed stays as many times as it occurred;
      listed objects are all gone. */
  lemma {:induction false} RemoveCounts(objs: seq<Obj>, ids: seq<nat>)
    ensures forall o :: multiset(Remove(objs, ids))[o] == if o.id in ids then 0 else multiset(objs)[o]
  {
    if |objs| > 0 {
      assert objs == [objs[0]] + objs[1..];
      RemoveCounts(objs[1..], ids);
    }
  }

  /** One call of `clearCandleChart`: every listed object is deleted and the
      list is emptied. */
  function ClearCandleChart(disp: Display): (r: Display)
    ensures r.candleObjects == []
    ensures forall o :: o in r.screen <==> o in disp.screen && o.id !in disp.candleObjects
    ensures forall o :: multiset(r.screen)[o] == if o.id in disp.candleObjects then 0 else multiset(disp.screen)[o]
    ensures r.nextId == disp.nextId && r.status == disp.status
  {
    RemoveCounts(disp.screen, disp.candleObjects);
    disp.(screen := Remove(disp.screen, disp.candleObjects), candleObjects := [])
  }

  /** The parts of one candle: the shadow is a five-pixel column centred on
      the candle, spanning the high and low rows; the body spans the open and
      close rows and is green exactly when the close is above the open; the
      label shows characters 8 and 9 of the record's date below the chart. */
  lemma CandleGeometry(d: Series, i: nat)
    requires Drawable(d) && i < Slots && DayReadable(d, i)
    ensures var ps := CandleParts(d, i).value;
            var c := d.At(RecordOf(i));
            var x := CandleX(i);
            && ps[0].x == x + CandleWidth / 2 - 1 && ps[0].w == 5
            && ps[0].y == Row(d, c.high) && ps[0].y + ps[0].h == Row(d, c.low)
            && ps[1].x == x && ps[1].w == CandleWidth
            && (ps[1].color == Green <==> c.close > c.open)
            && ps[0].color == ps[1].color
            && ps[2].x == x + CandleWidth / 2 - 5 && ps[2].y == Bottom + 5
            && ps[2].text == c.date[8..if |c.date| < 10 then |c.date| else 10]
  {
  }

  /** With a positive range every shadow lies inside the chart and has a
      non-negative height, and every body starts at the higher of its open
      and close rows and reaches down to the lower one. */
  lemma CandleBoxes(d: Series, i: nat)
    requires Drawable(d) && i < Slots && DayReadable(d, i)
    requires ScaleOf(d).range > 0.0
    ensures var ps := CandleParts(d, i).value;
            var c := d.At(RecordOf(i));
            var openY, closeY := Row(d, c.open), Row(d, c.close);
            && ChartY <= ps[0].y && ps[0].y + ps[0].h <= Bottom
            && (c.low <= c.high ==> 0 <= ps[0].h)
            && ps[1].y == (if openY < closeY then openY else closeY)
            && ps[1].y + ps[1].h == (if openY < closeY then closeY else openY)
            && 0 <= ps[1].h
  {
    var sc := ScaleOf(d);
    var c := d.At(RecordOf(i));
    PriceYEnds(sc);
    PriceYAntitone(sc, c.high, sc.min + sc.range);
    PriceYAntitone(sc, sc.min, c.low);
    if c.low <= c.high {
      PriceYAntitone(sc, c.low, c.high);
    }
    if c.close > c.open {
      PriceYAntitone(sc, c.open, c.close);
    } else {
      PriceYAntitone(sc, c.close, c.open);
    }
  }

  /** Label `j` of the axis sits on row `565 - 49 * j`: `j = 0` at the
      bottom, `j = 5` at the top. */
  lemma AxisRow(sc: Scale, j: nat)
    requires sc.range != 0.0 && j <= LabelCount
    ensures PriceY(sc, AxisValue(sc, j)) == Bottom - 49 * j
  {
    var u := sc.range / LabelCount as real;
    assert AxisValue(sc, j) - sc.min == j as real * u;
    assert sc.range == 5.0 * u;
    assert ChartHeight as real * (j as real * u) == (49 * j) as real * sc.range;
    assert (ChartHeight as real * (AxisValue(sc, j) - sc.min)) / sc.range == (49 * j) as real;
    TruncOfInt(Bottom - 49 * j);
  }

  /** Candle `i` of a finished drawing is the `i`-th group of three new
      objects: created in order, each with a fresh id that is listed for
      clearing. */
  lemma DrawnCandle(disp: Display, d: Series, i: nat, m: nat)
    requires Drawable(d) && DrawCandleChart(disp, d).Drawn?
    requires i < Slots && m < 3
    ensures var r := DrawCandleChart(disp, d).display;
            var at := |disp.screen| + 3 * i + m;
            && CandleParts(d, i).Some?
            && r.screen[at] == Obj(disp.nextId + 3 * i + m, ChartPart(CandleParts(d, i).value[m]))
            && r.candleObjects[|disp.candleObjects| + 3 * i + m] == disp.nextId + 3 * i + m
  {
    var ps := CandlesUpTo(d, Slots).prims;
    assert Group(ps, i) == CandleParts(d, i).value;
    assert (ps + AxisLabels(d))[3 * i + m] == Group(ps, i)[m];
  }

  /** After the thirty candle objects come the six axis labels, bottom to
      top. */
  lemma DrawnAxisLabel(disp: Display, d: Series, j: nat)
    requires Drawable(d) && DrawCandleChart(disp, d).Drawn?
    requires j <= LabelCount
    ensures var r := DrawCandleChart(disp, d).display;
            var sc := ScaleOf(d);
            r.screen[|disp.screen| + 3 * Slots + j].widget
              == ChartPart(AxisLabel(ChartX - 40, Bottom - 49 * j - 10, Trunc(AxisValue(sc, j))))
  {
    AxisRow(ScaleOf(d), j);
    var ps := CandlesUpTo(d, Slots).prims;
    assert (ps + AxisLabels(d))[3 * Slots + j] == AxisLabels(d)[j];
  }

  /** The status panel ends up in the colour of the last candle drawn, the
      most recent day. */
  lemma StatusOfLastCandle(disp: Display, d: Series)
    requires Drawable(d) && DrawCandleChart(disp, d).Drawn?
    ensures var r := DrawCandleChart(disp, d).display;
            r.screen[|disp.screen| + 3 * (Slots - 1) + 1].widget.part.color == r.status
  {
    DrawnCandle(disp, d, Slots - 1, 1);
    CandleGeometry(d, Slots - 1);
  }

  /** Deletion keeps order: the survivors of two consecutive runs of
      objects are the survivors of the first run followed by those of the
      second. */
  lemma {:induction false} RemoveAppend(a: seq<Obj>, b: seq<Obj>, ids: seq<nat>)
    ensures Remove(a + b, ids) == Remove(a, ids) + Remove(b, ids)
  {
    if |a| > 0 {
      assert (a + b)[0] == a[0] && (a + b)[1..] == a[1..] + b;
      RemoveAppend(a[1..], b, ids);
    } else {
      assert a + b == b;
    }
  }

  lemma {:induction false} RemoveIgnoresAbsentIds(a: seq<Obj>, ids: seq<nat>, extra: seq<nat>)
    requires forall o :: o in a ==> o.id !in extra
    ensures Remove(a, ids + extra) == Remove(a, ids)
  {
    if |a| > 0 {
      assert a[0] in a;
      RemoveIgnoresAbsentIds(a[1..], ids, extra);
    }
  }

  lemma {:induction false} RemoveAllListed(a: seq<Obj>, ids: seq<nat>)
    requires forall o :: o in a ==> o.id in ids
    ensures Remove(a, ids) == []
  {
    if |a| > 0 {
      assert a[0] in a;
      RemoveAllListed(a[1..], ids);
    }
  }

  /** Deleting the listed objects after creating new ones removes the new
      ones as well as those listed before. */
  lemma ClearAfterCreate(disp: Display, ps: seq<Primitive>)
    requires disp.Valid()
    ensures var r := disp.Create(ps);
            Remove(r.screen, r.candleObjects) == Remove(disp.screen, disp.candleObjects)
  {
    var added := NewObjects(disp.nextId, ps);
    var addedIds := NewIds(disp.nextId, |ps|);
    assert forall o :: o in added ==> o.id in addedIds by {
      forall o | o in added
        ensures o.id in addedIds
      {
        var k :| 0 <= k < |added| && added[k] == o;
        assert addedIds[k] == disp.nextId + k;
      }
    }
    assert forall o :: o in disp.screen ==> o.id !in addedIds;
    RemoveAppend(disp.screen, added, disp.candleObjects + addedIds);
    RemoveIgnoresAbsentIds(disp.screen, disp.candleObjects, addedIds);
    RemoveAllListed(added, disp.candleObjects + addedIds);
  }

  /** Clearing after a drawing removes exactly what the drawing added (and
      whatever was listed before): the screen is as if the drawing had never
      happened. */
  lemma ClearUndoesDraw(disp: Display, d: Series)
    requires disp.Valid() && Drawable(d) && DrawCandleChart(disp, d).Drawn?
    ensures ClearCandleChart(DrawCandleChart(disp, d).display).screen == ClearCandleChart(disp).screen
    ensures disp.candleObjects == [] ==> ClearCandleChart(DrawCandleChart(disp, d).display).screen == disp.screen
  {
    var ps := CandlesUpTo(d, Slots).prims + AxisLabels(d);
    assert DrawCandleChart(disp, d).display.screen == disp.Create(ps).screen;
    assert DrawCandleChart(disp, d).display.candleObjects == disp.Create(ps).candleObjects;
    ClearAfterCreate(disp, ps);
    if disp.candleObjects == [] {
      RemoveNothing(disp.screen);
    }
  }

  lemma {:induction false} RemoveNothing(a: seq<Obj>)
    ensures Remove(a, []) == a
  {
    if |a| > 0 {
      RemoveNothing(a[1..]);
      assert a == [a[0]] + a[1..];
    }
  }
}
