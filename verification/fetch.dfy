/**
 `fetchStockData` with the network, the HTTP client and the JSON library
 replaced by what they deliver: whether WiFi was connected, the status code
 of the GET, and the parsed document (or a parse failure). What remains is
 the decision whether the arrays and summary labels change, and if so, what
 lands in each slot.
 */
module Fetch {
  import CppString
  import DateKeys
  import opened Quotes

  /** The members of the JSON document the sketch reads. */
  datatype Document = Document(symbol: string, lastRefreshed: string, series: seq<Entry>)

  /** What `deserializeJson` made of the payload. */
  datatype Body = Malformed | Parsed(doc: Document)

  /** The result of one attempt: no WiFi, or the status code returned by
      `http.GET()` (negative for a transport error) and the payload. The
      payload is consulted only when the code is positive. */
  datatype Outcome = NotConnected | Response(httpCode: int, body: Body)

  /** The summary labels (`ui_Label_Symbol` .. `ui_Label_volume`), holding
      the values they display. */
  datatype Labels = Labels(symbol: string, updated: string, date: string,
                           open: real, high: real, low: real, close: real, volume: string)

  /** Everything a fetch can change: the five arrays and the labels. */
  datatype State = State(series: Series, labels: Labels)

  /** The guards at the three failure paths: WiFi connected, status code
      positive (any positive code, not only 2xx), JSON parsed. */
  predicate Accepted(o: Outcome) {
    o.Response? && o.httpCode > 0 && o.body.Parsed?
  }

  /** The loop `for (i = 0; i < 10 && i < size; ++i)` from index `i` on:
      slot `k` receives entry `k` of `sorted` while both bounds allow. */
  function CopyRecent(a: Series, sorted: seq<Entry>, i: nat): (r: Series)
    requires a.Valid() && i <= Slots
    ensures r.Valid()
    ensures forall k :: 0 <= k < i ==> r.At(k) == a.At(k)
    ensures forall k :: i <= k < Slots && k < |sorted| ==> r.At(k) == sorted[k].ToCandle()
    ensures forall k :: i <= k < Slots && |sorted| <= k ==> r.At(k) == a.At(k)
    decreases Slots - i
  {
    if i == Slots || i >= |sorted| then a
    else CopyRecent(a.Write(i, sorted[i].ToCandle()), sorted, i + 1)
  }

  /** The label update done when the time series is not empty. */
  function ShowLatest(doc: Document, latest: Entry): Labels {
    Labels(doc.symbol, doc.lastRefreshed, latest.date, latest.open, latest.high, latest.low, latest.close, latest.volume)
  }

  /** One call of `fetchStockData`. */
  function FetchStockData(st: State, o: Outcome): (r: State)
    requires st.series.Valid()
    ensures r.series.Valid()
    ensures !Accepted(o) ==> r == st
    ensures Accepted(o) ==>
              var sorted := SortDescending(o.body.doc.series);
              && (forall k :: 0 <= k < Slots && k < |sorted| ==> r.series.At(k) == sorted[k].ToCandle())
              && (forall k :: 0 <= k < Slots && |sorted| <= k ==> r.series.At(k) == st.series.At(k))
              && (|sorted| == 0 ==> r.labels == st.labels)
              && (|sorted| > 0 ==> r.labels == ShowLatest(o.body.doc, sorted[0]))
  {
    match o
    case NotConnected => st
    case Response(code, body) =>
      if code <= 0 then st
      else match body
        case Malformed => st
        case Parsed(doc) =>
          var sorted := SortDescending(doc.series);
          var series := CopyRecent(st.series, sorted, 0);
          var labels := if |sorted| == 0 then st.labels else ShowLatest(doc, sorted[0]);
          State(series, labels)
  }

  /** The number of slots a successful fetch writes: `min(10, n)`. */
  function Written(doc: Document): (m: nat)
    ensures m <= Slots && m <= |doc.series|
    ensures m == Slots || m == |doc.series|
  {
    if |doc.series| < Slots then |doc.series| else Slots
  }

  /** The arrays change only on the success path. */
  lemma ChangesOnlyWhenAccepted(st: State, o: Outcome)
    requires st.series.Valid()
    requires FetchStockData(st, o) != st
    ensures o.Response? && o.httpCode > 0 && o.body.Parsed?
  {
  }

  /** Any positive status code, a 404 or a 500 as much as a 200, proceeds to
      parsing and storing. */
  lemma AnyPositiveCodeIsParsed(st: State, code: int, doc: Document)
    requires st.series.Valid() && code > 0
    ensures FetchStockData(st, Response(code, Parsed(doc))) == FetchStockData(st, Response(200, Parsed(doc)))
  {
  }

  /** Exactly the first `min(10, n)` slots receive entries; the rest keep
      their previous contents. */
  lemma SlotsWritten(st: State, doc: Document, code: int)
    requires st.series.Valid() && code > 0
    ensures var r := FetchStockData(st, Response(code, Parsed(doc)));
            var sorted := SortDescending(doc.series);
            && (forall k :: 0 <= k < Written(doc) ==> r.series.At(k) == sorted[k].ToCandle())
            && (forall k :: Written(doc) <= k < Slots ==> r.series.At(k) == st.series.At(k))
  {
    var sorted := SortDescending(doc.series);
    assert |sorted| == |multiset(sorted)| == |multiset(doc.series)| == |doc.series|;
  }

  /** Each written slot carries the five fields of one single entry of the
      document. */
  lemma SlotsComeFromOneEntry(st: State, doc: Document, code: int, k: nat)
    requires st.series.Valid() && code > 0 && k < Written(doc)
    ensures exists e :: e in doc.series && FetchStockData(st, Response(code, Parsed(doc))).series.At(k) == e.ToCandle()
  {
    var sorted := SortDescending(doc.series);
    SlotsWritten(st, doc, code);
    assert |sorted| == |multiset(sorted)| == |multiset(doc.series)| == |doc.series|;
    assert sorted[k] in multiset(sorted);
    assert sorted[k] in doc.series;
  }

  /** The written slots are in descending date order, and slot 0 holds the
      greatest date of the whole series. */
  lemma NewestFirst(st: State, doc: Document, code: int)
    requires st.series.Valid() && code > 0
    ensures var r := FetchStockData(st, Response(code, Parsed(doc))).series;
            && (forall i, j :: 0 <= i < j < Written(doc) ==> CppString.LessOrEqual(r.dates[j], r.dates[i]))
            && (forall e :: e in doc.series ==> CppString.LessOrEqual(e.date, r.dates[0]))
  {
    var r := FetchStockData(st, Response(code, Parsed(doc))).series;
    var sorted := SortDescending(doc.series);
    SlotsWritten(st, doc, code);
    assert |sorted| == |multiset(sorted)| == |multiset(doc.series)| == |doc.series|;
    forall i, j | 0 <= i < j < Written(doc)
      ensures CppString.LessOrEqual(r.dates[j], r.dates[i])
    {
      assert r.dates[i] == r.At(i).date == sorted[i].date;
      assert r.dates[j] == r.At(j).date == sorted[j].date;
      CppString.NotLessIsGreaterOrEqual(sorted[i].date, sorted[j].date);
    }
    forall e | e in doc.series
      ensures CppString.LessOrEqual(e.date, r.dates[0])
    {
      assert e in multiset(sorted);
      assert r.dates[0] == r.At(0).date == sorted[0].date;
      FirstIsNewest(sorted, e);
    }
  }

  /** After a fetch with at least one entry, the labels show the symbol and
      refresh time of the document and all fields of its newest entry, the
      same entry that went into slot 0. */
  lemma LabelsShowNewest(st: State, doc: Document, code: int)
    requires st.series.Valid() && code > 0 && |doc.series| > 0
    ensures var r := FetchStockData(st, Response(code, Parsed(doc)));
            && r.labels.symbol == doc.symbol && r.labels.updated == doc.lastRefreshed
            && r.labels.date == r.series.dates[0]
            && (exists e :: e in doc.series && r.labels == ShowLatest(doc, e) && r.series.At(0) == e.ToCandle())
            && (forall e :: e in doc.series ==> CppString.LessOrEqual(e.date, r.labels.date))
  {
    var r := FetchStockData(st, Response(code, Parsed(doc)));
    var sorted := SortDescending(doc.series);
    SlotsWritten(st, doc, code);
    NewestFirst(st, doc, code);
    assert |sorted| == |multiset(sorted)| == |multiset(doc.series)| == |doc.series|;
    assert sorted[0] in multiset(sorted);
    assert r.series.dates[0] == r.series.At(0).date == sorted[0].date;
  }

  /** With `YYYY-MM-DD` keys the written slots run from the most recent day
      backwards, and slot 0 holds the latest day of the whole series. */
  lemma NewestDayFirst(st: State, doc: Document, code: int)
    requires st.series.Valid() && code > 0
    requires forall e :: e in doc.series ==> DateKeys.DateKey(e.date)
    ensures var r := FetchStockData(st, Response(code, Parsed(doc))).series;
            && (forall k :: 0 <= k < Written(doc) ==> DateKeys.DateKey(r.dates[k]))
            && (forall i, j :: 0 <= i < j < Written(doc) ==> DateKeys.Ymd(r.dates[j]) <= DateKeys.Ymd(r.dates[i]))
            && (0 < Written(doc) ==> forall e :: e in doc.series ==> DateKeys.Ymd(e.date) <= DateKeys.Ymd(r.dates[0]))
  {
    var r := FetchStockData(st, Response(code, Parsed(doc))).series;
    var sorted := SortDescending(doc.series);
    SlotsWritten(st, doc, code);
    NewestFirst(st, doc, code);
    assert |sorted| == |multiset(sorted)| == |multiset(doc.series)| == |doc.series|;
    forall k | 0 <= k < Written(doc)
      ensures DateKeys.DateKey(r.dates[k])
    {
      assert r.dates[k] == r.At(k).date == sorted[k].date;
      assert sorted[k] in multiset(sorted);
    }
    forall i, j | 0 <= i < j < Written(doc)
      ensures DateKeys.Ymd(r.dates[j]) <= DateKeys.Ymd(r.dates[i])
    {
      DateKeys.LaterDayIsGreater(r.dates[j], r.dates[i]);
    }
    if 0 < Written(doc) {
      forall e | e in doc.series
        ensures DateKeys.Ymd(e.date) <= DateKeys.Ymd(r.dates[0])
      {
        DateKeys.LaterDayIsGreater(e.date, r.dates[0]);
      }
    }
  }

  /** Which entry lands in which slot does not depend on the sorting
      algorithm: any descending arrangement of the document's entries gives
      the same slots. */
  lemma SlotsIndependentOfSort(st: State, doc: Document, code: int, t: seq<Entry>)
    requires st.series.Valid() && code > 0
    requires KeyedByDate(multiset(doc.series))
    requires multiset(t) == multiset(doc.series) && Descending(t)
    ensures forall k :: 0 <= k < Written(doc) ==>
              FetchStockData(st, Response(code, Parsed(doc))).series.At(k) == t[k].ToCandle()
  {
    SortIsUnique(doc.series, t);
    SlotsWritten(st, doc, code);
  }

  /** Fetching the same answer twice leaves the same state as fetching it
      once. */
  lemma FetchIdempotent(st: State, o: Outcome)
    requires st.series.Valid()
    ensures FetchStockData(FetchStockData(st, o), o) == FetchStockData(st, o)
  {
    if Accepted(o) {
      var once := FetchStockData(st, o);
      var twice := FetchStockData(once, o);
      SeriesExtensional(twice.series, once.series);
    }
  }

  /** The unsorted keys `2024-01-05`, `2024-01-03`, `2024-01-04` fill slots
      0, 1, 2 newest first; slots 3..9 are untouched, and the labels show the
      newest entry. */
  lemma ThreeDayExample(st: State, e3: Entry, e4: Entry, e5: Entry)
    requires st.series.Valid()
    requires e3.date == "2024-01-03" && e4.date == "2024-01-04" && e5.date == "2024-01-05"
    ensures var r := FetchStockData(st, Response(200, Parsed(Document("TSLA", "2024-01-05", [e5, e3, e4]))));
            && r.series.At(0) == e5.ToCandle() && r.series.At(1) == e4.ToCandle() && r.series.At(2) == e3.ToCandle()
            && (forall k :: 3 <= k < Slots ==> r.series.At(k) == st.series.At(k))
            && r.labels.date == e5.date
  {
    DateKeys.ExampleDates();
    StoresThreeDays(st, Document("TSLA", "2024-01-05", [e5, e3, e4]), e3, e4, e5);
  }

  lemma StoresThreeDays(st: State, doc: Document, e3: Entry, e4: Entry, e5: Entry)
    requires st.series.Valid() && doc.series == [e5, e3, e4]
    requires CppString.Less(e3.date, e4.date) && CppString.Less(e4.date, e5.date)
    ensures var r := FetchStockData(st, Response(200, Parsed(doc)));
            && r.series.At(0) == e5.ToCandle() && r.series.At(1) == e4.ToCandle() && r.series.At(2) == e3.ToCandle()
            && (forall k :: 3 <= k < Slots ==> r.series.At(k) == st.series.At(k))
            && r.labels.date == e5.date
  {
    SortThree(e3, e4, e5);
  }
}
