/**
 The daily quotes of the stock sketch: one time-series entry as the JSON
 document delivers it, the ten-slot parallel arrays the chart reads
 (`openValues`, `highValues`, `lowValues`, `closeValues`, `dates`), and the
 descending sort by date key that orders the entries before they are stored.
 */
module Quotes {
  import CppString
  import DateKeys

  /** Number of slots in each of the five global arrays. */
  const Slots: nat := 10

  /** One `"Time Series (Daily)"` member: its date key and its
      `"1. open"` .. `"5. volume"` fields. */
  datatype Entry = Entry(date: string, open: real, high: real, low: real, close: real, volume: string) {
    /** The part of the entry that is stored in one array slot. */
    function ToCandle(): Candle {
      Candle(date, open, high, low, close)
    }
  }

  /** The five values held at one index of the five parallel arrays. */
  datatype Candle = Candle(date: string, open: real, high: real, low: real, close: real)

  /** The five parallel arrays, each of length `Slots`; index 0 is meant to
      be the most recent trading day. */
  datatype Series = Series(open: seq<real>, high: seq<real>, low: seq<real>, close: seq<real>, dates: seq<string>) {

    predicate Valid() {
      |open| == Slots && |high| == Slots && |low| == Slots && |close| == Slots && |dates| == Slots
    }

    /** The slot at index `k`, read across the five arrays. */
    function At(k: nat): Candle
      requires Valid() && k < Slots
    {
      Candle(dates[k], open[k], high[k], low[k], close[k])
    }

    /** The five assignments `openValues[k] = ...` .. `dates[k] = ...`. */
    function Write(k: nat, c: Candle): (r: Series)
      requires Valid() && k < Slots
      ensures r.Valid()
      ensures r.At(k) == c
      ensures forall j :: 0 <= j < Slots && j != k ==> r.At(j) == At(j)
    {
      Series(open[k := c.open], high[k := c.high], low[k := c.low], close[k := c.close], dates[k := c.date])
    }
  }

  /** The arrays as the program starts: globals are zero-initialised and
      the strings are empty. */
  function Zeroed(): (r: Series)
    ensures r.Valid()
    ensures forall k :: 0 <= k < Slots ==> r.At(k) == Candle("", 0.0, 0.0, 0.0, 0.0)
  {
    Series(seq(Slots, _ => 0.0), seq(Slots, _ => 0.0), seq(Slots, _ => 0.0), seq(Slots, _ => 0.0), seq(Slots, _ => ""))
  }

  /** Two series are equal when they agree slot by slot. */
  lemma SeriesExtensional(a: Series, b: Series)
    requires a.Valid() && b.Valid()
    requires forall k :: 0 <= k < Slots ==> a.At(k) == b.At(k)
    ensures a == b
  {
    assert forall k :: 0 <= k < Slots ==> a.open[k] == a.At(k).open == b.At(k).open == b.open[k];
    assert forall k :: 0 <= k < Slots ==> a.high[k] == a.At(k).high == b.At(k).high == b.high[k];
    assert forall k :: 0 <= k < Slots ==> a.low[k] == a.At(k).low == b.At(k).low == b.low[k];
    assert forall k :: 0 <= k < Slots ==> a.close[k] == a.At(k).close == b.At(k).close == b.close[k];
    assert forall k :: 0 <= k < Slots ==> a.dates[k] == a.At(k).date == b.At(k).date == b.dates[k];
  }

  /** Ordered as the comparator `a.first > b.first` asks: no entry has a
      smaller date key than one placed after it. */
  ghost predicate Descending(s: seq<Entry>) {
    forall i, j :: 0 <= i < j < |s| ==> !CppString.Less(s[i].date, s[j].date)
  }

  /** A JSON object has one member per key: entries with the same date are
      the same entry. */
  ghost predicate KeyedByDate(m: multiset<Entry>) {
    forall x, y :: x in m && y in m && x.date == y.date ==> x == y
  }

  /** Places `e` into a descending sequence, after every entry whose date is
      not smaller than its own. */
  function Insert(e: Entry, s: seq<Entry>): (r: seq<Entry>)
    requires Descending(s)
    ensures Descending(r)
    ensures multiset(r) == multiset(s) + multiset{e}
    ensures forall x :: x in r <==> x in s || x == e
    decreases |s|
  {
    if |s| == 0 then [e]
    else if CppString.Less(s[0].date, e.date) then
      NewestInFront(e, s);
      [e] + s
    else
      var rest := Insert(e, s[1..]);
      KeepHead(s, e, rest);
      [s[0]] + rest
  }

  lemma NewestInFront(e: Entry, s: seq<Entry>)
    requires Descending(s) && |s| > 0 && CppString.Less(s[0].date, e.date)
    ensures Descending([e] + s)
  {
    forall j | 0 <= j < |s|
      ensures !CppString.Less(e.date, s[j].date)
    {
      if j > 0 {
        CppString.NotLessIsGreaterOrEqual(s[0].date, s[j].date);
        if s[j].date != s[0].date {
          CppString.LessTransitive(s[j].date, s[0].date, e.date);
        }
      }
      CppString.LessAsymmetric(s[j].date, e.date);
    }
  }

  lemma KeepHead(s: seq<Entry>, e: Entry, rest: seq<Entry>)
    requires Descending(s) && |s| > 0 && !CppString.Less(s[0].date, e.date)
    requires Descending(rest)
    requires multiset(rest) == multiset(s[1..]) + multiset{e}
    requires forall x :: x in rest <==> x in s[1..] || x == e
    ensures Descending([s[0]] + rest)
    ensures multiset([s[0]] + rest) == multiset(s) + multiset{e}
    ensures forall x :: x in [s[0]] + rest <==> x in s || x == e
  {
    assert s == [s[0]] + s[1..];
    assert forall x :: x in rest ==> !CppString.Less(s[0].date, x.date);
  }

  /** The `std::sort` call with the comparator `a.first > b.first`. */
  function SortDescending(s: seq<Entry>): (r: seq<Entry>)
    ensures Descending(r)
    ensures multiset(r) == multiset(s)
    ensures |r| == |s|
  {
    if |s| == 0 then []
    else
      assert s == [s[0]] + s[1..];
      Insert(s[0], SortDescending(s[1..]))
  }

  /** The first entry of a descending sequence has the greatest date. */
  lemma FirstIsNewest(s: seq<Entry>, e: Entry)
    requires Descending(s) && e in s
    ensures CppString.LessOrEqual(e.date, s[0].date)
  {
    var j :| 0 <= j < |s| && s[j] == e;
    if j > 0 {
      CppString.NotLessIsGreaterOrEqual(s[0].date, e.date);
    } else {
      assert e == s[0];
    }
  }

  /** Two descending arrangements of the same entries start with the same
      entry when dates identify entries. */
  lemma SameNewest(a: seq<Entry>, b: seq<Entry>)
    requires |a| > 0 && multiset(a) == multiset(b)
    requires Descending(a) && Descending(b)
    requires KeyedByDate(multiset(a))
    ensures |b| > 0 && a[0] == b[0]
  {
    assert a[0] in multiset(a);
    assert |b| > 0 by {
      assert |b| == |multiset(b)| == |multiset(a)| == |a|;
    }
    assert b[0] in multiset(b);
    FirstIsNewest(b, a[0]);
    FirstIsNewest(a, b[0]);
  }

  /** Dates still identify entries in a sub-collection. */
  lemma KeyedByDateShrinks(m: multiset<Entry>, m': multiset<Entry>)
    requires KeyedByDate(m) && m' <= m
    ensures KeyedByDate(m')
  {
    forall x, y | x in m' && y in m' && x.date == y.date
      ensures x == y
    {
      assert x in m && y in m;
    }
  }

  lemma SameTail<T>(a: seq<T>, b: seq<T>)
    requires |a| > 0 && |b| > 0 && a[0] == b[0] && multiset(a) == multiset(b)
    ensures multiset(a[1..]) == multiset(b[1..]) && multiset(a[1..]) <= multiset(a)
  {
    assert a == [a[0]] + a[1..] && b == [b[0]] + b[1..];
    assert multiset(a) == multiset{a[0]} + multiset(a[1..]);
    assert multiset(b) == multiset{b[0]} + multiset(b[1..]);
    assert multiset(a[1..]) == multiset(a) - multiset{a[0]};
    assert multiset(b[1..]) == multiset(b) - multiset{b[0]};
  }

  lemma DescendingTail(s: seq<Entry>)
    requires |s| > 0 && Descending(s)
    ensures Descending(s[1..])
  {
  }

  /** When dates identify entries, a descending permutation is unique: any
      sort that honours the comparator yields the same sequence. */
  lemma {:induction false} DescendingPermutationUnique(a: seq<Entry>, b: seq<Entry>)
    requires multiset(a) == multiset(b)
    requires Descending(a) && Descending(b)
    requires KeyedByDate(multiset(a))
    ensures a == b
  {
    if |a| == 0 {
      assert |b| == |multiset(b)| == 0;
    } else {
      SameNewest(a, b);
      var a', b' := a[1..], b[1..];
      SameTail(a, b);
      KeyedByDateShrinks(multiset(a), multiset(a'));
      DescendingTail(a);
      DescendingTail(b);
      DescendingPermutationUnique(a', b');
    }
  }

  /** The sorted order does not depend on the sort algorithm: it is the one
      descending arrangement of the entries. */
  lemma SortIsUnique(s: seq<Entry>, t: seq<Entry>)
    requires multiset(t) == multiset(s) && Descending(t)
    requires KeyedByDate(multiset(s))
    ensures SortDescending(s) == t
  {
    DescendingPermutationUnique(SortDescending(s), t);
  }

  /** Three entries with increasing dates `d3 < d4 < d5`, given in the order
      `d5, d3, d4`, come out newest first. */
  lemma SortThree(e3: Entry, e4: Entry, e5: Entry)
    requires CppString.Less(e3.date, e4.date) && CppString.Less(e4.date, e5.date)
    ensures SortDescending([e5, e3, e4]) == [e5, e4, e3]
  {
    CppString.LessAsymmetric(e3.date, e4.date);
    SortUnfold([e4]);
    SortUnfold([e3, e4]);
    SortUnfold([e5, e3, e4]);
    assert SortDescending([e4]) == [e4];
    assert SortDescending([e3, e4]) == [e4, e3] by {
      assert Insert(e3, [e4]) == [e4] + Insert(e3, []);
    }
  }

  lemma SortUnfold(s: seq<Entry>)
    requires |s| > 0
    ensures SortDescending(s) == Insert(s[0], SortDescending(s[1..]))
  {
  }

  /** The unsorted keys `2024-01-05`, `2024-01-03`, `2024-01-04` come out as
      `2024-01-05`, `2024-01-04`, `2024-01-03`. */
  lemma SortExample(o: real, h: real, l: real, c: real, v: string)
    ensures var e5 := Entry("2024-01-05", o, h, l, c, v);
            var e3 := Entry("2024-01-03", o, h, l, c, v);
            var e4 := Entry("2024-01-04", o, h, l, c, v);
            SortDescending([e5, e3, e4]) == [e5, e4, e3]
  {
    DateKeys.ExampleDates();
    SortThree(Entry("2024-01-03", o, h, l, c, v), Entry("2024-01-04", o, h, l, c, v), Entry("2024-01-05", o, h, l, c, v));
  }
}
