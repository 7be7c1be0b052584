# Stock quote selection and candlestick layout

A Dafny model of the deterministic core of the stock-price sketch
(`02-Stock-Price-Display/PIO/src/main.cpp`). The sketch fetches a daily time
series and keeps the ten most recent days in five parallel arrays
(`openValues`, `highValues`, `lowValues`, `closeValues`, `dates`). It then
draws those ten days as a candlestick chart and records every object it
creates in `candleObjects`, so that `clearCandleChart` can delete them later.

The model has eight modules:

- `Wrappers`: the `Option` type used for results that may be absent.
- `CppString`: the two `std::string` operations the sketch relies on. One is
  the lexicographic `operator<`, which the sort comparator `a.first > b.first`
  uses. The other is `substr`, which throws `std::out_of_range` when the
  position is past the end.
- `DateKeys`: the `YYYY-MM-DD` keys of the time series. For any two such
  keys, the string order is proved to be the order of the days they name.
- `Quotes`: one time-series entry, the ten-slot arrays read slot by slot, and
  the descending sort by date key. The sort is proved to produce a descending
  permutation. When dates identify entries, it is the only such permutation.
- `Fetch`: `fetchStockData` with WiFi, HTTP and JSON reduced to an `Outcome`
  value. The outcome is either `NotConnected`, or a status code together with
  the parsed document or a parse failure. The function decides whether the
  arrays and the summary labels change, and what goes into each slot.
- `Geometry`: the fixed chart constants (`chartX = 62`, `chartY = 320`,
  `chartHeight = 245`, `candleWidth = 380 / 10 - 5 = 33`). It also holds
  `std::min_element` and `std::max_element`, and the one price-to-row map
  `565 - 245 * (p - min) / range`. That map is computed in real arithmetic
  and then truncated toward zero, as a C++ float-to-`int` conversion does.
- `Chart`: `drawCandleChart` and `clearCandleChart`. The active screen is a
  sequence of objects, each with an identity. `candleObjects` is a sequence
  of those identities. Each created object is an abstract primitive: a
  `Shadow`, a `Body`, a `DayLabel` or an `AxisLabel`, carrying the position,
  size, colour or text that the sketch passes to the widget library. The
  status panel's colour is part of the display state.
- `Startup`: what `setup` does with the two parts. It fetches once and then
  draws once, unconditionally.

Behaviour the model exhibits as the code is written:

- Any positive HTTP status is parsed and stored, including 404 and 500. Only
  `httpCode <= 0` is treated as a failed GET.
- The chart has six y-axis labels (`j = 0 .. 5`), not five.
- `drawCandleChart` divides by `maxValue - minValue` without a guard.
  `Chart.DrawCandleChart` therefore requires that range to be non-zero. The
  ordering facts (higher price, higher on screen) are proved where the range
  is positive.
- `dates[9 - i].substr(8, 2)` throws on a date shorter than eight characters.
  The slots that a fetch never wrote still hold the empty string. If the
  series has fewer than ten entries, the first candle drawn therefore ends
  the program. The model returns `Aborted(record)` for this case.
- Dates are compared as strings. Their descending order matches the calendar
  only because keys are fixed-width `YYYY-MM-DD` (`DateKeys.LaterDayIsGreater`).

## Model

| member | source | states |
|---|---|---|
| `CppString.Less` | 02-Stock-Price-Display/PIO/src/main.cpp:66-68 | `std::string`'s `operator<`, defined on its own: the first differing character decides, and a proper prefix is smaller; its order laws are the lemmas below |
| `CppString.LessIrreflexive` | 02-Stock-Price-Display/PIO/src/main.cpp:66-68 | no date key is greater than itself under the string order the sort comparator uses |
| `CppString.LessAsymmetric` | 02-Stock-Price-Display/PIO/src/main.cpp:66-68 | if `a < b` then not `b < a`, so the comparator `a.first > b.first` is a strict order |
| `CppString.LessTransitive` | 02-Stock-Price-Display/PIO/src/main.cpp:66-68 | the string order is transitive |
| `CppString.LessTotal` | 02-Stock-Price-Display/PIO/src/main.cpp:66-68 | two different keys are always ordered one way or the other |
| `CppString.NotLessIsGreaterOrEqual` | 02-Stock-Price-Display/PIO/src/main.cpp:66-68 | "not `a < b`" holds exactly when `b <= a` |
| `CppString.LessOrEqualTransitive` | 02-Stock-Price-Display/PIO/src/main.cpp:66-68 | "at most" on keys is transitive, so the descending order of the sorted keys chains |
| `CppString.LessConcat` | 02-Stock-Price-Display/PIO/src/main.cpp:66-68 | for two strings whose first parts have equal length, the first parts decide the order, and the rest decides only when the first parts are equal |
| `CppString.LessSkipsCommonHead` | 02-Stock-Price-Display/PIO/src/main.cpp:66-68 | a common first character does not affect the order |
| `DateKeys.Num` | 02-Stock-Price-Display/PIO/src/main.cpp:65-68 | the value of a digit string is below `10^length` |
| `DateKeys.DigitsCompareAsNumbers` | 02-Stock-Price-Display/PIO/src/main.cpp:65-68 | digit strings of equal length compare as strings exactly as their decimal values compare, and are equal exactly when their values are |
| `DateKeys.LaterDayIsGreater` | 02-Stock-Price-Display/PIO/src/main.cpp:65-68 | for any two `YYYY-MM-DD` keys, the string order holds exactly when the first names an earlier day (earlier year, then month, then day), and exactly when its `yyyymmdd` value is smaller |
| `DateKeys.ExampleDates` | 02-Stock-Price-Display/PIO/src/main.cpp:65-68 | three literal pairs, one across a year boundary, compare as their days do |
| `CppString.Substr` | 02-Stock-Price-Display/PIO/src/main.cpp:185 | `substr` throws exactly when the position is past the end; otherwise it returns `min(count, len - pos)` characters copied from `pos` on |
| `Quotes.Zeroed` | 02-Stock-Price-Display/PIO/src/main.cpp:13-18 | before any fetch, every slot holds zero prices and an empty date |
| `Quotes.Series.Write` | 02-Stock-Price-Display/PIO/src/main.cpp:73-77 | the five assignments at index `k` make slot `k` read back as the stored candle, and every other slot reads as before |
| `Quotes.Insert` | 02-Stock-Price-Display/PIO/src/main.cpp:66-68 | inserting into a descending sequence keeps it descending and adds exactly the one entry (multiset) |
| `Quotes.SortDescending` | 02-Stock-Price-Display/PIO/src/main.cpp:59-68 | the sorted entries are a permutation of the document's entries with no date smaller than a later one |
| `Quotes.FirstIsNewest` | 02-Stock-Price-Display/PIO/src/main.cpp:65-68 | in a descending sequence, every entry's date is at most the first entry's date |
| `Quotes.DescendingPermutationUnique` | 02-Stock-Price-Display/PIO/src/main.cpp:59-68 | if dates identify entries, two descending permutations of the same entries are equal |
| `Quotes.SortIsUnique` | 02-Stock-Price-Display/PIO/src/main.cpp:66-68 | when dates identify entries, the modelled sort yields the same sequence as any other sort honouring the comparator, such as `std::sort` |
| `Quotes.SortThree` | 02-Stock-Price-Display/PIO/src/main.cpp:66-68 | entries given as `d5, d3, d4` with `d3 < d4 < d5` come out as `d5, d4, d3` |
| `Quotes.SortExample` | 02-Stock-Price-Display/PIO/src/main.cpp:66-68 | keys `2024-01-05, 2024-01-03, 2024-01-04` sort to `2024-01-05, 2024-01-04, 2024-01-03` |
| `Fetch.CopyRecent` | 02-Stock-Price-Display/PIO/src/main.cpp:71-77 | the copy loop writes slot `k` from sorted entry `k` for `k < min(10, n)`; earlier and later slots keep their contents |
| `Fetch.FetchStockData` | 02-Stock-Price-Display/PIO/src/main.cpp:29-119 | with no WiFi, a code `<= 0` or a parse error, the state is unchanged; otherwise slots below `n` hold sorted entries, slots from `n` on are unchanged, and the labels show the newest entry when there is one |
| `Fetch.ShowLatest` | 02-Stock-Price-Display/PIO/src/main.cpp:84-109 | the label update: symbol and refresh time from the document, date, prices and volume from one entry; `Fetch.LabelsShowNewest` says which entry |
| `Fetch.LabelsShowNewest` | 02-Stock-Price-Display/PIO/src/main.cpp:84-109 | after a fetch with at least one entry, the labels show the document's symbol and refresh time and every field of the newest entry, the one stored in slot 0, whose date bounds every date of the series |
| `Fetch.Written` | 02-Stock-Price-Display/PIO/src/main.cpp:71 | the number of written slots is `min(10, n)` |
| `Fetch.ChangesOnlyWhenAccepted` | 02-Stock-Price-Display/PIO/src/main.cpp:29-48 | if the state changes, WiFi was connected, the code was positive and the JSON parsed |
| `Fetch.AnyPositiveCodeIsParsed` | 02-Stock-Price-Display/PIO/src/main.cpp:33-35 | any positive status code gives the same result as 200, so non-2xx responses are stored too |
| `Fetch.SlotsWritten` | 02-Stock-Price-Display/PIO/src/main.cpp:71-77 | exactly the first `min(10, n)` slots receive sorted entries; the slots from `min(10, n)` on keep their old contents |
| `Fetch.SlotsComeFromOneEntry` | 02-Stock-Price-Display/PIO/src/main.cpp:72-77 | the date, open, high, low and close of a written slot all come from one entry of the document |
| `Fetch.NewestFirst` | 02-Stock-Price-Display/PIO/src/main.cpp:65-77 | the written slots are in descending date order, and slot 0 holds the greatest date of the whole series |
| `Fetch.NewestDayFirst` | 02-Stock-Price-Display/PIO/src/main.cpp:65-77 | when every key is a `YYYY-MM-DD` date, the written slots run from the most recent day backwards, and slot 0 holds the latest day of the whole series |
| `Fetch.SlotsIndependentOfSort` | 02-Stock-Price-Display/PIO/src/main.cpp:66-77 | when dates identify entries, the written slots equal those of any descending arrangement of the entries |
| `Fetch.FetchIdempotent` | 02-Stock-Price-Display/PIO/src/main.cpp:23-120 | fetching the same outcome twice leaves the same state as fetching it once |
| `Fetch.ThreeDayExample` | 02-Stock-Price-Display/PIO/src/main.cpp:65-108 | three unsorted days fill slots 0..2 newest first, leave slots 3..9 untouched, and show the newest date on the label |
| `Fetch.StoresThreeDays` | 02-Stock-Price-Display/PIO/src/main.cpp:65-108 | the same for any entries with dates `d3 < d4 < d5` given in the order `d5, d3, d4` |
| `Geometry.Trunc` | 02-Stock-Price-Display/PIO/src/main.cpp:139-142 | the float-to-`int` conversion drops the fraction toward zero: the result lies within one of the value, on the zero side |
| `Geometry.TruncMonotone` | 02-Stock-Price-Display/PIO/src/main.cpp:139-142 | truncation never reverses the order of two values |
| `Geometry.MinOf` | 02-Stock-Price-Display/PIO/src/main.cpp:130 | `min_element` returns an element of the array that is no greater than any element |
| `Geometry.MaxOf` | 02-Stock-Price-Display/PIO/src/main.cpp:131 | `max_element` returns an element of the array that is no smaller than any element |
| `Geometry.PriceY` | 02-Stock-Price-Display/PIO/src/main.cpp:139-142 | the price-to-row map `chartY + chartHeight - chartHeight * (p - minValue) / valueRange`, converted to `int`; defined only for a non-zero range; its properties are the three lemmas below |
| `Geometry.PriceYAntitone` | 02-Stock-Price-Display/PIO/src/main.cpp:139-142 | with a positive range, a higher price never gets a larger row |
| `Geometry.PriceYEnds` | 02-Stock-Price-Display/PIO/src/main.cpp:130-142 | the minimum maps to row 565 (`chartY + chartHeight`) and the maximum maps to row 320 (`chartY`) |
| `Geometry.PriceYInChart` | 02-Stock-Price-Display/PIO/src/main.cpp:130-142 | prices between the minimum and the maximum land on rows 320..565 |
| `Geometry.CandlesSideBySide` | 02-Stock-Price-Display/PIO/src/main.cpp:123-138 | candle `i` starts at `62 + 35 * i`; candles do not overlap and all ten fit in the 380-pixel width |
| `Chart.Display.Create` | 02-Stock-Price-Display/PIO/src/main.cpp:159-207 | creating objects for a list of primitives keeps the old screen and list as prefixes, appends one object per primitive in order, lists every new object's id, and on a valid display gives ids no earlier object has |
| `Chart.ScaleOf` | 02-Stock-Price-Display/PIO/src/main.cpp:130-132 | `minValue` is a low of the data and at most every low; `minValue + valueRange` is a high and at least every high |
| `Chart.CandleParts` | 02-Stock-Price-Display/PIO/src/main.cpp:137-189 | one candle yields a shadow, a body and a day label, or aborts exactly when its date is shorter than eight characters |
| `Chart.CandlesUpTo` | 02-Stock-Price-Display/PIO/src/main.cpp:137-190 | the candle loop yields three primitives per slot in slot order, or aborts at the first slot whose date is too short |
| `Chart.AxisLabels` | 02-Stock-Price-Display/PIO/src/main.cpp:193-208 | six axis labels are created, all at x `chartX - 40` |
| `Chart.DrawCandleChart` | 02-Stock-Price-Display/PIO/src/main.cpp:122-208 | drawing completes iff every date has at least 8 characters; otherwise it aborts at the oldest short date; when complete, it appends exactly 3·10+6 = 36 objects and list entries, keeps what was there, and leaves the status panel in the colour of record 0 |
| `Chart.CandleGeometry` | 02-Stock-Price-Display/PIO/src/main.cpp:138-189 | drawing slot `i` shows record `9 - i`; its shadow is 5 pixels wide and spans the high and low rows; the body is green iff close > open; the day label is characters 8..9 of the date |
| `Chart.CandleBoxes` | 02-Stock-Price-Display/PIO/src/main.cpp:139-178 | with a positive range, the body starts at the smaller of the open and close rows and has height equal to their difference, never negative; the shadow stays inside rows 320..565 and has non-negative height when low <= high |
| `Chart.AxisRow` | 02-Stock-Price-Display/PIO/src/main.cpp:193-196 | axis label `j` lies on row `565 - 49 * j`: `j = 0` at the bottom, `j = 5` at the top |
| `Chart.DrawnCandle` | 02-Stock-Price-Display/PIO/src/main.cpp:159-189 | objects `3i .. 3i+2` of a drawing are the parts of candle `i`, each with a fresh id that is pushed onto `candleObjects` |
| `Chart.DrawnAxisLabel` | 02-Stock-Price-Display/PIO/src/main.cpp:194-207 | object `30 + j` is axis label `j`, placed ten pixels above row `565 - 49 * j` |
| `Chart.StatusOfLastCandle` | 02-Stock-Price-Display/PIO/src/main.cpp:150-156 | the status panel ends in the body colour of the last candle drawn |
| `Chart.OldestDateTooShort` | 02-Stock-Price-Display/PIO/src/main.cpp:137-185 | the oldest record is drawn first, so a short date there aborts the whole drawing |
| `Chart.Remove` | 02-Stock-Price-Display/PIO/src/main.cpp:213-216 | deleting the listed objects keeps exactly the objects whose ids are not listed |
| `Chart.RemoveCounts` | 02-Stock-Price-Display/PIO/src/main.cpp:213-216 | every unlisted object stays as many times as it occurred, and no listed object stays |
| `Chart.RemoveAppend` | 02-Stock-Price-Display/PIO/src/main.cpp:213-216 | deletion keeps order: the survivors of two consecutive runs of objects are those of the first run followed by those of the second |
| `Chart.RemoveIgnoresAbsentIds` | 02-Stock-Price-Display/PIO/src/main.cpp:213-216 | listing ids that no object has changes nothing |
| `Chart.RemoveAllListed` | 02-Stock-Price-Display/PIO/src/main.cpp:213-216 | if every object is listed, nothing is left |
| `Chart.RemoveNothing` | 02-Stock-Price-Display/PIO/src/main.cpp:213-216 | deleting with an empty list keeps every object |
| `Chart.ClearCandleChart` | 02-Stock-Price-Display/PIO/src/main.cpp:211-218 | `candleObjects` becomes empty; an object stays on screen iff its id was not listed, as many times as it was there |
| `Chart.ClearAfterCreate` | 02-Stock-Price-Display/PIO/src/main.cpp:159-217 | objects created and pushed onto `candleObjects` are all deleted by the next clear, and nothing else changes |
| `Chart.ClearUndoesDraw` | 02-Stock-Price-Display/PIO/src/main.cpp:122-218 | clearing after a drawing leaves the same screen as clearing before it; with an empty list, clearing restores the screen as it was before the drawing |
| `Startup.NothingStoredLeavesZeroRange` | 02-Stock-Price-Display/PIO/src/main.cpp:29-58 | after a first fetch that stores nothing (it fails, or the reply has no time-series entries) the arrays are still zero, so the range is 0 and the drawing would divide by zero |
| `Startup.ShortSeriesAbortsDrawing` | 02-Stock-Price-Display/PIO/src/main.cpp:253-254 | after a first fetch with fewer than ten entries, drawing aborts at record 9, whose date is still empty |

## Left out

- WiFi, `HTTPClient`, URL building and the API key (lines 24-33, 37, 116): these are network I/O. The model takes the outcome of the attempt as an input.
- ArduinoJson (lines 41-42, 51-52, 58-63, 73-76): this is a foreign library. The document comes in already parsed into entries. The model does not handle missing members and their default values.
- `float` and `%.2f` / `%d` formatting: prices are `real`. Labels hold the values, not their text. The 10-character `snprintf` buffers are not modelled. Neither is float rounding, which could move a row by one pixel. NaN and out-of-range float-to-`int` conversions are not modelled either.
- Serial logging, `setup`'s hardware bring-up and WiFi wait loop, and `loop` / `lv_task_handler`: these are hardware and I/O. Only the fetch-then-draw order of `setup` is used.
- The widget library's styling calls (opacity, radius, white text colour): these carry constants only. Only positions, sizes, the candle colour and the label text are recorded.
- `Fetch.FetchStockData`: when two entries share a date key, `std::sort` may order them either way. The model fixes one order. `Quotes.SortIsUnique` shows that the order is forced when dates identify entries, as the keys of a JSON object do.
- `Chart.DrawCandleChart`: requires `maxValue != minValue`. The source divides by that range without a guard, so the zero case has no defined behaviour to model.
- `Chart.DrawCandleChart`: an aborted drawing stands for the uncaught `std::out_of_range`. The objects created before the throw are not modelled, because the program ends there.
- `CppString.Substr`: `std::string` holds bytes, while the model's `string` holds characters. The length test and the two copied characters agree for the ASCII `YYYY-MM-DD` keys; a key with a multi-byte UTF-8 character before position 8 is not modelled byte for byte.
- `Chart.CandleParts`: for the same reason, its abort condition and day label count characters, not bytes; the two agree for ASCII date keys.
- The `01-HA-Dashboard` sketch and its timer tasks are not part of this model.
