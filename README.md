# Vehicle accident report catalog, modelled in Dafny

This project models the sequential accident-report catalog of
`Vehicle_Accident_Report_System.cpp`. It covers:

- an `AccidentReport` whose constructor rejects a damage cost that is not positive;
- the ordering `operator>` (greater damage cost is more severe);
- the one-line text form that `logAccident` appends to the log file, and the
  stream reads with which `loadReports` reads records back;
- the in-memory list of reports: the three operations that change it
  (`loadReports`, `addReport`, `sortReports`), the listing `viewReports`, and
  the query `compareReports`.

Modules, leaf first:

| file | module | models |
|---|---|---|
| `wrappers.dfy` | `Wrappers` | `Option` and `Result`, used for failed stream reads and thrown exceptions |
| `accident_report.dfy` | `Accident` | the report, its constructor, `operator>`, decimal text for the cost, `displayReport` |
| `report_codec.dfy` | `ReportCodec` | the `logAccident` line, the `getline`/`>>`/`ignore` reads, the records `loadReports` accepts, and the round trip |
| `report_sort.dfy` | `ReportSort` | the order `list::sort` produces with the "higher cost first" comparator |
| `report_catalog.dfy` | `ReportCatalog` | `find_if` and `compareReports`; the list as class `ReportList` with `Load`, `Add`, `View`, `Sort` |

How the model represents the program:

- The damage cost is an `int`. It is written in full decimal and read back as
  optional white space, an optional sign and a run of digits.
- An input stream is the text still unread. Each read returns what it
  extracted and the text that remains.
  - `getline(fin, x, ',')` fails only when nothing is left. It reads up to a
    comma or to the end, and newlines are ordinary characters to it.
  - `fin >> cost` skips white space first.
  - `fin.ignore()` drops one character.
- Each exception is a `Result` error or an outcome value.
  - `invalid_argument` is `Accident.NonPositiveCost`.
  - `runtime_error` from `logAccident` is `ReportCodec.CannotOpenForWriting`.
- The file is text passed in by the caller. `Load` gets `None` when the file
  cannot be opened. `Add` gets the log's current text and a flag saying
  whether it opens, and returns the new text.
- Console input is passed in as method parameters.
- Console output is a value. `View` returns the lines it would print.
  `compareReports` returns one of four `Severity` outcomes, one per message.
- The cost label line holds the characters U+00E2 U+201A U+00B9 after
  "Damage Cost: ". That is what the source file contains: a rupee sign whose
  UTF-8 bytes were encoded a second time.

What is proved:

- **Round trip.** `LoadRoundTrip`: a log file holding the lines of valid reports
  whose three text fields contain no comma loads back those reports exactly,
  in order. A newline inside a field does no harm, because fields end only at
  commas.
  - `addReport` reads the location with `getline(cin, …)`, so a location can
    contain a comma. Such a report does not load back as the same report.
- **Load.** `loadReports` only appends, so earlier contents stay a prefix.
  - A record with a cost that is not positive is skipped, and reading goes on.
  - The first record that cannot be read ends loading.
  - `TextWithoutCommaJoinsNextId`: a line with no commas is not skipped. It
    becomes the start of the next record's id.
- **Sort.** `sortReports` leaves the list non-increasing by cost, a
  permutation of its input, and stable. `StableSortIsUnique` shows that these
  three properties determine the result. So any stable sort with this
  comparator, `std::list::sort` included, gives the same list as the model's
  insertion sort.

## Model

| member | source | states |
|---|---|---|
| `Accident.NewReport` | Vehicle_Accident_Report_System.cpp:18-24 | fails exactly when cost <= 0; otherwise the report stores the four given values and is valid |
| `Accident.DefaultConstructionFails` | Vehicle_Accident_Report_System.cpp:18-19 | the default arguments (cost 0.0) are always rejected |
| `Accident.MoreSevere` | Vehicle_Accident_Report_System.cpp:48-50 | a report is never more severe than itself or than a report of equal cost |
| `Accident.MoreSevereIsStrictOrder` | Vehicle_Accident_Report_System.cpp:48-50 | `operator>` is irreflexive, asymmetric and transitive |
| `Accident.SeverityTrichotomy` | Vehicle_Accident_Report_System.cpp:48-50 | at most one of a > b and b > a holds; neither holds exactly when the costs are equal |
| `Accident.ShowNat` | Vehicle_Accident_Report_System.cpp:39 | the cost's text is a non-empty string of digits |
| `Accident.ShowIntText` | Vehicle_Accident_Report_System.cpp:39 | the cost as `<<` writes it is a run of digits, after a minus sign when negative, and contains no comma or newline, so it cannot break a log line |
| `Accident.ShowNatValue` | Vehicle_Accident_Report_System.cpp:39 | reading back the digits written for n gives n |
| `Accident.DisplayLines` | Vehicle_Accident_Report_System.cpp:27-33 | one report displays as a block of exactly five lines |
| `ReportCodec.LogAccident` | Vehicle_Accident_Report_System.cpp:36-41 | fails exactly when the file cannot be opened; otherwise the old text is kept as a prefix and exactly one log line follows it |
| `ReportCodec.LogLineShape` | Vehicle_Accident_Report_System.cpp:39 | the logged line ends in a newline, and for fields without commas it holds exactly the three separating commas |
| `ReportCodec.LogTextAppend` | Vehicle_Accident_Report_System.cpp:37-39 | logging a report puts its line after all earlier lines |
| `ReportCodec.ReadField` | Vehicle_Accident_Report_System.cpp:60 | `getline(…, ',')` fails exactly on empty input; otherwise the field has no comma and is followed by a consumed comma or by the end |
| `ReportCodec.SkipSpace` | Vehicle_Accident_Report_System.cpp:60 | after the white space `>>` skips, the text is empty or starts with a non-space character; text that already starts with one is left as it is |
| `ReportCodec.SkipSpaceDropsOnlySpace` | Vehicle_Accident_Report_System.cpp:60 | what `>>` skips is a prefix of the text, and every skipped character is white space |
| `ReportCodec.SkipSpacePrefix` | Vehicle_Accident_Report_System.cpp:60 | white space in front of a non-space character is skipped entirely, and nothing after it is dropped |
| `ReportCodec.ReadSignSpec` | Vehicle_Accident_Report_System.cpp:60 | only a leading '-' or '+' is consumed, one character, and only '-' makes the cost negative |
| `ReportCodec.ReadMagnitudeSpec` | Vehicle_Accident_Report_System.cpp:60 | the number fails exactly when no digit follows the sign; otherwise it consumes the whole run of digits and has their value, negated after '-' |
| `ReportCodec.Ignore` | Vehicle_Accident_Report_System.cpp:61 | `ignore()` drops exactly one character when there is one, and nothing at the end of the stream |
| `ReportCodec.TakeDigits` | Vehicle_Accident_Report_System.cpp:60 | the number token is the longest run of digits at the front |
| `ReportCodec.ReadCost` | Vehicle_Accident_Report_System.cpp:60 | a successful `fin >> cost` consumes at least one character |
| `ReportCodec.ReadRecord` | Vehicle_Accident_Report_System.cpp:60-61 | one loop test plus `ignore()` consumes input whenever it succeeds |
| `ReportCodec.LoadedFrom` | Vehicle_Accident_Report_System.cpp:54-69 | every report loaded from any text has a positive cost |
| `ReportCodec.Accepted` | Vehicle_Accident_Report_System.cpp:62-66 | the constructor's filter keeps only valid reports, and keeps a list of valid reports whole |
| `ReportCodec.ReadFieldDelimited` | Vehicle_Accident_Report_System.cpp:60 | a comma-free field followed by a comma reads back as that field, and the rest is left unread |
| `ReportCodec.ReadCostAfterSpace` | Vehicle_Accident_Report_System.cpp:60 | a written cost preceded by white space reads back as the same integer |
| `ReportCodec.ReadCostShowInt` | Vehicle_Accident_Report_System.cpp:60 | the written cost reads back as the same integer, and the next non-digit is left unread |
| `ReportCodec.ReadRecordLogLine` | Vehicle_Accident_Report_System.cpp:60-61 | a logged line of a comma-free report reads back as all four fields, and `ignore()` consumes its newline |
| `ReportCodec.LoadedFromStep` | Vehicle_Accident_Report_System.cpp:62-66 | one record read: loading adds it exactly when its cost is valid, then continues with the rest |
| `ReportCodec.LoadLogText` | Vehicle_Accident_Report_System.cpp:54-69 | loading logged lines followed by any text gives the valid logged reports in order, then what that text gives |
| `ReportCodec.LoadRoundTrip` | Vehicle_Accident_Report_System.cpp:36-41 | a file of logged valid comma-free reports loads back exactly those reports, in order |
| `ReportCodec.SkipsNonPositiveCost` | Vehicle_Accident_Report_System.cpp:62-66 | a record with cost <= 0 adds nothing, and the next record is still read |
| `ReportCodec.StopsAtUnreadable` | Vehicle_Accident_Report_System.cpp:60 | after the first unreadable record nothing more is loaded |
| `ReportCodec.LoggedReportLoadsBack` | Vehicle_Accident_Report_System.cpp:85-88 | a report added and logged after earlier ones is loaded after them in the next session |
| `ReportCodec.TextWithoutCommaJoinsNextId` | Vehicle_Accident_Report_System.cpp:60 | text without a comma in front of a record becomes the start of that record's id |
| `ReportCodec.UnreadableRecord` | Vehicle_Accident_Report_System.cpp:60 | three fields followed by a cost field starting with none of a digit, a sign, white space or '.' fail the loop condition |
| `ReportCodec.UnreadableCostStopsLoading` | Vehicle_Accident_Report_System.cpp:60 | a cost field starting with none of a digit, a sign, white space or '.' ends loading at that record, even when good records follow |
| `ReportSort.InsertByCost` | Vehicle_Accident_Report_System.cpp:130-133 | inserting adds exactly one report, and the result starts with it or with the old first report |
| `ReportSort.SortByCost` | Vehicle_Accident_Report_System.cpp:130-133 | the sorted list is a permutation of the input |
| `ReportSort.SortIsNonIncreasing` | Vehicle_Accident_Report_System.cpp:130-133 | the sorted list is non-increasing by damage cost |
| `ReportSort.InsertKeepsTies` | Vehicle_Accident_Report_System.cpp:130-133 | an inserted report goes first in its own cost group; other groups are unchanged |
| `ReportSort.SortIsStable` | Vehicle_Accident_Report_System.cpp:130-133 | reports of equal cost keep their relative order |
| `ReportSort.StableSortIsUnique` | Vehicle_Accident_Report_System.cpp:130-133 | two lists sorted by cost with the same cost groups are equal, so the stable sort's result is unique |
| `ReportSort.HeadBoundsGroup` | Vehicle_Accident_Report_System.cpp:130-133 | in a sorted list, the first report's cost bounds every cost present |
| `ReportCatalog.FindFirst` | Vehicle_Accident_Report_System.cpp:114-115 | `find_if` gives none exactly when the id is absent; otherwise the first position holding it |
| `ReportCatalog.Compare` | Vehicle_Accident_Report_System.cpp:114-127 | "not found" exactly when either id is absent; otherwise the first report with each id decides, and first higher / second higher / same hold exactly when a > b / b > a / the costs are equal |
| `ReportCatalog.CompareWithItself` | Vehicle_Accident_Report_System.cpp:122-127 | comparing a present id with itself gives "same" |
| `ReportCatalog.CompareSwapped` | Vehicle_Accident_Report_System.cpp:122-127 | swapping the two ids swaps "first higher" and "second higher" and keeps the others |
| `ReportCatalog.ReportList.constructor` | Vehicle_Accident_Report_System.cpp:138 | the list starts empty |
| `ReportCatalog.ReportList.Load` | Vehicle_Accident_Report_System.cpp:54-69 | a file that cannot be opened leaves the list unchanged; otherwise the loaded records are appended after the old contents; every report stays valid |
| `ReportCatalog.ReportList.Add` | Vehicle_Accident_Report_System.cpp:72-95 | cost <= 0: list and file unchanged. Otherwise exactly one report is appended at the end, also when the file fails, and the file gets that report's line only when it opens |
| `ReportCatalog.ReportList.View` | Vehicle_Accident_Report_System.cpp:97-105 | an empty list prints only "No reports found."; otherwise five labelled lines per report, in list order |
| `ReportCatalog.ReportList.Sort` | Vehicle_Accident_Report_System.cpp:130-135 | the new list is non-increasing by cost, a permutation of the old one, and keeps the order of equal costs |

## Left out

- `car_Trip_plane.cpp` as a whole, the threaded telemetry simulator. Its
  substance is two threads sharing a mutex, an unsynchronised stop flag, timed
  sleeps, random sampling and floating-point ETA arithmetic. None of that is
  sequential logic this model could state.
- Real file and console I/O. Opening the files, the `cin` prompts and the
  printing are replaced by parameters and returned values, as described above.
- Console tokenisation in `addReport`. `cin >> id` and `cin >> vnum` read
  words without white space, and a failed `cin >> cost` stores 0. The model
  takes the four values as given.
- The confirmation messages "Report added successfully!" and "Reports sorted
  by damage cost (High to Low).", and the exact wording of the compare
  messages. An outcome value stands for each message.
- The cost as a `double`.
  - `operator<<` prints six significant digits, so large costs appear in
    exponent form.
  - `>>` accepts fractions and exponents.
  - NaN compares differently.
  - The model uses an integer cost with a plain decimal token. It claims no
    textual round trip for doubles. A cost field with a fraction (".5" or
    "1.5") is read differently by the model: it stops at the '.' where
    `double` extraction reads on. The failure lemmas therefore exclude a
    field that starts with '.'.
- ReportCodec.ReadCost: its own contract states only that a successful read
  makes progress. What it reads is stated by the lemmas `ReadCostShowInt` and
  `UnreadableCostStopsLoading`, not by a full characterisation.
- ReportCatalog.ReportList.View: it returns whole lines without their
  trailing newlines, not one character stream.
- The interactive menu loop of `main` (lines 137-166), which is dispatch glue.
