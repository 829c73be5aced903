# schedule_jive — a Dafny model of the schedule engine

`main.py` is a Streamlit page. It reads an Excel workbook with one weekly
attendance sheet per tab. It collects who is busy at which instant, lets the
user form groups of people, and shows, for every sheet and group, the
instants at which no member is busy as a weekly calendar of `가능`
(available) and `불가능` (unavailable) cells. This project models the engine
behind that page; the widgets are left out.

- `Temporal` (`temporal.dfy`): the values a cell can hold (blank, a
  `datetime`, or anything else seen through `str()`), the week start (a
  `datetime`, or text in `%d/%m/%Y`), the chain of five time formats tried in
  order with the first success winning, the seven dates of the week, and the
  `%H:%M` row label. The two 24-hour formats `%H:%M` and `%H:%M:%S` are written
  out digit by digit. `%d/%m/%Y` and the other three time formats are partial
  functions supplied in a `Library` value.
- `Strings` (`strings.dfy`): Python's `str.strip()` (with `str.isspace()`'s
  set of whitespace), `str.split(",")` and the string order that `sorted` uses.
- `Extraction` (`extraction.dfy`): one sheet. The start cell is at frame
  row 1, column 2, the time column at rows 4–37, column 1, and the attendee
  matrix at rows 4–37, columns 2–8. The nested row, date and name loops are
  methods proved equal to specification functions. Time row `i` is always read
  with matrix row `i`, so a skipped row never shifts later rows.
- `Aggregation` (`aggregation.dfy`): the sheet loop. Sheets are taken in
  workbook order, and a sheet with an unreadable start date is reported and
  skipped. Records are appended to the global schedule, names are collected in
  a set, and the set is sorted at the end.
- `Availability` (`availability.dfy`): one group on one sheet. It covers the
  busy instants of the members and the grid of every parsed slot on every
  date. The available instants are the grid minus the busy ones. The calendar
  is an `array2` that starts all free and is marked in place once per busy
  instant, on every cell whose `%H:%M` label and date match.

Dates are day ordinals: a date's `%Y-%m-%d` label determines the date, so
comparing labels is comparing ordinals. Times keep hour, minute, second and
microsecond. The calendar's row label keeps only hour and minute.
`Availability.CalendarAgrees` proves that the calendar and the set of
available instants say the same thing whenever the label determines the slot;
`Availability.WholeMinuteLabels` shows that it does for whole-minute slots.
`Availability.CalendarTakenIff` shows that, when two slots share a label
(`09:00` and `09:00:30`), one busy instant marks both rows.

Spreadsheet time-only cells reach the chain as the text `HH:MM:SS`.
`Temporal.TimeTextParses` proves that such text fails `%H:%M` and is read back
exactly by `%H:%M:%S`, whatever the other recognizers do.

The artefact filter drops exactly the empty name and the two spellings
`_x001E_` and `_x001e_` that the code compares against. Other capitalisations
such as `_X001E_` are kept as names, although a case-insensitive reading of
the artefact would drop them.

## Model

| member | source | states |
|---|---|---|
| `Temporal.ParseTimeValue` | main.py:63-84 | For a non-blank time cell: a `datetime` gives its own time; other text is stripped and tried against the formats in order; the result is the row's time, or none when every format fails. |
| `Temporal.FirstMatchWins` | main.py:68-81 | The chain yields `t` exactly when some format yields `t` and every earlier format fails. |
| `Temporal.FirstMatchFails` | main.py:75-84 | The chain fails exactly when every format fails, which is when the row is skipped. |
| `Temporal.Field` | main.py:69-70 | An accepted `%H`, `%M` or `%S` field is one or two ASCII digits and within its range (hour at most 23, minute and second at most 59); its value printed back with `%02d` is the field itself, zero-padded when it had one digit. |
| `Temporal.ParseHourMinute` | main.py:69 | A time read with `%H:%M` has second and microsecond zero. |
| `Temporal.ParseHourMinuteSecond` | main.py:70 | A time read with `%H:%M:%S` has microsecond zero. |
| `Temporal.TimeTextParses` | main.py:64-78 | A time whose text is `HH:MM:SS` fails `%H:%M` and is recovered exactly by `%H:%M:%S`. |
| `Temporal.TimeLabelRoundTrip` | main.py:192 | A slot's `%H:%M` row label reads back under `%H:%M` as the slot's hour and minute. |
| `Temporal.TimeLabelInjective` | main.py:200 | Two times share a row label exactly when they agree on hour and minute; seconds are dropped. |
| `Temporal.Dates` | main.py:48 | The week has exactly seven dates, the k-th being the start plus k days. |
| `Temporal.DatesDistinct` | main.py:48 | The seven dates are pairwise distinct, so a date names at most one calendar column. |
| `Strings.TrimShape` | main.py:90 | `strip()` leaves a run of the text that neither starts nor ends with whitespace, with only whitespace removed before and after it. |
| `Strings.TrimIdempotent` | main.py:93 | Stripping an already stripped name changes nothing. |
| `Strings.Split` | main.py:90 | Splitting gives at least one piece and no piece holds the separator. |
| `Strings.JoinSplit` | main.py:90 | Joining the pieces with the separator gives back the text: splitting loses no character. |
| `Strings.SplitJoin` | main.py:90 | Splitting a join of separator-free pieces gives back the pieces. |
| `Strings.SplitConcat` | main.py:90 | Text on either side of a separator splits independently, in order. |
| `Strings.LessIrreflexive` | main.py:115 | No name sorts before itself. |
| `Strings.LessTransitive` | main.py:115 | The string order is transitive. |
| `Strings.LessTotal` | main.py:115 | Of two different names, one sorts before the other. |
| `Extraction.CellRecords` | main.py:90-101 | One attendee cell gives one record per kept name, in order and at the cell's instant, and adds exactly those names to the set. |
| `Extraction.RowRecordsOf` | main.py:86-101 | A parsed time row gives the records of its seven cells, date by date, and their names. |
| `Extraction.WalkRows` | main.py:59-101 | The row loop skips blank rows silently, reports and skips unparseable ones, and reads matrix row `i` with time row `i`; its records, names and errors are those of the specification. |
| `Extraction.ExtractSheet` | main.py:37-110 | A sheet with an unreadable start date gives no bundle, only its error, and adds no names. Any other sheet gives its bundle (name, start, dates, raw times, records), its time errors, and its record names added to the known set. |
| `Extraction.UnreadableStart` | main.py:37-43 | A start date that is neither a `datetime` nor readable as `%d/%m/%Y` skips the sheet with only the start-date error. |
| `Extraction.Stamped` | main.py:97-101 | Every kept name gives exactly one record. |
| `Extraction.StampedMembers` | main.py:97-101 | The records of a cell are exactly its names at the cell's instant. |
| `Extraction.KeptNamesMembers` | main.py:92-96 | A name is kept exactly when some token strips to it and it is neither empty nor one of the two artefact spellings. |
| `Extraction.KeptNamesConcat` | main.py:92-96 | The filter works token by token: tokens of two runs are filtered independently, in order. |
| `Extraction.CellNamesMembers` | main.py:90-96 | The names of a cell are its comma-separated pieces, stripped, minus the empty ones and the artefact. |
| `Extraction.CellNamesClean` | main.py:90-96 | Every kept name is non-empty, not an artefact, already stripped and free of commas. |
| `Extraction.CellNamesSplit` | main.py:90-101 | A cell `a,b` gives the names of `a` followed by those of `b`. |
| `Extraction.CellNamesSingle` | main.py:90-96 | A cell without a comma gives its stripped text, unless that text is dropped. |
| `Extraction.CellNamesRepeated` | main.py:92-101 | A name written twice in one cell gives two records: duplicates are not merged. |
| `Extraction.CellNamesArtefactOnly` | main.py:95 | A cell holding only `_x001E_` names nobody. |
| `Extraction.CellNamesArtefact` | main.py:90-96 | Any dropped token between two commas (either artefact spelling, an empty or blank token, with or without padding) disappears without merging its neighbours. |
| `Extraction.RowRecordsMembers` | main.py:86-101 | A record comes from a row exactly when the cell under some date `j` names it, at that date and the row's time. |
| `Extraction.SheetRecordsMembers` | main.py:59-101 | A record belongs to the sheet exactly when some row `i` has a parsed time `t` and the names of that same row under date `j` include it, at date `j` and time `t`. |
| `Extraction.SheetRecordsOfMembers` | main.py:59-87 | Alignment under skipped rows: the same statement in the sheet's own terms. Time cell `i` parses to `t`, and the cell of matrix row `i` (the original index) under date `j` names the record. |
| `Extraction.SheetRecordNamesClean` | main.py:90-101 | No record of a sheet carries an empty, artefact, unstripped or comma-holding name. |
| `Aggregation.Aggregate` | main.py:32-115 | The sheet loop gives the bundles of the readable sheets in workbook order, the concatenation of their records, all errors sheet by sheet, and a strictly sorted name list holding exactly the names of the records. |
| `Aggregation.SortNames` | main.py:115 | Sorting the name set gives a strictly increasing list with exactly the set's names, one entry per name. |
| `Aggregation.Insert` | main.py:115 | Inserting a new name into a strictly sorted list keeps it strictly sorted and adds exactly that name. |
| `Aggregation.SortedUnique` | main.py:115 | Only one strictly sorted list holds a given set of names, so the exposed list is determined by the name set. |
| `Aggregation.BundlesConcat` | main.py:32-110 | Sheets are processed independently and in order: the bundles and errors of a workbook are those of its first part followed by those of the rest. |
| `Aggregation.SkippedSheet` | main.py:37-43 | A sheet with an unreadable start date contributes no bundle and only its error, so with `BundlesConcat` the sheets after it are still processed. |
| `Aggregation.BundlesMembers` | main.py:103-110 | A bundle is in `sheet_data` exactly when some sheet of the workbook extracts to it. |
| `Aggregation.AllRecordsMembers` | main.py:103 | The global schedule holds exactly the records of the bundles. |
| `Availability.TimeGrid` | main.py:153-184 | The slot loop re-parses the time column, keeping the parsed times in row order, and builds the grid slot by slot over every date. |
| `Availability.MarkBusy` | main.py:198-202 | One busy instant takes every cell whose row label is its `%H:%M` label and whose column is its date, and leaves every other cell unchanged. |
| `Availability.BuildCalendar` | main.py:191-202 | The calendar has one row per slot and one column per date; a cell is taken exactly when some busy instant has its label and date, otherwise free. |
| `Availability.GroupView` | main.py:150-202 | One group on one sheet: the available instants are the grid minus the members' busy instants, and the calendar is marked from those busy instants. |
| `Availability.BusyTimesMembers` | main.py:150 | A busy instant is exactly the instant of a record whose name is a member of the group. |
| `Availability.NoMembersNoBusy` | main.py:150 | A group without members has no busy instants. |
| `Availability.ParsedMembers` | main.py:155-180 | The slots are exactly the times of the rows that parse; blank and unparseable rows give none. |
| `Availability.GridMembers` | main.py:180-184 | An instant is on the grid exactly when its time is a slot and its day one of the dates. |
| `Availability.GridSize` | main.py:182-184 | The grid has one instant per slot and date. |
| `Availability.RecordsOnGrid` | main.py:155-184 | Every record of a sheet lies on that sheet's re-parsed grid, so the busy instants are a subset of all instants. |
| `Availability.AvailablePartition` | main.py:187 | When the busy instants lie on the grid, the grid is the disjoint union of the available and the busy instants. |
| `Availability.AvailableMonotone` | main.py:150-187 | Adding members to a group never adds an available instant. |
| `Availability.EmptyGroupFree` | main.py:194-202 | A group without members is available at every instant of the grid, and its calendar is all free. |
| `Availability.CalendarTakenIff` | main.py:198-202 | A cell is unavailable exactly when some member has a record with the cell's `%H:%M` label and date. |
| `Availability.CalendarAgrees` | main.py:187-202 | When a row label determines its slot and the busy instants lie on the grid, a cell is unavailable exactly when its instant is not available. |
| `Availability.WholeMinuteLabels` | main.py:192-200 | Among slots with zero seconds and microseconds, as every `%H:%M` reading gives, two slots with the same `%H:%M` row label are the same slot, so the labelling assumption of the calendar agreement holds. |
| `Availability.SheetCalendarAgrees` | main.py:150-202 | The same agreement for a sheet as the page builds it, where the busy instants come from the sheet's own records. |

## Left out

- The Streamlit page: layout, title, uploader, group-count input, group names and member pickers, button, subheaders and columns (main.py:1-14, 118-147, 214). The loops over sheets and groups at main.py:139-147 only lay out results; one iteration is `Availability.GroupView`.
- Reading the workbook with pandas. A sheet is given as its frame, a list of rows of cells, and positions are frame positions.
- Extraction.Extract: requires every frame row to have at least nine cells. The source reads columns 3–8 only when a time row parses, and raises `IndexError` on a narrower frame; those frames are not modelled.
- Extraction.ExtractSheet: the same nine-cell requirement as `Extraction.Extract`.
- The recognizers `%d/%m/%Y`, `%I:%M %p`, `%I:%M:%S %p` and `%Y-%m-%d %H:%M:%S` are not written out. They are partial functions in a `Library` value, because their parsing (month and AM/PM names, leap years) lives inside `datetime.strptime`.
- Temporal.Field: reads ASCII digits only. `strptime`'s `\d` also accepts other Unicode decimal digits.
- Temporal.TimeTextParses: covers times without microseconds. A time-only cell with microseconds prints with a fraction that none of the five formats accepts.
- `timedelta` and `strftime`: dates are day ordinals, and a date's `%Y-%m-%d` label is compared through its ordinal.
- The error messages of `st.error` (main.py:42, 83): only which error is reported, with its sheet and value, is kept.
- Sorting `available_times` (main.py:188): the sorted list is never read afterwards.
- Cell styling and HTML rendering (main.py:204-212).
- pandas' handling of duplicate row labels is modelled as marking every row that carries the label, which is what assigning through a non-unique index does.
