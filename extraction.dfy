/**
 * Sheet extraction: from one sheet's frame to its bundle of seven dates, raw
 * time column and busy records.
 *
 * Positions are those `iloc` counts: the start date at row 1, column 2; the
 * time column at rows 4 to 37, column 1; the attendee matrix at rows 4 to 37,
 * columns 2 to 8. A time row that is blank or matches no format contributes
 * nothing, and matrix row `i` is only ever read together with time row `i`.
 */
module Extraction {
  import opened Wrappers
  import opened Strings
  import opened Temporal

  /** `{"name": name, "datetime": datetime.combine(date, time)}` */
  datatype BusyRecord = BusyRecord(name: string, when: Instant)

  /** One worksheet: its name and its frame, as a list of rows of cells. */
  datatype Sheet = Sheet(name: string, grid: seq<seq<Cell>>)

  /** One entry of `sheet_data`; `times` is the raw time column, kept unparsed. */
  datatype SheetBundle = SheetBundle(
    sheetName: string,
    start: int,
    dates: seq<int>,
    times: seq<Cell>,
    records: seq<BusyRecord>)

  /** The two reported errors; the message text is not modelled. */
  datatype Diagnostic =
    | BadStartDate(sheet: string, cell: Cell)
    | BadTime(sheet: string, text: string)

  /** A frame the positional accessors can read without an `IndexError`. */
  predicate Fits(g: seq<seq<Cell>>) {
    |g| >= 2 && forall row | row in g :: |row| >= 9
  }

  function StartCell(g: seq<seq<Cell>>): Cell
    requires Fits(g)
  {
    g[1][2]
  }

  /** How many of the rows 4 to 37 the frame has: `iloc[4:38]` stops at the end. */
  function TimeRowCount(g: seq<seq<Cell>>): nat {
    if |g| <= 4 then 0 else if |g| >= 38 then 34 else |g| - 4
  }

  /** `df.iloc[4:38, 1]` */
  function TimeColumn(g: seq<seq<Cell>>): (times: seq<Cell>)
    requires Fits(g)
    ensures |times| == TimeRowCount(g)
  {
    seq(TimeRowCount(g), i requires 0 <= i < TimeRowCount(g) => g[4 + i][1])
  }

  /** `df.iloc[4:38, 2:9]`, row by row */
  function Matrix(g: seq<seq<Cell>>): (m: seq<seq<Cell>>)
    requires Fits(g)
    ensures |m| == TimeRowCount(g)
    ensures forall i :: 0 <= i < |m| ==> |m[i]| == 7
  {
    seq(TimeRowCount(g), i requires 0 <= i < TimeRowCount(g) => g[4 + i][2..9])
  }

  /** `str(cell)` of a cell that is not blank. */
  function CellString(c: Cell): string
    requires !c.Blank?
  {
    if c.Stamp? then c.shown else c.text
  }

  /** The names the source throws away: empty, or one of the two spellings of the artefact. */
  predicate Dropped(name: string) {
    name == "" || name == "_x001E_" || name == "_x001e_"
  }

  /** `[name.strip() for name in s.split(",")]` */
  function StrippedTokens(s: string): (tokens: seq<string>)
    ensures |tokens| == |Split(s, ',')|
    ensures forall k :: 0 <= k < |tokens| ==> tokens[k] == Trim(Split(s, ',')[k])
  {
    var parts := Split(s, ',');
    seq(|parts|, k requires 0 <= k < |parts| => Trim(parts[k]))
  }

  /** The tokens kept by the name loop, stripped once more, in order, duplicates kept. */
  function KeptNames(tokens: seq<string>): seq<string> {
    if tokens == [] then [] else KeptNames(tokens[..|tokens| - 1]) + Keep(tokens[|tokens| - 1])
  }

  /** The name loop's test on one token: strip it, keep it unless it is dropped. */
  function Keep(token: string): seq<string> {
    var name := Trim(token);
    if Dropped(name) then [] else [name]
  }

  /** The names one attendee cell contributes; a blank cell contributes none. */
  function CellNames(c: Cell): seq<string> {
    if c.Blank? then [] else KeptNames(StrippedTokens(CellString(c)))
  }

  /** One record per name, all at the same instant. */
  function Stamped(names: seq<string>, when: Instant): (rs: seq<BusyRecord>)
    ensures |rs| == |names|
  {
    if names == [] then []
    else Stamped(names[..|names| - 1], when) + [BusyRecord(names[|names| - 1], when)]
  }

  /** The names of each cell of one matrix row. */
  function RowNames(row: seq<Cell>): (names: seq<seq<string>>)
    ensures |names| == |row|
  {
    seq(|row|, j requires 0 <= j < |row| => CellNames(row[j]))
  }

  /** The records of the first `n` cells of a row whose cells name `names`, for the row's time `t`. */
  function RowRecords(names: seq<seq<string>>, dates: seq<int>, t: Time, n: nat): seq<BusyRecord>
    requires n <= |names| && n <= |dates|
  {
    if n == 0 then []
    else RowRecords(names, dates, t, n - 1) + Stamped(names[n - 1], Instant(dates[n - 1], t))
  }

  /** The shape the row loop needs: a matrix row of seven cells per time row, seven dates. */
  predicate Aligned(times: seq<Cell>, matrix: seq<seq<Cell>>, dates: seq<int>) {
    |matrix| == |times| && |dates| == 7 && forall i :: 0 <= i < |matrix| ==> |matrix[i]| == 7
  }

  /** The parsed time of each time row; `None` marks a row that is skipped. */
  function RowTimes(lib: Library, times: seq<Cell>): (slots: seq<Option<Time>>)
    ensures |slots| == |times|
  {
    seq(|times|, i requires 0 <= i < |times| => RowTime(lib, times[i]))
  }

  /** The names of every cell of the matrix, row by row. */
  function MatrixNames(matrix: seq<seq<Cell>>): (names: seq<seq<seq<string>>>)
    ensures |names| == |matrix|
  {
    seq(|matrix|, i requires 0 <= i < |matrix| => RowNames(matrix[i]))
  }

  /** Row times and cell names of the same rows, seven cells and seven dates. */
  predicate Shaped(slots: seq<Option<Time>>, names: seq<seq<seq<string>>>, dates: seq<int>) {
    |names| == |slots| && |dates| == 7 && forall i :: 0 <= i < |names| ==> |names[i]| == 7
  }

  /** The records of one time row: none unless its time parsed, then those of its cells. */
  function RowBlock(slot: Option<Time>, names: seq<seq<string>>, dates: seq<int>): seq<BusyRecord>
    requires |names| == 7 && |dates| == 7
  {
    match slot
    case None => []
    case Some(t) => RowRecords(names, dates, t, 7)
  }

  /** The records of the first `n` time rows; row `i` pairs `slots[i]` with `names[i]`. */
  function SheetRecords(slots: seq<Option<Time>>, names: seq<seq<seq<string>>>, dates: seq<int>, n: nat)
    : seq<BusyRecord>
    requires Shaped(slots, names, dates) && n <= |slots|
  {
    if n == 0 then []
    else SheetRecords(slots, names, dates, n - 1) + RowBlock(slots[n - 1], names[n - 1], dates)
  }

  /** The records of a whole sheet, from its time column, matrix and dates. */
  function SheetRecordsOf(lib: Library, times: seq<Cell>, matrix: seq<seq<Cell>>, dates: seq<int>)
    : seq<BusyRecord>
    requires Aligned(times, matrix, dates)
  {
    SheetRecords(RowTimes(lib, times), MatrixNames(matrix), dates, |times|)
  }

  /** The error one time cell reports: only text that matches no format. */
  function TimeDiag(lib: Library, sheetName: string, timeCell: Cell): seq<Diagnostic> {
    match timeCell
    case Text(s) => if ParseTimeText(lib, Trim(s)).None? then [BadTime(sheetName, Trim(s))] else []
    case _ => []
  }

  /** The time errors reported for the first `n` time rows. */
  function TimeDiags(lib: Library, sheetName: string, times: seq<Cell>, n: nat): seq<Diagnostic>
    requires n <= |times|
  {
    if n == 0 then []
    else TimeDiags(lib, sheetName, times, n - 1) + TimeDiag(lib, sheetName, times[n - 1])
  }

  function NameSet(records: seq<BusyRecord>): set<string> {
    set r | r in records :: r.name
  }

  /** The bundle of one sheet, or `None` when its start date cannot be read. */
  function Extract(lib: Library, sheet: Sheet): Option<SheetBundle>
    requires Fits(sheet.grid)
  {
    match StartDate(lib, StartCell(sheet.grid))
    case None => None
    case Some(d) =>
      var times := TimeColumn(sheet.grid);
      Some(SheetBundle(sheet.name, d, Dates(d), times, SheetRecordsOf(lib, times, Matrix(sheet.grid), Dates(d))))
  }

  /** The errors one sheet reports. */
  function SheetDiags(lib: Library, sheet: Sheet): seq<Diagnostic>
    requires Fits(sheet.grid)
  {
    match StartDate(lib, StartCell(sheet.grid))
    case None => [BadStartDate(sheet.name, StartCell(sheet.grid))]
    case Some(_) => TimeDiags(lib, sheet.name, TimeColumn(sheet.grid), TimeRowCount(sheet.grid))
  }

  /** A sheet whose start date cannot be read gives no bundle and reports only that. */
  lemma UnreadableStart(lib: Library, sheet: Sheet)
    requires Fits(sheet.grid) && StartDate(lib, StartCell(sheet.grid)).None?
    ensures Extract(lib, sheet) == None
    ensures SheetDiags(lib, sheet) == [BadStartDate(sheet.name, StartCell(sheet.grid))]
  {
  }

  /**
   * The name loop of one non-blank attendee cell: split on commas, strip,
   * drop empty and sentinel names, and emit one record per remaining name.
   */
  method CellRecords(cell: Cell, when: Instant) returns (records: seq<BusyRecord>, names: set<string>)
    requires !cell.Blank?
    ensures records == Stamped(CellNames(cell), when)
    ensures names == NameSet(records)
  {
    var tokens := StrippedTokens(CellString(cell));
    records, names := [], {};
    for k := 0 to |tokens|
      invariant records == Stamped(KeptNames(tokens[..k]), when)
      invariant names == NameSet(records)
    {
      var name := Trim(tokens[k]);
      KeptNamesStep(tokens, k);
      if Dropped(name) {
        assert KeptNames(tokens[..k + 1]) == KeptNames(tokens[..k]);
        continue;
      }
      assert KeptNames(tokens[..k + 1]) == KeptNames(tokens[..k]) + [name];
      StampedAppend(KeptNames(tokens[..k]), name, when);
      NameSetAppend(records, BusyRecord(name, when));
      names := names + {name};
      records := records + [BusyRecord(name, when)];
    }
    assert tokens[..|tokens|] == tokens;
  }

  /** The date loop of one parsed time row: the cells of matrix row `row`, one per date. */
  method RowRecordsOf(row: seq<Cell>, dates: seq<int>, t: Time) returns (records: seq<BusyRecord>, names: set<string>)
    requires |row| == 7 && |dates| == 7
    ensures records == RowRecords(RowNames(row), dates, t, 7)
    ensures names == NameSet(records)
  {
    records, names := [], {};
    for j := 0 to |dates|
      invariant records == RowRecords(RowNames(row), dates, t, j)
      invariant names == NameSet(records)
    {
      var cell := row[j];
      if cell.Blank? {
        assert CellNames(cell) == [];
        continue;
      }
      var cellRecords, cellNames := CellRecords(cell, Instant(dates[j], t));
      NameSetConcat(records, cellRecords);
      records := records + cellRecords;
      names := names + cellNames;
    }
  }

  /**
   * The time-row loop: rows are visited by their original index `i`; a blank
   * row is skipped silently, an unparseable one is reported and skipped, and
   * a parsed one reads matrix row `i`.
   */
  method WalkRows(lib: Library, sheetName: string, times: seq<Cell>, matrix: seq<seq<Cell>>, dates: seq<int>)
    returns (records: seq<BusyRecord>, names: set<string>, diags: seq<Diagnostic>)
    requires Aligned(times, matrix, dates)
    ensures records == SheetRecordsOf(lib, times, matrix, dates)
    ensures names == NameSet(records)
    ensures diags == TimeDiags(lib, sheetName, times, |times|)
  {
    records, names, diags := [], {}, [];
    for i := 0 to |times|
      invariant records == SheetRecords(RowTimes(lib, times), MatrixNames(matrix), dates, i)
      invariant names == NameSet(records)
      invariant diags == TimeDiags(lib, sheetName, times, i)
    {
      if times[i].Blank? {
        assert RowTimes(lib, times)[i] == None;
        assert TimeDiag(lib, sheetName, times[i]) == [];
        continue;
      }
      var time := ParseTimeValue(lib, times[i]);
      if time.None? {
        assert RowTimes(lib, times)[i] == None;
        diags := diags + [BadTime(sheetName, Trim(times[i].text))];
        continue;
      }
      var rowRecords, rowNames := RowRecordsOf(matrix[i], dates, time.value);
      assert RowTimes(lib, times)[i] == time && MatrixNames(matrix)[i] == RowNames(matrix[i]);
      assert TimeDiag(lib, sheetName, times[i]) == [];
      NameSetConcat(records, rowRecords);
      records := records + rowRecords;
      names := names + rowNames;
    }
  }

  /**
   * The body of the sheet loop: read the start date (skipping the sheet when
   * it fails), derive the seven dates, walk the time rows and add every kept
   * name to `known`.
   */
  method ExtractSheet(lib: Library, sheet: Sheet, known: set<string>)
    returns (bundle: Option<SheetBundle>, names: set<string>, diags: seq<Diagnostic>)
    requires Fits(sheet.grid)
    ensures bundle == Extract(lib, sheet)
    ensures names == known + (if bundle.Some? then NameSet(bundle.value.records) else {})
    ensures diags == SheetDiags(lib, sheet)
  {
    var startCell := StartCell(sheet.grid);
    var start := StartDate(lib, startCell);
    if start.None? {
      return None, known, [BadStartDate(sheet.name, startCell)];
    }
    var dates := Dates(start.value);
    var times := TimeColumn(sheet.grid);
    var matrix := Matrix(sheet.grid);
    var records, seen;
    records, seen, diags := WalkRows(lib, sheet.name, times, matrix, dates);
    names := known + seen;
    bundle := Some(SheetBundle(sheet.name, start.value, dates, times, records));
  }

  lemma KeptNamesStep(tokens: seq<string>, k: nat)
    requires k < |tokens|
    ensures var name := Trim(tokens[k]);
      KeptNames(tokens[..k + 1]) == KeptNames(tokens[..k]) + (if Dropped(name) then [] else [name])
  {
    assert tokens[..k + 1][..k] == tokens[..k];
  }

  lemma StampedAppend(names: seq<string>, name: string, when: Instant)
    ensures Stamped(names + [name], when) == Stamped(names, when) + [BusyRecord(name, when)]
  {
    assert (names + [name])[..|names|] == names;
  }

  lemma NameSetAppend(records: seq<BusyRecord>, r: BusyRecord)
    ensures NameSet(records + [r]) == NameSet(records) + {r.name}
  {
    assert forall x | x in records + [r] :: x in records || x == r;
  }

  lemma NameSetConcat(a: seq<BusyRecord>, b: seq<BusyRecord>)
    ensures NameSet(a + b) == NameSet(a) + NameSet(b)
  {
    assert forall x | x in a + b :: x in a || x in b;
  }

  // ---------------------------------------------------------------------------
  // Properties of the name filter

  /** A name is kept exactly when it is not dropped and some token strips to it. */
  lemma {:induction false} KeptNamesMembers(tokens: seq<string>, n: string)
    ensures n in KeptNames(tokens) <==>
      !Dropped(n) && exists k :: 0 <= k < |tokens| && Trim(tokens[k]) == n
  {
    if tokens != [] {
      var init := tokens[..|tokens| - 1];
      KeptNamesMembers(init, n);
      assert forall k :: 0 <= k < |init| ==> init[k] == tokens[k];
    }
  }

  /** Tokens of separate pieces of text are filtered independently and keep their order. */
  lemma {:induction false} KeptNamesConcat(a: seq<string>, b: seq<string>)
    ensures KeptNames(a + b) == KeptNames(a) + KeptNames(b)
  {
    if b == [] {
      assert a + b == a;
    } else {
      var init, last := b[..|b| - 1], b[|b| - 1];
      assert KeptNames(a + b) == KeptNames(a + init) + Keep(last) by {
        assert a + b == (a + init) + [last];
        KeptNamesSnoc(a + init, last);
      }
      assert KeptNames(b) == KeptNames(init) + Keep(last) by {
        assert b == init + [last];
        KeptNamesSnoc(init, last);
      }
      KeptNamesConcat(a, init);
      var x, y, z := KeptNames(a), KeptNames(init), Keep(last);
      assert (x + y) + z == x + (y + z);
    }
  }

  lemma KeptNamesSnoc(tokens: seq<string>, token: string)
    ensures KeptNames(tokens + [token]) == KeptNames(tokens) + Keep(token)
  {
    assert (tokens + [token])[..|tokens|] == tokens;
  }

  /**
   * The names of a cell are its comma-separated pieces, stripped, minus the
   * empty ones and the two artefact spellings.
   */
  lemma CellNamesMembers(c: Cell, n: string)
    requires !c.Blank?
    ensures n in CellNames(c) <==>
      !Dropped(n) && exists p :: p in Split(CellString(c), ',') && Trim(p) == n
  {
    var parts := Split(CellString(c), ',');
    var tokens := StrippedTokens(CellString(c));
    KeptNamesMembers(tokens, n);
    forall k | 0 <= k < |tokens| ensures Trim(tokens[k]) == Trim(parts[k]) {
      TrimIdempotent(parts[k]);
    }
  }

  /** Every kept name is non-empty, not an artefact, already stripped and free of commas. */
  lemma CellNamesClean(c: Cell, n: string)
    requires n in CellNames(c)
    ensures !Dropped(n) && Trim(n) == n && ',' !in n
  {
    CellNamesMembers(c, n);
    var p :| p in Split(CellString(c), ',') && Trim(p) == n;
    TrimIdempotent(p);
    TrimShape(p);
  }

  /**
   * A cell `a,b` yields the names of `a` followed by those of `b`: nothing is
   * merged, so a name written twice gives two records.
   */
  lemma CellNamesSplit(a: string, b: string)
    ensures CellNames(Text(a + [','] + b)) == CellNames(Text(a)) + CellNames(Text(b))
  {
    SplitConcat(a, b, ',');
    assert StrippedTokens(a + [','] + b) == StrippedTokens(a) + StrippedTokens(b);
    KeptNamesConcat(StrippedTokens(a), StrippedTokens(b));
  }

  /** A cell without a comma names its stripped text, unless that text is dropped. */
  lemma CellNamesSingle(s: string)
    requires ',' !in s
    ensures CellNames(Text(s)) == if Dropped(Trim(s)) then [] else [Trim(s)]
  {
    SplitNoSeparator(s, ',');
    assert StrippedTokens(s) == [Trim(s)];
    TrimIdempotent(s);
    assert KeptNames([Trim(s)]) == KeptNames([]) + Keep(Trim(s));
  }

  /** A name written twice in one cell is kept twice: the filter does not merge duplicates. */
  lemma CellNamesRepeated(a: string)
    requires ',' !in a && !Dropped(Trim(a))
    ensures CellNames(Text(a + [','] + a)) == [Trim(a), Trim(a)]
  {
    CellNamesSplit(a, a);
    CellNamesSingle(a);
  }

  /** A cell holding only the artefact names nobody. */
  lemma CellNamesArtefactOnly()
    ensures CellNames(Text("_x001E_")) == []
  {
    TrimFixed("_x001E_");
    CellNamesSingle("_x001E_");
  }

  /**
   * A dropped token written between two commas (an artefact in either
   * spelling, an empty or all-blank token, possibly padded with blanks)
   * vanishes without merging its neighbours.
   */
  lemma CellNamesArtefact(a: string, d: string, b: string)
    requires ',' !in d && Dropped(Trim(d))
    ensures CellNames(Text(a + [','] + d + [','] + b)) == CellNames(Text(a)) + CellNames(Text(b))
  {
    var rest := d + [','] + b;
    assert a + [','] + d + [','] + b == a + [','] + rest;
    CellNamesSplit(a, rest);
    DroppedHead(d, b);
  }

  lemma DroppedHead(d: string, b: string)
    requires ',' !in d && Dropped(Trim(d))
    ensures CellNames(Text(d + [','] + b)) == CellNames(Text(b))
  {
    CellNamesSplit(d, b);
    CellNamesSingle(d);
  }

  // ---------------------------------------------------------------------------
  // Properties of the record list

  lemma {:induction false} StampedMembers(names: seq<string>, when: Instant, r: BusyRecord)
    ensures r in Stamped(names, when) <==> r.name in names && r.when == when
  {
    if names != [] {
      var init := names[..|names| - 1];
      StampedMembers(init, when, r);
      assert names == init + [names[|names| - 1]];
    }
  }

  lemma {:induction false} RowRecordsMembers(names: seq<seq<string>>, dates: seq<int>, t: Time, n: nat, r: BusyRecord)
    requires n <= |names| && n <= |dates|
    ensures r in RowRecords(names, dates, t, n) <==>
      exists j :: 0 <= j < n && r.name in names[j] && r.when == Instant(dates[j], t)
  {
    if n > 0 {
      RowRecordsMembers(names, dates, t, n - 1, r);
      StampedMembers(names[n - 1], Instant(dates[n - 1], t), r);
    }
  }

  /**
   * Alignment under skipped rows: a record belongs to the sheet exactly when
   * some row `i` has a parsed time `t`, and the names of that same row under
   * date `j` include it, at `dates[j]` and `t`.
   */
  lemma {:induction false} SheetRecordsMembers(
    slots: seq<Option<Time>>, names: seq<seq<seq<string>>>, dates: seq<int>, n: nat, r: BusyRecord)
    requires Shaped(slots, names, dates) && n <= |slots|
    ensures r in SheetRecords(slots, names, dates, n) <==>
      exists i, j :: 0 <= i < n && 0 <= j < 7 && slots[i].Some? &&
        r.name in names[i][j] && r.when == Instant(dates[j], slots[i].value)
  {
    if n > 0 {
      SheetRecordsMembers(slots, names, dates, n - 1, r);
      match slots[n - 1]
      case None =>
      case Some(t) =>
        RowRecordsMembers(names[n - 1], dates, t, 7, r);
    }
  }

  /**
   * The records of a sheet, in the source's terms: time row `i` parses to `t`
   * and the cell of matrix row `i` (the same original index) under date `j`
   * names the record, at `dates[j]` and `t`.
   */
  lemma SheetRecordsOfMembers(lib: Library, times: seq<Cell>, matrix: seq<seq<Cell>>, dates: seq<int>, r: BusyRecord)
    requires Aligned(times, matrix, dates)
    ensures r in SheetRecordsOf(lib, times, matrix, dates) <==>
      exists i, j :: 0 <= i < |times| && 0 <= j < 7 && RowTime(lib, times[i]).Some? &&
        r.name in CellNames(matrix[i][j]) && r.when == Instant(dates[j], RowTime(lib, times[i]).value)
  {
    var slots, names := RowTimes(lib, times), MatrixNames(matrix);
    SheetRecordsMembers(slots, names, dates, |times|, r);
    forall i, j | 0 <= i < |times| && 0 <= j < 7
      ensures slots[i] == RowTime(lib, times[i]) && names[i][j] == CellNames(matrix[i][j])
    {
    }
  }

  /** No record of a sheet carries an empty, artefact, unstripped or comma-holding name. */
  lemma SheetRecordNamesClean(lib: Library, times: seq<Cell>, matrix: seq<seq<Cell>>, dates: seq<int>, r: BusyRecord)
    requires Aligned(times, matrix, dates)
    requires r in SheetRecordsOf(lib, times, matrix, dates)
    ensures !Dropped(r.name) && Trim(r.name) == r.name && ',' !in r.name
  {
    SheetRecordsMembers(RowTimes(lib, times), MatrixNames(matrix), dates, |times|, r);
    var i, j :| 0 <= i < |times| && 0 <= j < 7 && RowTimes(lib, times)[i].Some? &&
      r.name in MatrixNames(matrix)[i][j];
    CellNamesClean(matrix[i][j], r.name);
  }
}
