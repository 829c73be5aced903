/**
 * Aggregation over a workbook: the sheets are processed in workbook order,
 * a sheet whose start date cannot be read is reported and skipped, the
 * records of every processed sheet are appended to the global schedule, and
 * the names seen are collected in a set and finally sorted.
 */
module Aggregation {
  import opened Wrappers
  import opened Strings
  import opened Temporal
  import opened Extraction

  /** Every sheet of the workbook is wide and tall enough to be read. */
  predicate Readable(book: seq<Sheet>) {
    forall k :: 0 <= k < |book| ==> Fits(book[k].grid)
  }

  /**
   * `f` applied to every element, in order. The source has no such helper:
   * its sheet loop calls the extraction once per sheet. The per-sheet
   * outcomes and errors are stated through this map over a function value so
   * that the workbook-level definitions do not expand the whole extraction
   * of every sheet wherever they are mentioned.
   */
  function Map<A, B>(f: A --> B, xs: seq<A>): (ys: seq<B>)
    requires forall k :: 0 <= k < |xs| ==> f.requires(xs[k])
    ensures |ys| == |xs|
  {
    seq(|xs|, k requires 0 <= k < |xs| => f(xs[k]))
  }

  /** The extraction of one readable sheet, as a function value. */
  function ExtractWith(lib: Library): Sheet --> Option<SheetBundle> {
    (sheet: Sheet) requires Fits(sheet.grid) => Extract(lib, sheet)
  }

  /** The errors of one readable sheet, as a function value. */
  function DiagsWith(lib: Library): Sheet --> seq<Diagnostic> {
    (sheet: Sheet) requires Fits(sheet.grid) => SheetDiags(lib, sheet)
  }

  /** What the sheet loop makes of each sheet: its bundle, or `None` when it is skipped. */
  function Outcomes(lib: Library, book: seq<Sheet>): (outcomes: seq<Option<SheetBundle>>)
    requires Readable(book)
    ensures |outcomes| == |book|
  {
    Map(ExtractWith(lib), book)
  }

  /** The bundles of the processed sheets, in order. */
  function Processed(outcomes: seq<Option<SheetBundle>>): seq<SheetBundle> {
    if outcomes == [] then []
    else
      Processed(outcomes[..|outcomes| - 1]) +
        match outcomes[|outcomes| - 1] case None => [] case Some(b) => [b]
  }

  /** `sheet_data`: the bundles of the sheets whose start date was read, in workbook order. */
  function Bundles(lib: Library, book: seq<Sheet>): seq<SheetBundle>
    requires Readable(book)
  {
    Processed(Outcomes(lib, book))
  }

  /** The errors of each sheet, one list per sheet. */
  function SheetErrors(lib: Library, book: seq<Sheet>): (errors: seq<seq<Diagnostic>>)
    requires Readable(book)
    ensures |errors| == |book|
  {
    Map(DiagsWith(lib), book)
  }

  function Flatten(errors: seq<seq<Diagnostic>>): seq<Diagnostic> {
    if errors == [] then [] else Flatten(errors[..|errors| - 1]) + errors[|errors| - 1]
  }

  /** The errors of the whole workbook, sheet after sheet. */
  function BookDiags(lib: Library, book: seq<Sheet>): seq<Diagnostic>
    requires Readable(book)
  {
    Flatten(SheetErrors(lib, book))
  }

  /** `schedule_data`: the records of the bundles, concatenated in order. */
  function AllRecords(bundles: seq<SheetBundle>): seq<BusyRecord> {
    if bundles == [] then [] else AllRecords(bundles[..|bundles| - 1]) + bundles[|bundles| - 1].records
  }

  /** Strictly increasing under Python's string order: sorted and free of duplicates. */
  predicate StrictlySorted(names: seq<string>) {
    forall i, j :: 0 <= i < j < |names| ==> Less(names[i], names[j])
  }

  /** `name` placed into a strictly sorted list that does not hold it yet. */
  function Insert(name: string, sorted: seq<string>): (r: seq<string>)
    requires StrictlySorted(sorted) && name !in sorted
    ensures StrictlySorted(r)
    ensures forall n :: n in r <==> n == name || n in sorted
    ensures |r| == |sorted| + 1
  {
    if sorted == [] then [name]
    else if Less(name, sorted[0]) then
      LessAfterHead(name, sorted);
      [name] + sorted
    else
      LessTotal(name, sorted[0]);
      var tail := Insert(name, sorted[1..]);
      assert forall n :: n in tail ==> Less(sorted[0], n);
      [sorted[0]] + tail
  }

  /** A name below the head of a strictly sorted list is below all of it. */
  lemma LessAfterHead(name: string, sorted: seq<string>)
    requires StrictlySorted(sorted) && sorted != [] && Less(name, sorted[0])
    ensures forall j :: 0 <= j < |sorted| ==> Less(name, sorted[j])
  {
    forall j | 0 < j < |sorted|
      ensures Less(name, sorted[j])
    {
      LessTransitive(name, sorted[0], sorted[j]);
    }
  }

  /** `sorted(list(all_names))`: the names of the set in increasing order. */
  method SortNames(names: set<string>) returns (sorted: seq<string>)
    ensures StrictlySorted(sorted)
    ensures forall n :: n in sorted <==> n in names
    ensures |sorted| == |names|
  {
    sorted := [];
    var rest := names;
    while rest != {}
      invariant rest <= names
      invariant StrictlySorted(sorted)
      invariant forall n :: n in sorted <==> n in names && n !in rest
      invariant |sorted| + |rest| == |names|
      decreases |rest|
    {
      var name :| name in rest;
      sorted := Insert(name, sorted);
      rest := rest - {name};
    }
  }

  /**
   * The sheet loop: every sheet in workbook order; a sheet whose start date
   * fails adds its error and nothing else; the names of the remaining sheets
   * are collected and sorted at the end.
   */
  method Aggregate(lib: Library, book: seq<Sheet>)
    returns (bundles: seq<SheetBundle>, schedule: seq<BusyRecord>, names: seq<string>, diags: seq<Diagnostic>)
    requires Readable(book)
    ensures bundles == Bundles(lib, book)
    ensures schedule == AllRecords(bundles)
    ensures StrictlySorted(names)
    ensures forall n :: n in names <==> n in NameSet(schedule)
    ensures diags == BookDiags(lib, book)
  {
    var known: set<string> := {};
    bundles, schedule, diags := [], [], [];
    ghost var outcomes, errors := Outcomes(lib, book), SheetErrors(lib, book);
    for k := 0 to |book|
      invariant bundles == Processed(outcomes[..k])
      invariant schedule == AllRecords(bundles)
      invariant known == NameSet(schedule)
      invariant diags == Flatten(errors[..k])
    {
      var bundle, seen, sheetDiags := ExtractSheet(lib, book[k], known);
      ProcessedStep(outcomes, k);
      FlattenStep(errors, k);
      diags := diags + sheetDiags;
      if bundle.None? {
        continue;
      }
      NameSetConcat(schedule, bundle.value.records);
      AllRecordsAppend(bundles, bundle.value);
      schedule := schedule + bundle.value.records;
      bundles := bundles + [bundle.value];
      known := seen;
    }
    assert outcomes[..|book|] == outcomes && errors[..|book|] == errors;
    names := SortNames(known);
  }

  lemma ProcessedStep(outcomes: seq<Option<SheetBundle>>, k: nat)
    requires k < |outcomes|
    ensures Processed(outcomes[..k + 1]) ==
      Processed(outcomes[..k]) + match outcomes[k] case None => [] case Some(b) => [b]
  {
    assert outcomes[..k + 1][..k] == outcomes[..k];
  }

  lemma FlattenStep(errors: seq<seq<Diagnostic>>, k: nat)
    requires k < |errors|
    ensures Flatten(errors[..k + 1]) == Flatten(errors[..k]) + errors[k]
  {
    assert errors[..k + 1][..k] == errors[..k];
  }

  lemma AllRecordsAppend(bundles: seq<SheetBundle>, b: SheetBundle)
    ensures AllRecords(bundles + [b]) == AllRecords(bundles) + b.records
  {
    assert (bundles + [b])[..|bundles|] == bundles;
  }

  // ---------------------------------------------------------------------------
  // Properties

  /** There is only one strictly sorted list of a given set of names. */
  lemma {:induction false} SortedUnique(a: seq<string>, b: seq<string>)
    requires StrictlySorted(a) && StrictlySorted(b)
    requires forall n :: n in a <==> n in b
    ensures a == b
  {
    if a != [] && b != [] {
      assert a[0] in b && b[0] in a;
      if a[0] != b[0] {
        var i :| 0 <= i < |a| && a[i] == b[0];
        var j :| 0 <= j < |b| && b[j] == a[0];
        assert Less(a[0], b[0]) && Less(b[0], a[0]);
        LessTransitive(a[0], b[0], a[0]);
        LessIrreflexive(a[0]);
      }
      forall n
        ensures n in a[1..] <==> n in b[1..]
      {
        if n in a[1..] {
          var i :| 0 <= i < |a[1..]| && a[1..][i] == n;
          assert Less(a[0], a[i + 1]);
          LessIrreflexive(a[0]);
          assert n in b && n != b[0];
        }
        if n in b[1..] {
          var i :| 0 <= i < |b[1..]| && b[1..][i] == n;
          assert Less(b[0], b[i + 1]);
          LessIrreflexive(b[0]);
          assert n in a && n != a[0];
        }
      }
      SortedUnique(a[1..], b[1..]);
      assert a == [a[0]] + a[1..] && b == [b[0]] + b[1..];
    } else {
      SameEmptiness(a, b);
    }
  }

  lemma SameEmptiness(a: seq<string>, b: seq<string>)
    requires forall n :: n in a <==> n in b
    ensures a == [] <==> b == []
  {
    if a != [] {
      assert a[0] in a;
    }
    if b != [] {
      assert b[0] in b;
    }
  }

  lemma MapConcat<A, B>(f: A --> B, a: seq<A>, b: seq<A>)
    requires forall k :: 0 <= k < |a| ==> f.requires(a[k])
    requires forall k :: 0 <= k < |b| ==> f.requires(b[k])
    ensures forall k :: 0 <= k < |a + b| ==> f.requires((a + b)[k])
    ensures Map(f, a + b) == Map(f, a) + Map(f, b)
  {
    assert forall k :: 0 <= k < |a + b| ==> (a + b)[k] == if k < |a| then a[k] else b[k - |a|];
  }

  /** Filtering outcomes of two runs of sheets is filtering each run, in order. */
  lemma {:induction false} ProcessedConcat(a: seq<Option<SheetBundle>>, b: seq<Option<SheetBundle>>)
    ensures Processed(a + b) == Processed(a) + Processed(b)
  {
    if b == [] {
      assert a + b == a;
    } else {
      var init, last := b[..|b| - 1], b[|b| - 1];
      var tail := match last case None => [] case Some(x) => [x];
      assert Processed(a + b) == Processed(a + init) + tail by {
        assert (a + b)[..|a + b| - 1] == a + init;
      }
      ProcessedConcat(a, init);
      var x, y := Processed(a), Processed(init);
      assert (x + y) + tail == x + (y + tail);
    }
  }

  lemma {:induction false} FlattenConcat(a: seq<seq<Diagnostic>>, b: seq<seq<Diagnostic>>)
    ensures Flatten(a + b) == Flatten(a) + Flatten(b)
  {
    if b == [] {
      assert a + b == a;
    } else {
      var init, last := b[..|b| - 1], b[|b| - 1];
      assert Flatten(a + b) == Flatten(a + init) + last by {
        assert (a + b)[..|a + b| - 1] == a + init;
      }
      FlattenConcat(a, init);
      var x, y := Flatten(a), Flatten(init);
      assert (x + y) + last == x + (y + last);
    }
  }

  /** Processing a workbook in two halves gives the bundles and errors of each half, in order. */
  lemma BundlesConcat(lib: Library, a: seq<Sheet>, b: seq<Sheet>)
    requires Readable(a) && Readable(b)
    ensures Readable(a + b)
    ensures Bundles(lib, a + b) == Bundles(lib, a) + Bundles(lib, b)
    ensures BookDiags(lib, a + b) == BookDiags(lib, a) + BookDiags(lib, b)
  {
    assert Readable(a + b) by {
      forall k | 0 <= k < |a + b| ensures Fits((a + b)[k].grid) {
        if k >= |a| { assert (a + b)[k] == b[k - |a|]; }
      }
    }
    MapConcat(ExtractWith(lib), a, b);
    MapConcat(DiagsWith(lib), a, b);
    ProcessedConcat(Outcomes(lib, a), Outcomes(lib, b));
    FlattenConcat(SheetErrors(lib, a), SheetErrors(lib, b));
  }

  /**
   * A sheet whose start date cannot be read contributes no bundle and only its
   * error; with `BundlesConcat`, the sheets around it are unaffected.
   */
  lemma SkippedSheet(lib: Library, sheet: Sheet)
    requires Fits(sheet.grid) && StartDate(lib, StartCell(sheet.grid)).None?
    ensures Readable([sheet])
    ensures Bundles(lib, [sheet]) == []
    ensures BookDiags(lib, [sheet]) == [BadStartDate(sheet.name, StartCell(sheet.grid))]
  {
    UnreadableStart(lib, sheet);
    assert Outcomes(lib, [sheet]) == [None];
    assert Processed([None]) == [];
    var e := [BadStartDate(sheet.name, StartCell(sheet.grid))];
    assert SheetErrors(lib, [sheet]) == [e];
    assert Flatten([e]) == Flatten([]) + e;
  }

  /** Each bundle is the extraction of one sheet, and each readable sheet gives its bundle. */
  lemma BundlesMembers(lib: Library, book: seq<Sheet>, b: SheetBundle)
    requires Readable(book)
    ensures b in Bundles(lib, book) <==> exists k :: 0 <= k < |book| && Extract(lib, book[k]) == Some(b)
  {
    var outcomes := Outcomes(lib, book);
    ProcessedMembers(outcomes, b);
    forall k | 0 <= k < |book|
      ensures outcomes[k] == Extract(lib, book[k])
    {
    }
  }

  lemma {:induction false} ProcessedMembers(outcomes: seq<Option<SheetBundle>>, b: SheetBundle)
    ensures b in Processed(outcomes) <==> exists k :: 0 <= k < |outcomes| && outcomes[k] == Some(b)
  {
    if outcomes != [] {
      var init := outcomes[..|outcomes| - 1];
      ProcessedMembers(init, b);
      assert forall k :: 0 <= k < |init| ==> init[k] == outcomes[k];
    }
  }

  /** The global schedule holds exactly the records of the bundles. */
  lemma {:induction false} AllRecordsMembers(bundles: seq<SheetBundle>, r: BusyRecord)
    ensures r in AllRecords(bundles) <==> exists b :: b in bundles && r in b.records
  {
    if bundles != [] {
      var init := bundles[..|bundles| - 1];
      AllRecordsMembers(init, r);
      assert bundles == init + [bundles[|bundles| - 1]];
    }
  }
}
