/**
 * Availability of one group on one sheet: the busy instants of the group's
 * members, the grid of every time slot on every date of the week, the
 * instants left free, and the weekly calendar that marks each
 * (`%H:%M` label, date) cell as free or taken.
 */
module Availability {
  import opened Wrappers
  import opened Temporal
  import opened Extraction

  /** A calendar cell: `가능` (free) or `불가능` (taken). */
  datatype Mark = Free | Taken

  /** `busy_times`: the instants of the records whose name is a member, in record order. */
  function BusyTimes(records: seq<BusyRecord>, members: seq<string>): seq<Instant> {
    if records == [] then []
    else
      var last := records[|records| - 1];
      BusyTimes(records[..|records| - 1], members) + if last.name in members then [last.when] else []
  }

  /** The times of the rows whose time parsed, in row order. */
  function Parsed(rowTimes: seq<Option<Time>>): seq<Time> {
    if rowTimes == [] then []
    else
      Parsed(rowTimes[..|rowTimes| - 1]) +
        match rowTimes[|rowTimes| - 1] case None => [] case Some(t) => [t]
  }

  /** `time_slots`: the time column parsed again, skipping what the row loop skipped. */
  function Slots(lib: Library, times: seq<Cell>): seq<Time> {
    Parsed(RowTimes(lib, times))
  }

  /** The instants of one slot, one per date. */
  function RowOf(dates: seq<int>, t: Time): (row: seq<Instant>)
    ensures |row| == |dates|
  {
    seq(|dates|, j requires 0 <= j < |dates| => Instant(dates[j], t))
  }

  /** `total_times`: slot by slot, the slot on every date. */
  function Grid(slots: seq<Time>, dates: seq<int>): seq<Instant> {
    if slots == [] then [] else Grid(slots[..|slots| - 1], dates) + RowOf(dates, slots[|slots| - 1])
  }

  /** `set(total_times) - set(busy_times)` */
  function Available(total: seq<Instant>, busy: seq<Instant>): set<Instant> {
    (set x | x in total) - (set x | x in busy)
  }

  /** The calendar's row labels, one per slot: duplicates are kept, as the frame keeps them. */
  function Labels(slots: seq<Time>): (labels: seq<string>)
    ensures |labels| == |slots|
  {
    seq(|slots|, r requires 0 <= r < |slots| => TimeLabel(slots[r]))
  }

  /** Busy instant `x` addresses cell (`r`, `c`): same `%H:%M` label and same date. */
  predicate Hit(slots: seq<Time>, dates: seq<int>, x: Instant, r: int, c: int)
    requires 0 <= r < |slots| && 0 <= c < |dates|
  {
    TimeLabel(x.time) == TimeLabel(slots[r]) && x.day == dates[c]
  }

  /** The mark of cell (`r`, `c`) once the first `n` busy instants have been applied. */
  function MarkAt(slots: seq<Time>, dates: seq<int>, busy: seq<Instant>, n: nat, r: int, c: int): Mark
    requires n <= |busy| && 0 <= r < |slots| && 0 <= c < |dates|
  {
    if exists k :: 0 <= k < n && Hit(slots, dates, busy[k], r, c) then Taken else Free
  }

  /**
   * The slot loop of the availability view: blank and unparseable rows are
   * skipped; each parsed slot is recorded and paired with every date.
   */
  method TimeGrid(lib: Library, times: seq<Cell>, dates: seq<int>) returns (slots: seq<Time>, total: seq<Instant>)
    ensures slots == Slots(lib, times)
    ensures total == Grid(slots, dates)
  {
    ghost var rowTimes := RowTimes(lib, times);
    slots, total := [], [];
    for i := 0 to |times|
      invariant slots == Parsed(rowTimes[..i])
      invariant total == Grid(slots, dates)
    {
      ParsedStep(rowTimes, i);
      if times[i].Blank? {
        continue;
      }
      var time := ParseTimeValue(lib, times[i]);
      if time.None? {
        continue;
      }
      var row := [];
      for j := 0 to |dates|
        invariant row == RowOf(dates[..j], time.value)
      {
        row := row + [Instant(dates[j], time.value)];
      }
      assert dates[..|dates|] == dates;
      assert (slots + [time.value])[..|slots|] == slots;
      slots := slots + [time.value];
      total := total + row;
    }
    assert rowTimes[..|times|] == rowTimes;
  }

  /**
   * One busy instant applied to the calendar: when its label is a row label
   * and its date a column, every cell with that label and date is taken.
   */
  method MarkBusy(cal: array2<Mark>, slots: seq<Time>, dates: seq<int>, x: Instant)
    requires cal.Length0 == |slots| && cal.Length1 == |dates|
    modifies cal
    ensures forall r, c :: 0 <= r < |slots| && 0 <= c < |dates| ==>
      cal[r, c] == if Hit(slots, dates, x, r, c) then Taken else old(cal[r, c])
  {
    var key := TimeLabel(x.time);
    if key !in Labels(slots) || x.day !in dates {
      assert forall r, c :: 0 <= r < |slots| && 0 <= c < |dates| && Hit(slots, dates, x, r, c) ==>
        Labels(slots)[r] == key && dates[c] == x.day;
      return;
    }
    for r := 0 to |slots|
      invariant forall r', c :: 0 <= r' < |slots| && 0 <= c < |dates| ==>
        cal[r', c] == if r' < r && Hit(slots, dates, x, r', c) then Taken else old(cal[r', c])
    {
      if TimeLabel(slots[r]) != key {
        continue;
      }
      for c := 0 to |dates|
        invariant forall r', c' :: 0 <= r' < |slots| && 0 <= c' < |dates| ==>
          cal[r', c'] == if (r' < r || (r' == r && c' < c)) && Hit(slots, dates, x, r', c') then Taken
                         else old(cal[r', c'])
      {
        if dates[c] == x.day {
          cal[r, c] := Taken;
        }
      }
    }
  }

  /** The calendar: every cell free, then each busy instant marked in turn. */
  method BuildCalendar(slots: seq<Time>, dates: seq<int>, busy: seq<Instant>) returns (cal: array2<Mark>)
    ensures fresh(cal) && cal.Length0 == |slots| && cal.Length1 == |dates|
    ensures forall r, c :: 0 <= r < |slots| && 0 <= c < |dates| ==> cal[r, c] == MarkAt(slots, dates, busy, |busy|, r, c)
  {
    cal := new Mark[|slots|, |dates|]((r, c) => Free);
    for k := 0 to |busy|
      invariant forall r, c :: 0 <= r < |slots| && 0 <= c < |dates| ==> cal[r, c] == MarkAt(slots, dates, busy, k, r, c)
    {
      MarkBusy(cal, slots, dates, busy[k]);
      forall r, c | 0 <= r < |slots| && 0 <= c < |dates|
        ensures cal[r, c] == MarkAt(slots, dates, busy, k + 1, r, c)
      {
        MarkAtStep(slots, dates, busy, k, r, c);
      }
    }
  }

  /**
   * One group's view of one sheet: its busy instants, the grid of the week,
   * the free instants and the calendar.
   */
  method GroupView(lib: Library, bundle: SheetBundle, members: seq<string>)
    returns (available: set<Instant>, cal: array2<Mark>)
    ensures available == Available(Grid(Slots(lib, bundle.times), bundle.dates), BusyTimes(bundle.records, members))
    ensures fresh(cal)
    ensures cal.Length0 == |Slots(lib, bundle.times)| && cal.Length1 == |bundle.dates|
    ensures forall r, c :: 0 <= r < cal.Length0 && 0 <= c < cal.Length1 ==>
      var busy := BusyTimes(bundle.records, members);
      cal[r, c] == MarkAt(Slots(lib, bundle.times), bundle.dates, busy, |busy|, r, c)
  {
    var busy := BusyTimes(bundle.records, members);
    var slots, total := TimeGrid(lib, bundle.times, bundle.dates);
    available := Available(total, busy);
    cal := BuildCalendar(slots, bundle.dates, busy);
  }

  lemma ParsedStep(rowTimes: seq<Option<Time>>, i: nat)
    requires i < |rowTimes|
    ensures Parsed(rowTimes[..i + 1]) ==
      Parsed(rowTimes[..i]) + match rowTimes[i] case None => [] case Some(t) => [t]
  {
    assert rowTimes[..i + 1][..i] == rowTimes[..i];
  }

  lemma MarkAtStep(slots: seq<Time>, dates: seq<int>, busy: seq<Instant>, k: nat, r: int, c: int)
    requires k < |busy| && 0 <= r < |slots| && 0 <= c < |dates|
    ensures MarkAt(slots, dates, busy, k + 1, r, c) ==
      if Hit(slots, dates, busy[k], r, c) then Taken else MarkAt(slots, dates, busy, k, r, c)
  {
    if MarkAt(slots, dates, busy, k + 1, r, c) == Taken && !Hit(slots, dates, busy[k], r, c) {
      var i :| 0 <= i < k + 1 && Hit(slots, dates, busy[i], r, c);
      assert i < k;
    }
  }

  // ---------------------------------------------------------------------------
  // Properties

  /** A busy instant is exactly the instant of a record of one of the members. */
  lemma {:induction false} BusyTimesMembers(records: seq<BusyRecord>, members: seq<string>, x: Instant)
    ensures x in BusyTimes(records, members) <==>
      exists r :: r in records && r.name in members && r.when == x
  {
    if records != [] {
      var init := records[..|records| - 1];
      BusyTimesMembers(init, members, x);
      assert records == init + [records[|records| - 1]];
    }
  }

  /** The parsed slots are exactly the times of the rows that parse. */
  lemma {:induction false} ParsedMembers(rowTimes: seq<Option<Time>>, t: Time)
    ensures t in Parsed(rowTimes) <==> exists i :: 0 <= i < |rowTimes| && rowTimes[i] == Some(t)
  {
    if rowTimes != [] {
      var init := rowTimes[..|rowTimes| - 1];
      ParsedMembers(init, t);
      assert forall i :: 0 <= i < |init| ==> init[i] == rowTimes[i];
    }
  }

  /** An instant is on the grid exactly when its time is a slot and its day one of the dates. */
  lemma {:induction false} GridMembers(slots: seq<Time>, dates: seq<int>, x: Instant)
    ensures x in Grid(slots, dates) <==> x.time in slots && x.day in dates
  {
    if slots != [] {
      var init := slots[..|slots| - 1];
      var last := slots[|slots| - 1];
      GridMembers(init, dates, x);
      assert slots == init + [last];
      if x.time == last && x.day in dates {
        var j :| 0 <= j < |dates| && dates[j] == x.day;
        assert RowOf(dates, last)[j] == x;
      }
    }
  }

  /** The grid holds one instant per slot and date. */
  lemma {:induction false} GridSize(slots: seq<Time>, dates: seq<int>)
    ensures |Grid(slots, dates)| == |slots| * |dates|
  {
    if slots != [] {
      GridSize(slots[..|slots| - 1], dates);
      assert (|slots| - 1) * |dates| + |dates| == |slots| * |dates|;
    }
  }

  /** Every record a sheet yields falls on that sheet's grid: busy times are a subset of all times. */
  lemma RecordsOnGrid(lib: Library, times: seq<Cell>, matrix: seq<seq<Cell>>, dates: seq<int>, r: BusyRecord)
    requires Aligned(times, matrix, dates)
    requires r in SheetRecordsOf(lib, times, matrix, dates)
    ensures r.when in Grid(Slots(lib, times), dates)
  {
    var rowTimes := RowTimes(lib, times);
    SheetRecordsMembers(rowTimes, MatrixNames(matrix), dates, |times|, r);
    var i, j :| 0 <= i < |times| && 0 <= j < 7 && rowTimes[i].Some? &&
      r.name in MatrixNames(matrix)[i][j] && r.when == Instant(dates[j], rowTimes[i].value);
    ParsedMembers(rowTimes, rowTimes[i].value);
    GridMembers(Slots(lib, times), dates, r.when);
  }

  /** When every busy instant is on the grid, the grid splits into the free and the busy instants. */
  lemma AvailablePartition(total: seq<Instant>, busy: seq<Instant>)
    requires forall k :: 0 <= k < |busy| ==> busy[k] in total
    ensures Available(total, busy) + (set x | x in busy) == (set x | x in total)
    ensures Available(total, busy) * (set x | x in busy) == {}
  {
  }

  /** Adding members to a group can only remove free instants. */
  lemma AvailableMonotone(total: seq<Instant>, records: seq<BusyRecord>, members: seq<string>, more: seq<string>)
    requires forall n :: n in members ==> n in more
    ensures Available(total, BusyTimes(records, more)) <= Available(total, BusyTimes(records, members))
  {
    forall x | x in BusyTimes(records, members)
      ensures x in BusyTimes(records, more)
    {
      BusyTimesMembers(records, members, x);
      BusyTimesMembers(records, more, x);
    }
  }

  /** A group without members is free at every instant of the grid, and its calendar is all free. */
  lemma EmptyGroupFree(total: seq<Instant>, records: seq<BusyRecord>, slots: seq<Time>, dates: seq<int>, r: int, c: int)
    requires 0 <= r < |slots| && 0 <= c < |dates|
    ensures Available(total, BusyTimes(records, [])) == (set x | x in total)
    ensures MarkAt(slots, dates, BusyTimes(records, []), |BusyTimes(records, [])|, r, c) == Free
  {
    NoMembersNoBusy(records);
  }

  lemma {:induction false} NoMembersNoBusy(records: seq<BusyRecord>)
    ensures BusyTimes(records, []) == []
  {
    if records != [] {
      NoMembersNoBusy(records[..|records| - 1]);
    }
  }

  /**
   * A calendar cell is taken exactly when some member of the group has a
   * record whose `%H:%M` label is the cell's row label and whose date is the
   * cell's date.
   */
  lemma CalendarTakenIff(
    records: seq<BusyRecord>, members: seq<string>, slots: seq<Time>, dates: seq<int>, r: int, c: int)
    requires 0 <= r < |slots| && 0 <= c < |dates|
    ensures var busy := BusyTimes(records, members);
      MarkAt(slots, dates, busy, |busy|, r, c) == Taken <==>
        exists rec :: rec in records && rec.name in members &&
          TimeLabel(rec.when.time) == TimeLabel(slots[r]) && rec.when.day == dates[c]
  {
    var busy := BusyTimes(records, members);
    if MarkAt(slots, dates, busy, |busy|, r, c) == Taken {
      var k :| 0 <= k < |busy| && Hit(slots, dates, busy[k], r, c);
      BusyTimesMembers(records, members, busy[k]);
    }
    if exists rec :: rec in records && rec.name in members &&
         TimeLabel(rec.when.time) == TimeLabel(slots[r]) && rec.when.day == dates[c] {
      var rec :| rec in records && rec.name in members &&
        TimeLabel(rec.when.time) == TimeLabel(slots[r]) && rec.when.day == dates[c];
      BusyTimesMembers(records, members, rec.when);
      var k :| 0 <= k < |busy| && busy[k] == rec.when;
      assert Hit(slots, dates, busy[k], r, c);
    }
  }

  /**
   * The calendar agrees with the free instants when the `%H:%M` label of a
   * slot determines the slot and every busy instant is on the grid: a cell is
   * taken exactly when its instant is not free.
   */
  lemma CalendarAgrees(slots: seq<Time>, dates: seq<int>, busy: seq<Instant>, r: int, c: int)
    requires forall i, j :: 0 <= i < |slots| && 0 <= j < |slots| && TimeLabel(slots[i]) == TimeLabel(slots[j]) ==>
      slots[i] == slots[j]
    requires forall k :: 0 <= k < |busy| ==> busy[k] in Grid(slots, dates)
    requires 0 <= r < |slots| && 0 <= c < |dates|
    ensures MarkAt(slots, dates, busy, |busy|, r, c) == Taken <==>
      Instant(dates[c], slots[r]) !in Available(Grid(slots, dates), busy)
  {
    var x := Instant(dates[c], slots[r]);
    GridMembers(slots, dates, x);
    if MarkAt(slots, dates, busy, |busy|, r, c) == Taken {
      var k :| 0 <= k < |busy| && Hit(slots, dates, busy[k], r, c);
      GridMembers(slots, dates, busy[k]);
      var i :| 0 <= i < |slots| && slots[i] == busy[k].time;
      assert busy[k] == x;
    }
    if x !in Available(Grid(slots, dates), busy) {
      var k :| 0 <= k < |busy| && busy[k] == x;
      assert Hit(slots, dates, busy[k], r, c);
    }
  }

  /**
   * The same agreement for a sheet as the source builds it: the group's busy
   * instants come from the sheet's own records, so they lie on its grid.
   */
  lemma SheetCalendarAgrees(
    lib: Library, times: seq<Cell>, matrix: seq<seq<Cell>>, dates: seq<int>, members: seq<string>, r: int, c: int)
    requires Aligned(times, matrix, dates)
    requires var slots := Slots(lib, times);
      forall i, j :: 0 <= i < |slots| && 0 <= j < |slots| && TimeLabel(slots[i]) == TimeLabel(slots[j]) ==>
        slots[i] == slots[j]
    requires 0 <= r < |Slots(lib, times)| && 0 <= c < |dates|
    ensures var slots, busy := Slots(lib, times), BusyTimes(SheetRecordsOf(lib, times, matrix, dates), members);
      MarkAt(slots, dates, busy, |busy|, r, c) == Taken <==> Instant(dates[c], slots[r]) !in Available(Grid(slots, dates), busy)
  {
    var records := SheetRecordsOf(lib, times, matrix, dates);
    var busy := BusyTimes(records, members);
    forall k | 0 <= k < |busy|
      ensures busy[k] in Grid(Slots(lib, times), dates)
    {
      BusyTimesMembers(records, members, busy[k]);
      var rec :| rec in records && rec.name in members && rec.when == busy[k];
      RecordsOnGrid(lib, times, matrix, dates, rec);
    }
    CalendarAgrees(Slots(lib, times), dates, busy, r, c);
  }

  /**
   * Slots read with `%H:%M`, or written with zero seconds, have zero seconds
   * and microseconds, so their `%H:%M` label determines them: the labelling
   * assumption of `CalendarAgrees` holds for them.
   */
  lemma WholeMinuteLabels(slots: seq<Time>)
    requires forall i :: 0 <= i < |slots| ==> slots[i].second == 0 && slots[i].micro == 0
    ensures forall i, j :: 0 <= i < |slots| && 0 <= j < |slots| && TimeLabel(slots[i]) == TimeLabel(slots[j]) ==>
      slots[i] == slots[j]
  {
    forall i, j | 0 <= i < |slots| && 0 <= j < |slots| && TimeLabel(slots[i]) == TimeLabel(slots[j])
      ensures slots[i] == slots[j]
    {
      TimeLabelInjective(slots[i], slots[j]);
    }
  }
}
