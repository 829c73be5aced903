/**
 * Temporal parsing: the values a cell can hold, the week-start date, the
 * ordered chain of time formats tried on a time cell (first success wins),
 * the seven dates of a week and the `%H:%M` row label of a time slot.
 *
 * `datetime.strptime` is a library call. The two 24-hour formats `%H:%M` and
 * `%H:%M:%S` are written out digit by digit; the other recognizers (the
 * `%d/%m/%Y` start date and the three remaining time formats) are supplied as
 * a `Library` of partial functions.
 */
module Temporal {
  import opened Wrappers
  import opened Strings

  /** A `datetime.time`: hour, minute, second and microsecond. */
  datatype Clock = Clock(hour: nat, minute: nat, second: nat, micro: nat)

  type Time = c: Clock | c.hour < 24 && c.minute < 60 && c.second < 60 && c.micro < 1000000
    witness Clock(0, 0, 0, 0)

  /** `datetime.combine(date, time)`: a calendar day, as a day ordinal, and a time of day. */
  datatype Instant = Instant(day: int, time: Time)

  /** One spreadsheet cell as the frame hands it over. */
  datatype Cell =
    | Blank                                       // `pd.isna(cell)` holds
    | Stamp(day: int, time: Time, shown: string)  // a `datetime`; `shown` is its `str()`
    | Text(text: string)                          // any other value, as `str(value)`

  /** The time formats of the source, as `strptime` format strings. */
  datatype TimeFormat =
    | HourMinute              // "%H:%M"
    | HourMinuteSecond        // "%H:%M:%S"
    | TwelveHourMinute        // "%I:%M %p"
    | TwelveHourMinuteSecond  // "%I:%M:%S %p"
    | DateHourMinuteSecond    // "%Y-%m-%d %H:%M:%S"

  /** The order in which a time cell's text is tried. */
  const TimeFormats: seq<TimeFormat> :=
    [HourMinute, HourMinuteSecond, TwelveHourMinute, TwelveHourMinuteSecond, DateHourMinuteSecond]

  /**
   * The `strptime` recognizers that are not written out: each maps a string
   * to the value it denotes, or to `None` where `strptime` raises `ValueError`.
   */
  datatype Library = Library(
    dayMonthYear: string -> Option<int>,         // "%d/%m/%Y", as a day ordinal
    twelveHour: string -> Option<Time>,          // "%I:%M %p", its time part
    twelveHourSeconds: string -> Option<Time>,   // "%I:%M:%S %p", its time part
    dateTime: string -> Option<Time>)            // "%Y-%m-%d %H:%M:%S", its time part

  predicate IsDigit(c: char) {
    '0' <= c <= '9'
  }

  function DigitValue(c: char): nat
    requires IsDigit(c)
  {
    c as int - '0' as int
  }

  function Digit(n: nat): char
    requires n < 10
  {
    ('0' as int + n) as char
  }

  /** `%02d`: the two-digit zero-padded decimal form `strftime` prints. */
  function TwoDigits(n: nat): string
    requires n < 100
  {
    [Digit(n / 10), Digit(n % 10)]
  }

  /**
   * One `%H`, `%M` or `%S` field as `strptime` reads it when the whole field
   * is delimited: one or two ASCII digits whose value is at most `max`
   * (23 for hours, 59 for minutes and seconds; `strptime` reads a seconds
   * field of 60 or 61, which `datetime` then refuses).
   */
  function Field(p: string, max: nat): (r: Option<nat>)
    ensures r.Some? ==> r.value <= max && 1 <= |p| <= 2
    ensures r.Some? ==> forall c | c in p :: IsDigit(c)
    ensures r.Some? && max < 100 ==> TwoDigits(r.value) == if |p| == 1 then ['0'] + p else p
  {
    if 1 <= |p| <= 2 && forall c | c in p :: IsDigit(c) then
      var v := if |p| == 1 then DigitValue(p[0]) else 10 * DigitValue(p[0]) + DigitValue(p[1]);
      if v <= max then
        if |p| == 1 then
          assert Digit(v % 10) == p[0];
          Some(v)
        else
          assert Digit(v / 10) == p[0] && Digit(v % 10) == p[1];
          Some(v)
      else None
    else
      None
  }

  /** `datetime.strptime(s, "%H:%M").time()` */
  function ParseHourMinute(s: string): (r: Option<Time>)
    ensures r.Some? ==> r.value.second == 0 && r.value.micro == 0
  {
    var parts := Split(s, ':');
    if |parts| != 2 then None
    else
      match (Field(parts[0], 23), Field(parts[1], 59))
      case (Some(h), Some(m)) => Some(Clock(h, m, 0, 0))
      case _ => None
  }

  /** `datetime.strptime(s, "%H:%M:%S").time()` */
  function ParseHourMinuteSecond(s: string): (r: Option<Time>)
    ensures r.Some? ==> r.value.micro == 0
  {
    var parts := Split(s, ':');
    if |parts| != 3 then None
    else
      match (Field(parts[0], 23), Field(parts[1], 59), Field(parts[2], 59))
      case (Some(h), Some(m), Some(sec)) => Some(Clock(h, m, sec, 0))
      case _ => None
  }

  /** One attempt `datetime.strptime(s, fmt).time()`. */
  function Recognize(lib: Library, fmt: TimeFormat, s: string): Option<Time> {
    match fmt
    case HourMinute => ParseHourMinute(s)
    case HourMinuteSecond => ParseHourMinuteSecond(s)
    case TwelveHourMinute => lib.twelveHour(s)
    case TwelveHourMinuteSecond => lib.twelveHourSeconds(s)
    case DateHourMinuteSecond => lib.dateTime(s)
  }

  /** The result of the first format in `fmts` that recognizes `s`. */
  function FirstMatch(lib: Library, fmts: seq<TimeFormat>, s: string): Option<Time> {
    if fmts == [] then None
    else
      match Recognize(lib, fmts[0], s)
      case Some(t) => Some(t)
      case None => FirstMatch(lib, fmts[1..], s)
  }

  /** The text path of a time cell: the chain over `TimeFormats`. */
  function ParseTimeText(lib: Library, s: string): Option<Time> {
    FirstMatch(lib, TimeFormats, s)
  }

  /**
   * The time of one time-column cell, or `None` when its row is skipped: the
   * cell is blank, or its stripped text matches no format.
   */
  function RowTime(lib: Library, cell: Cell): Option<Time> {
    match cell
    case Blank => None
    case Stamp(_, t, _) => Some(t)
    case Text(s) => ParseTimeText(lib, Trim(s))
  }

  /**
   * The time-cell handling of the row loop: a `datetime` gives its time,
   * anything else is stripped and tried against each format in turn.
   */
  method ParseTimeValue(lib: Library, cell: Cell) returns (t: Option<Time>)
    requires !cell.Blank?
    ensures t == RowTime(lib, cell)
  {
    if cell.Stamp? {
      return Some(cell.time);
    }
    var text := Trim(cell.text);
    for k := 0 to |TimeFormats|
      invariant ParseTimeText(lib, text) == FirstMatch(lib, TimeFormats[k..], text)
    {
      var parsed := Recognize(lib, TimeFormats[k], text);
      if parsed.Some? {
        return parsed;
      }
    }
    t := None;
  }

  /**
   * The week start: a `datetime` cell is taken as it is, anything else goes
   * through `strptime(str(cell), "%d/%m/%Y")` (a blank cell prints as "nan").
   */
  function StartDate(lib: Library, cell: Cell): Option<int> {
    match cell
    case Stamp(day, _, _) => Some(day)
    case Text(s) => lib.dayMonthYear(s)
    case Blank => lib.dayMonthYear("nan")
  }

  /** The week: the start day and the six days after it. */
  function Dates(start: int): (ds: seq<int>)
    ensures |ds| == 7
    ensures forall k :: 0 <= k < 7 ==> ds[k] == start + k
  {
    seq(7, k => start + k)
  }

  /** `t.strftime("%H:%M")`: the calendar's row label of a time slot. */
  function TimeLabel(t: Time): string {
    TwoDigits(t.hour) + [':'] + TwoDigits(t.minute)
  }

  /** `str(t)` for a `datetime.time` without microseconds: "HH:MM:SS". */
  function TimeText(t: Time): string
    requires t.micro == 0
  {
    TwoDigits(t.hour) + [':'] + TwoDigits(t.minute) + [':'] + TwoDigits(t.second)
  }

  // ---------------------------------------------------------------------------
  // Properties

  /** The chain returns `t` exactly when some format yields `t` and every earlier one fails. */
  lemma {:induction false} FirstMatchWins(lib: Library, fmts: seq<TimeFormat>, s: string, t: Time)
    ensures FirstMatch(lib, fmts, s) == Some(t) <==>
      exists k :: 0 <= k < |fmts| && Recognize(lib, fmts[k], s) == Some(t) &&
        forall j :: 0 <= j < k ==> Recognize(lib, fmts[j], s).None?
  {
    if fmts != [] {
      FirstMatchWins(lib, fmts[1..], s, t);
      if FirstMatch(lib, fmts, s) == Some(t) {
        if Recognize(lib, fmts[0], s).None? {
          var k :| 0 <= k < |fmts[1..]| && Recognize(lib, fmts[1..][k], s) == Some(t) &&
            forall j :: 0 <= j < k ==> Recognize(lib, fmts[1..][j], s).None?;
          assert Recognize(lib, fmts[k + 1], s) == Some(t);
          assert forall j :: 0 <= j < k + 1 ==> Recognize(lib, fmts[j], s).None? by {
            forall j | 0 <= j < k + 1 ensures Recognize(lib, fmts[j], s).None? {
              if j > 0 { assert fmts[j] == fmts[1..][j - 1]; }
            }
          }
        }
      } else {
        forall k | 0 <= k < |fmts| && Recognize(lib, fmts[k], s) == Some(t)
          ensures exists j :: 0 <= j < k && Recognize(lib, fmts[j], s).Some?
        {
          if Recognize(lib, fmts[0], s).None? {
            assert k > 0;
            assert fmts[1..][k - 1] == fmts[k];
            var i :| 0 <= i < k - 1 && Recognize(lib, fmts[1..][i], s).Some?;
            assert fmts[i + 1] == fmts[1..][i];
          }
        }
      }
    }
  }

  /** The chain fails exactly when every format fails (the row is then skipped). */
  lemma {:induction false} FirstMatchFails(lib: Library, fmts: seq<TimeFormat>, s: string)
    ensures FirstMatch(lib, fmts, s).None? <==>
      forall k :: 0 <= k < |fmts| ==> Recognize(lib, fmts[k], s).None?
  {
    if fmts != [] {
      FirstMatchFails(lib, fmts[1..], s);
      assert forall k :: 1 <= k < |fmts| ==> fmts[k] == fmts[1..][k - 1];
    }
  }

  lemma FieldTwoDigits(n: nat, max: nat)
    requires n <= max && n < 100
    ensures Field(TwoDigits(n), max) == Some(n)
  {
  }

  lemma SplitTwoDigits(n: nat, rest: string, sep: char)
    requires n < 100 && !IsDigit(sep)
    ensures Split(TwoDigits(n) + [sep] + rest, sep) == [TwoDigits(n)] + Split(rest, sep)
  {
    SplitAfterPrefix(TwoDigits(n), rest, sep);
  }

  /** The row label reads back under `%H:%M` as the slot's hour and minute. */
  lemma TimeLabelRoundTrip(t: Time)
    ensures ParseHourMinute(TimeLabel(t)) == Some(Clock(t.hour, t.minute, 0, 0))
  {
    SplitTwoDigits(t.hour, TwoDigits(t.minute), ':');
    SplitNoSeparator(TwoDigits(t.minute), ':');
    FieldTwoDigits(t.hour, 23);
    FieldTwoDigits(t.minute, 59);
  }

  /** Two slots share a row label exactly when they agree on hour and minute. */
  lemma TimeLabelInjective(a: Time, b: Time)
    ensures TimeLabel(a) == TimeLabel(b) <==> a.hour == b.hour && a.minute == b.minute
  {
    if TimeLabel(a) == TimeLabel(b) {
      TimeLabelRoundTrip(a);
      TimeLabelRoundTrip(b);
    }
  }

  /**
   * A time value that reaches the chain as text ("HH:MM:SS") fails `%H:%M`
   * and is read back exactly by `%H:%M:%S`, whatever the other recognizers do.
   */
  lemma TimeTextParses(lib: Library, t: Time)
    requires t.micro == 0
    ensures ParseHourMinute(TimeText(t)) == None
    ensures ParseHourMinuteSecond(TimeText(t)) == Some(t)
    ensures RowTime(lib, Text(TimeText(t))) == Some(t)
  {
    var s := TimeText(t);
    var tail := TwoDigits(t.minute) + [':'] + TwoDigits(t.second);
    assert s == TwoDigits(t.hour) + [':'] + tail;
    SplitTwoDigits(t.hour, tail, ':');
    SplitTwoDigits(t.minute, TwoDigits(t.second), ':');
    SplitNoSeparator(TwoDigits(t.second), ':');
    assert Split(s, ':') == [TwoDigits(t.hour), TwoDigits(t.minute), TwoDigits(t.second)];
    FieldTwoDigits(t.hour, 23);
    FieldTwoDigits(t.minute, 59);
    FieldTwoDigits(t.second, 59);
    TrimFixed(s);
    assert ParseHourMinute(s) == None;
    assert ParseHourMinuteSecond(s) == Some(t);
    assert TimeFormats[0] == HourMinute && TimeFormats[1..][0] == HourMinuteSecond;
    assert FirstMatch(lib, TimeFormats, s) == FirstMatch(lib, TimeFormats[1..], s);
  }

  /** The seven dates are distinct, so a date picks out at most one column. */
  lemma DatesDistinct(start: int, i: nat, j: nat)
    requires i < 7 && j < 7
    ensures Dates(start)[i] == Dates(start)[j] <==> i == j
  {
  }
}
