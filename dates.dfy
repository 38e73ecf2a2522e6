/** `dates` in src/transform_data.py: the creation timestamp of each offer is
    parsed, cut down to its day, and split into year, month and day columns, in
    place on the frame it is given. */
module Dates {
  import opened Values
  import opened Text
  import opened Calendar

  /** Two digits at `p` whose value is below `bound`. */
  predicate TwoDigitsBelow(t: string, p: nat, bound: nat)
  {
    p + 2 <= |t| && IsDigit(t[p]) && IsDigit(t[p + 1])
    && DigitValue(t[p]) * 10 + DigitValue(t[p + 1]) < bound
  }

  /** The part of an ISO timestamp after the date: nothing, or 'T' and a valid
      `HH:MM:SS`, then optionally a fraction of a second, then optionally 'Z'. */
  predicate TimeSuffix(t: string)
  {
    t == [] ||
    (&& |t| >= 9 && t[0] == 'T' && TwoDigitsBelow(t, 1, 24) && t[3] == ':'
     && TwoDigitsBelow(t, 4, 60) && t[6] == ':' && TwoDigitsBelow(t, 7, 60)
     && var z := t[9..];
        var f := if z != [] && z[|z| - 1] == 'Z' then z[..|z| - 1] else z;
        f == [] || (|f| >= 2 && f[0] == '.' && AllDigits(f[1..])))
  }

  /** The days a pandas 2 timestamp (nanoseconds since 1970 in 64 bits)
      can hold: after 21 September 1677 and up to 11 April 2262. */
  predicate InTimestampRange(d: Date)
  {
    Before(Date(1677, 9, 21), d) && !Before(Date(2262, 4, 11), d)
  }

  /** `pd.to_datetime` on one cell: None/NaN is NaT (`None` here), an ISO
      timestamp gives its calendar day, a day outside the timestamp range
      raises OutOfBoundsDatetime (a ValueError), anything else cannot be
      parsed. */
  function ToDatetime(v: Value): (r: Result<Option<Date>>)
    ensures r.Ok? && r.value.Some? ==> ValidDate(r.value.value) && InTimestampRange(r.value.value)
    ensures r.Ok? <==> v.Null? || (v.Str? && |v.s| >= 10 && ParseIsoDate(v.s[..10]).Some? && TimeSuffix(v.s[10..])
                                   && InTimestampRange(ParseIsoDate(v.s[..10]).value))
    ensures r.Err? ==> r.error.ValueError?
  {
    match v
    case Null => Ok(None)
    case Str(s) =>
      if |s| >= 10 && ParseIsoDate(s[..10]).Some? && TimeSuffix(s[10..]) then
        var d := ParseIsoDate(s[..10]).value;
        if InTimestampRange(d) then Ok(Some(d))
        else Err(ValueError("Out of bounds nanosecond timestamp"))
      else Err(ValueError("Unknown datetime string format"))
    case _ => Err(ValueError("Unknown datetime string format"))
  }

  /** The row after `dates`: the day in `date_creation` as `%Y-%m-%d` and its
      parts in `year`, `month` and `day`; NaT leaves all four empty. The text
      of a day from year 1000 on reads back as that day, and every other
      column is as it was. */
  function SplitDate(row: Row, d: Option<Date>): (r: Row)
    ensures r.Keys == row.Keys + {DateCreation, Year, Month, Day}
    ensures forall c :: c in row && c !in {DateCreation, Year, Month, Day} ==> r[c] == row[c]
    ensures d.None? ==> r[DateCreation] == Null && r[Year] == Null && r[Month] == Null && r[Day] == Null
    ensures d.Some? && ValidDate(d.value) && d.value.year >= 1000 ==>
      && r[DateCreation].Str? && ParseIsoDate(r[DateCreation].s) == d
      && r[Year] == Num(d.value.year as real) && r[Month] == Num(d.value.month as real)
      && r[Day] == Num(d.value.day as real)
  {
    match d
    case None => row[DateCreation := Null][Year := Null][Month := Null][Day := Null]
    case Some(day) =>
      if ValidDate(day) && day.year >= 1000 then
        IsoRoundTrip(day);
        row[DateCreation := Str(FormatYmd(day))][Year := Num(day.year as real)]
           [Month := Num(day.month as real)][Day := Num(day.day as real)]
      else
        row[DateCreation := Str(FormatYmd(day))][Year := Num(day.year as real)]
           [Month := Num(day.month as real)][Day := Num(day.day as real)]
  }

  /** The shape of the time part of an ISO timestamp, which pandas 2 turns
      into the format it parses a whole column with: whether there is a time,
      a fraction of a second, and a 'Z' zone. */
  datatype TimeFormat = TimeFormat(time: bool, fraction: bool, zone: bool)

  /** The shape of the text after the date. */
  function FormatOf(t: string): TimeFormat
  {
    TimeFormat(t != [], |t| > 9 && t[9] == '.', t != [] && t[|t| - 1] == 'Z')
  }

  /** The format `pd.to_datetime` infers from the first non-null cell of the
      column; none when that cell is not a timestamp (it fails on its own). */
  function ColumnFormat(rows: seq<Row>): Option<TimeFormat>
  {
    if rows == [] then None
    else
      match Cell(rows[0], DateCreation)
      case Null => ColumnFormat(rows[1..])
      case Str(s) => if |s| >= 10 then Some(FormatOf(s[10..])) else None
      case _ => None
  }

  /** `pd.to_datetime` on one cell of a column parsed with `format`: a
      timestamp written in another form does not match the format and raises
      ValueError; otherwise the cell converts as it does alone. */
  function ToDatetimeAs(v: Value, format: Option<TimeFormat>): (r: Result<Option<Date>>)
    ensures r.Ok? <==> ToDatetime(v).Ok? && (v.Str? && |v.s| >= 10 && format.Some? ==> FormatOf(v.s[10..]) == format.value)
    ensures r.Ok? ==> r == ToDatetime(v)
    ensures r.Err? ==> r.error.ValueError?
  {
    if v.Str? && |v.s| >= 10 && format.Some? && FormatOf(v.s[10..]) != format.value then
      Err(ValueError("time data does not match format"))
    else ToDatetime(v)
  }

  /** The frame `dates` leaves, or the exception it raises: the whole column is
      converted, with the format of its first non-null cell, before anything
      is assigned, so one bad cell fails the step. */
  function WithDates(rows: seq<Row>): (r: Result<seq<Row>>)
    ensures r.Ok? <==> forall i :: 0 <= i < |rows| ==> ToDatetimeAs(Cell(rows[i], DateCreation), ColumnFormat(rows)).Ok?
    ensures r.Ok? ==> |r.value| == |rows|
    ensures r.Err? ==> r.error.ValueError?
  {
    var format := ColumnFormat(rows);
    MapRows(rows, row => match ToDatetimeAs(Cell(row, DateCreation), format)
                         case Err(e) => Err(e)
                         case Ok(d) => Ok(SplitDate(row, d)))
  }

  /** `dates(df)`, on the frame in place. */
  method AddDateColumns(df: Frame) returns (outcome: Outcome)
    modifies df
    ensures WithDates(old(df.rows)).Ok? ==> outcome == Pass && df.rows == WithDates(old(df.rows)).value
    ensures WithDates(old(df.rows)).Err? ==>
      outcome == Fail(WithDates(old(df.rows)).error) && df.rows == old(df.rows)
  {
    var result := WithDates(df.rows);
    if result.Err? {
      return Fail(result.error);
    }
    df.rows := result.value;
    return Pass;
  }

  // ------------------------------------------------------------------ lemmas

  /** What `dates` promises about one row: the four date columns are set, the
      day in `date_creation` reads back as the date its `year`, `month` and
      `day` columns hold (for years from 1000 on), NaT leaves all four empty,
      and every other column is as it was. */
  ghost predicate DatedRow(before: Row, after: Row)
  {
    && after.Keys == before.Keys + {DateCreation, Year, Month, Day}
    && (forall c :: c in before && c !in {DateCreation, Year, Month, Day} ==> after[c] == before[c])
    && (after[DateCreation].Null? <==> Cell(before, DateCreation).Null?)
    && (after[DateCreation].Null? ==> after[Year].Null? && after[Month].Null? && after[Day].Null?)
    && (after[DateCreation].Str? ==>
          exists d: Date ::
            && ValidDate(d) && after[DateCreation] == Str(FormatYmd(d))
            && after[Year] == Num(d.year as real) && after[Month] == Num(d.month as real)
            && after[Day] == Num(d.day as real)
            && (d.year >= 1000 ==> ParseIsoDate(after[DateCreation].s) == Some(d)))
  }

  /** Every row `dates` leaves keeps `DatedRow` with the row it came from. */
  lemma DateColumnsAgree(rows: seq<Row>, i: nat)
    requires WithDates(rows).Ok? && i < |rows|
    ensures DatedRow(rows[i], WithDates(rows).value[i])
  {
    DatedAt(rows, i);
    SplitDateIsDated(rows[i], ToDatetime(Cell(rows[i], DateCreation)).value);
  }

  /** A column other than the four date columns keeps its cell in row `i`. */
  lemma DatedKeeps(rows: seq<Row>, i: nat, c: Col)
    requires WithDates(rows).Ok? && i < |rows| && c !in {DateCreation, Year, Month, Day}
    ensures Cell(WithDates(rows).value[i], c) == Cell(rows[i], c)
  {
    DatedAt(rows, i);
    var split := SplitDate(rows[i], ToDatetime(Cell(rows[i], DateCreation)).value);
    assert c in split <==> c in rows[i];
  }

  /** Row `i` of the dated frame is that row split at its own day. */
  lemma DatedAt(rows: seq<Row>, i: nat)
    requires WithDates(rows).Ok? && i < |rows|
    ensures ToDatetime(Cell(rows[i], DateCreation)).Ok?
    ensures WithDates(rows).value[i] == SplitDate(rows[i], ToDatetime(Cell(rows[i], DateCreation)).value)
  {
    assert ToDatetimeAs(Cell(rows[i], DateCreation), ColumnFormat(rows)).Ok?;
  }

  lemma SplitDateIsDated(row: Row, d: Option<Date>)
    requires ToDatetime(Cell(row, DateCreation)) == Ok(d)
    ensures DatedRow(row, SplitDate(row, d))
  {
    var after := SplitDate(row, d);
    if d.Some? {
      var day := d.value;
      if day.year >= 1000 {
        IsoRoundTrip(day);
      }
      assert Cell(row, DateCreation).Str?;
      assert after[DateCreation] == Str(FormatYmd(day));
    }
  }

  /** Two cells written with the same time format. */
  predicate SameFormat(a: Value, b: Value)
  {
    a.Str? && b.Str? && |a.s| >= 10 && |b.s| >= 10 ==> FormatOf(a.s[10..]) == FormatOf(b.s[10..])
  }

  /** `dates` goes through exactly when every cell converts on its own and all
      the timestamps of the column are written in one format. */
  lemma OneFormatPerColumn(rows: seq<Row>)
    ensures WithDates(rows).Ok? <==>
      && (forall i :: 0 <= i < |rows| ==> ToDatetime(Cell(rows[i], DateCreation)).Ok?)
      && (forall i, j :: 0 <= i < |rows| && 0 <= j < |rows| ==>
            SameFormat(Cell(rows[i], DateCreation), Cell(rows[j], DateCreation)))
  {
    var format := ColumnFormat(rows);
    if forall i :: 0 <= i < |rows| ==> ToDatetime(Cell(rows[i], DateCreation)).Ok? {
      ColumnFormatOf(rows);
      if format.Some? {
        var k :| 0 <= k < |rows| && Cell(rows[k], DateCreation).Str? && |Cell(rows[k], DateCreation).s| >= 10
                 && FormatOf(Cell(rows[k], DateCreation).s[10..]) == format.value;
        if forall i, j :: 0 <= i < |rows| && 0 <= j < |rows| ==>
             SameFormat(Cell(rows[i], DateCreation), Cell(rows[j], DateCreation)) {
          forall i | 0 <= i < |rows| ensures ToDatetimeAs(Cell(rows[i], DateCreation), format).Ok? {
            assert SameFormat(Cell(rows[i], DateCreation), Cell(rows[k], DateCreation));
          }
        }
      }
    }
  }

  /** When every cell converts on its own, the inferred format is that of
      some cell of the column, and there is none only when every cell is null. */
  lemma {:induction false} ColumnFormatOf(rows: seq<Row>)
    requires forall i :: 0 <= i < |rows| ==> ToDatetime(Cell(rows[i], DateCreation)).Ok?
    ensures ColumnFormat(rows).None? ==> forall i :: 0 <= i < |rows| ==> Cell(rows[i], DateCreation).Null?
    ensures ColumnFormat(rows).Some? ==>
      exists k :: 0 <= k < |rows| && Cell(rows[k], DateCreation).Str? && |Cell(rows[k], DateCreation).s| >= 10
                  && FormatOf(Cell(rows[k], DateCreation).s[10..]) == ColumnFormat(rows).value
  {
    if rows != [] && Cell(rows[0], DateCreation).Null? {
      assert forall i :: 1 <= i < |rows| ==> rows[1..][i - 1] == rows[i];
      ColumnFormatOf(rows[1..]);
      if ColumnFormat(rows).Some? {
        var k :| 0 <= k < |rows[1..]| && Cell(rows[1..][k], DateCreation).Str? && |Cell(rows[1..][k], DateCreation).s| >= 10
                 && FormatOf(Cell(rows[1..][k], DateCreation).s[10..]) == ColumnFormat(rows).value;
        assert rows[1..][k] == rows[k + 1];
      }
    }
  }

  /** A column holding "2024-01-01T14:03:21.000Z" then "2024-01-02" makes
      `dates` raise: the second cell does not match the format of the first. */
  lemma MixedIsoColumnRaises(d0: Date, d1: Date, row0: Row, row1: Row)
    requires ValidDate(d0) && InTimestampRange(d0) && ValidDate(d1) && InTimestampRange(d1)
    requires Cell(row0, DateCreation) == Str(FormatYmd(d0) + "T14:03:21.000Z")
    requires Cell(row1, DateCreation) == Str(FormatYmd(d1))
    ensures WithDates([row0, row1]).Err?
  {
    var rows := [row0, row1];
    var t := "T14:03:21.000Z";
    assert |FormatYmd(d0)| == 10 && |FormatYmd(d1)| == 10;
    assert (FormatYmd(d0) + t)[10..] == t;
    assert FormatYmd(d1)[10..] == [];
    assert ColumnFormat(rows) == Some(FormatOf(t));
    assert !ToDatetimeAs(Cell(rows[1], DateCreation), ColumnFormat(rows)).Ok?;
  }

  /** France Travail's creation timestamps parse to their day. */
  lemma ParsesApiTimestamp(s: string, d: Date)
    requires ValidDate(d) && InTimestampRange(d)
    requires s == FormatYmd(d) + "T14:03:21.000Z"
    ensures ToDatetime(Str(s)) == Ok(Some(d))
  {
    IsoRoundTrip(d);
    var t := "T14:03:21.000Z";
    assert |FormatYmd(d)| == 10;
    assert s[..10] == FormatYmd(d) && s[10..] == t;
    assert TimeSuffix(t) by {
      assert t[9..] == ".000Z";
      assert t[9..][..4] == ".000";
      assert ".000"[1..] == "000";
    }
  }

  /** A day outside the timestamp range, such as 1 January 1500, written
      in the API's format makes `pd.to_datetime` raise, so `dates` fails. */
  lemma OutOfRangeDayRaises(s: string, d: Date)
    requires ValidDate(d) && d.year >= 1000 && !InTimestampRange(d)
    requires s == FormatYmd(d) + "T00:00:00Z"
    ensures ToDatetime(Str(s)) == Err(ValueError("Out of bounds nanosecond timestamp"))
  {
    IsoRoundTrip(d);
    var t := "T00:00:00Z";
    assert s[..10] == FormatYmd(d) && s[10..] == t;
    assert t[9..] == "Z";
  }
}
