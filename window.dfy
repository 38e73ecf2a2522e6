/** The search window of a run (`get_beginning_ending_dates` in src/get_data.py):
    two `%Y-%m-%d` dates, in either order, become the ISO timestamps of the
    earlier and the later one. */
module Window {
  import opened Values
  import opened Text
  import opened Calendar

  /** The `%m` field of `strptime`, which must be followed by '-': "10" to "12",
      "01" to "09", or a single digit "1" to "9"; its value and the position of
      the '-' after it. */
  function MonthField(s: string, p: nat): (r: Option<(nat, nat)>)
    ensures r.Some? ==> 1 <= r.value.0 <= 12 && r.value.1 < |s| && s[r.value.1] == '-'
  {
    if p + 2 < |s| && s[p] == '1' && '0' <= s[p + 1] <= '2' && s[p + 2] == '-' then
      Some((10 + DigitValue(s[p + 1]), p + 2))
    else if p + 2 < |s| && s[p] == '0' && '1' <= s[p + 1] <= '9' && s[p + 2] == '-' then
      Some((DigitValue(s[p + 1]), p + 2))
    else if p + 1 < |s| && '1' <= s[p] <= '9' && s[p + 1] == '-' then
      Some((DigitValue(s[p]), p + 1))
    else None
  }

  /** The `%d` field of `strptime`, the last of the format: the first of "30"/"31",
      "10" to "29", "01" to "09", "1" to "9" and " 1" to " 9" that matches at `p`;
      its value and the position after it. */
  function DayField(s: string, p: nat): (r: Option<(nat, nat)>)
    ensures r.Some? ==> 1 <= r.value.0 <= 31 && p < r.value.1 <= |s|
  {
    if p + 1 < |s| && s[p] == '3' && (s[p + 1] == '0' || s[p + 1] == '1') then
      Some((30 + DigitValue(s[p + 1]), p + 2))
    else if p + 1 < |s| && (s[p] == '1' || s[p] == '2') && IsDigit(s[p + 1]) then
      Some((10 * DigitValue(s[p]) + DigitValue(s[p + 1]), p + 2))
    else if p + 1 < |s| && s[p] == '0' && '1' <= s[p + 1] <= '9' then
      Some((DigitValue(s[p + 1]), p + 2))
    else if p < |s| && '1' <= s[p] <= '9' then
      Some((DigitValue(s[p]), p + 1))
    else if p + 1 < |s| && s[p] == ' ' && '1' <= s[p + 1] <= '9' then
      Some((DigitValue(s[p + 1]), p + 2))
    else None
  }

  /** `datetime.strptime(s, "%Y-%m-%d")`: four year digits, '-', month, '-',
      day, and nothing after; the date must exist. Every failure is a ValueError. */
  function Strptime(s: string): (r: Result<Date>)
    ensures r.Ok? ==> ValidDate(r.value)
    ensures r.Err? ==> r.error.ValueError?
  {
    if !(|s| >= 5 && AllDigits(s[0..4]) && s[4] == '-') then Err(ValueError("does not match format"))
    else
      match MonthField(s, 5)
      case None => Err(ValueError("does not match format"))
      case Some((month, q)) =>
        match DayField(s, q + 1)
        case None => Err(ValueError("does not match format"))
        case Some((day, e)) =>
          if e != |s| then Err(ValueError("unconverted data remains"))
          else
            var d := Date(DigitsValue(s[0..4]), month, day);
            if ValidDate(d) then Ok(d) else Err(ValueError("day is out of range for month"))
  }

  /** `strftime('%Y-%m-%dT%H:%M:%SZ')` of a date at midnight. */
  function Timestamp(d: Date): (r: string)
    ensures ValidDate(d) && d.year >= 1000 ==>
      && |r| == 20 && ParseIsoDate(r[..10]) == Some(d) && r[10..] == "T00:00:00Z"
  {
    if ValidDate(d) && d.year >= 1000 then
      IsoRoundTrip(d);
      assert (FormatYmd(d) + "T00:00:00Z")[..10] == FormatYmd(d);
      FormatYmd(d) + "T00:00:00Z"
    else FormatYmd(d) + "T00:00:00Z"
  }

  /** `get_beginning_ending_dates`: both dates are parsed (the first one first),
      then the earlier is formatted as the beginning and the later as the end. */
  function BeginningEndingDates(date1: string, date2: string): (r: Result<(string, string)>)
    ensures r.Ok? <==> Strptime(date1).Ok? && Strptime(date2).Ok?
    ensures Strptime(date1).Err? ==> r == Err(Strptime(date1).error)
    ensures r.Ok? ==>
      var d1, d2 := Strptime(date1).value, Strptime(date2).value;
      if Before(d2, d1) then r.value == (Timestamp(d2), Timestamp(d1))
      else r.value == (Timestamp(d1), Timestamp(d2))
  {
    match Strptime(date1)
    case Err(e) => Err(e)
    case Ok(d1) =>
      match Strptime(date2)
      case Err(e) => Err(e)
      case Ok(d2) =>
        var earliest := if Before(d2, d1) then d2 else d1;
        var latest := if Before(d2, d1) then d1 else d2;
        Ok((Timestamp(earliest), Timestamp(latest)))
  }

  // ------------------------------------------------------------------ lemmas

  /** The order of the arguments does not matter. */
  lemma BeginningEndingSymmetric(date1: string, date2: string)
    ensures BeginningEndingDates(date1, date2).Ok? <==> BeginningEndingDates(date2, date1).Ok?
    ensures BeginningEndingDates(date1, date2).Ok? ==>
      BeginningEndingDates(date1, date2) == BeginningEndingDates(date2, date1)
  {
    if BeginningEndingDates(date1, date2).Ok? {
      BeforeTotal(Strptime(date1).value, Strptime(date2).value);
    }
  }

  /** The beginning is never after the end: both are the timestamps of the two
      dates given, the earlier one first. */
  lemma BeginningNotAfterEnd(date1: string, date2: string)
    requires BeginningEndingDates(date1, date2).Ok?
    ensures exists b, e ::
      && {b, e} == {Strptime(date1).value, Strptime(date2).value} && !Before(e, b)
      && BeginningEndingDates(date1, date2).value == (Timestamp(b), Timestamp(e))
  {
    var d1, d2 := Strptime(date1).value, Strptime(date2).value;
    BeforeTotal(d1, d2);
    if Before(d2, d1) {
      assert {d2, d1} == {d1, d2};
    } else {
      assert {d1, d2} == {d1, d2};
    }
  }

  /** `strptime` reads back what `strftime('%Y-%m-%d')` wrote, from year 1000 on. */
  lemma StrptimeRoundTrip(d: Date)
    requires ValidDate(d) && d.year >= 1000
    ensures Strptime(FormatYmd(d)) == Ok(d)
  {
    var s := FormatYmd(d);
    FormatPieces(d);
    MonthOfPad(s, d.month);
    DayOfPad(s, d.day);
  }

  /** Where the fields of a formatted date from year 1000 on sit. */
  lemma FormatPieces(d: Date)
    requires ValidDate(d) && d.year >= 1000
    ensures var s := FormatYmd(d);
      && |s| == 10 && s[4] == '-' && s[7] == '-'
      && AllDigits(s[0..4]) && DigitsValue(s[0..4]) == d.year
      && s[5..7] == PadNat(d.month, 2) && s[8..10] == PadNat(d.day, 2)
  {
    JoinPieces(YearText(d.year), PadNat(d.month, 2), PadNat(d.day, 2));
  }

  /** The `%m` field of a zero-padded month. */
  lemma MonthOfPad(s: string, month: nat)
    requires 1 <= month <= 12 && |s| == 10 && s[7] == '-' && s[5..7] == PadNat(month, 2)
    ensures MonthField(s, 5) == Some((month, 7))
  {
    assert Pow10(2) == 100;
    DigitPair(PadNat(month, 2), month);
    assert s[5] == s[5..7][0] && s[6] == s[5..7][1];
  }

  /** The `%d` field of a zero-padded day, the last field of the text. */
  lemma DayOfPad(s: string, day: nat)
    requires 1 <= day <= 31 && |s| == 10 && s[8..10] == PadNat(day, 2)
    ensures DayField(s, 8) == Some((day, 10))
  {
    assert Pow10(2) == 100;
    DigitPair(PadNat(day, 2), day);
    assert s[8] == s[8..10][0] && s[9] == s[8..10][1];
  }

  /** The two digits of a zero-padded number below 100. */
  lemma DigitPair(ds: string, n: nat)
    requires |ds| == 2 && AllDigits(ds) && n < 100 && DigitsValue(ds) == n
    ensures DigitValue(ds[0]) == n / 10 && DigitValue(ds[1]) == n % 10
  {
    assert ds[..1][..0] == [];
    assert ds[..1] == ds[..|ds| - 1];
  }

  /** `strptime` also takes months and days without their leading zero. */
  lemma StrptimeUnpadded()
    ensures Strptime("2024-1-5") == Ok(Date(2024, 1, 5))
  {
    var s := "2024-1-5";
    assert s[0..4] == "2024";
    assert DigitsValue("2024") == 2024 by {
      assert "2024"[..3] == "202" && "202"[..2] == "20" && "20"[..1] == "2" && "2"[..0] == [];
    }
  }

  /** A day that does not exist in its month is refused. */
  lemma StrptimeRefusesFebruary30()
    ensures Strptime("2023-02-30").Err?
  {
  }
}
