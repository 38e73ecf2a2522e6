/** Calendar dates as the pipeline reads and writes them: the proleptic
    Gregorian calendar of Python's `datetime`, and the `%Y-%m-%d` text form. */
module Calendar {
  import opened Values
  import opened Text

  datatype Date = Date(year: nat, month: nat, day: nat)

  predicate IsLeap(y: nat)
  {
    y % 4 == 0 && (y % 100 != 0 || y % 400 == 0)
  }

  function DaysInMonth(y: nat, m: nat): (n: nat)
    requires 1 <= m <= 12
    ensures 28 <= n <= 31
  {
    if m == 2 then (if IsLeap(y) then 29 else 28)
    else if m == 4 || m == 6 || m == 9 || m == 11 then 30
    else 31
  }

  /** A date `datetime` accepts: years 1 to 9999, and a day that exists in its month. */
  predicate ValidDate(d: Date)
  {
    1 <= d.year <= 9999 && 1 <= d.month <= 12 && 1 <= d.day <= DaysInMonth(d.year, d.month)
  }

  /** Chronological order (`<` on `datetime`). */
  predicate Before(a: Date, b: Date)
  {
    a.year < b.year || (a.year == b.year && (a.month < b.month || (a.month == b.month && a.day < b.day)))
  }

  lemma BeforeTotal(a: Date, b: Date)
    ensures a == b || Before(a, b) || Before(b, a)
    ensures !(Before(a, b) && Before(b, a))
  {
  }

  /** `%Y` of `strftime`: four digits from year 1000 on; the C library of Linux
      writes smaller years without leading zeros. */
  function YearText(y: nat): (s: string)
    ensures AllDigits(s) && |s| > 0
    ensures 1000 <= y < 10000 ==> |s| == 4 && DigitsValue(s) == y
  {
    if y >= 1000 then PadNat(y, 4) else NatToString(y)
  }

  /** `strftime('%Y-%m-%d')`: from year 1000 on, ten characters whose three
      dash-separated digit groups read back as the year, the month and the day. */
  function FormatYmd(d: Date): (s: string)
    ensures 1000 <= d.year < 10000 && d.month < 100 && d.day < 100 ==>
      && |s| == 10 && s[4] == '-' && s[7] == '-'
      && AllDigits(s[0..4]) && AllDigits(s[5..7]) && AllDigits(s[8..10])
      && DigitsValue(s[0..4]) == d.year && DigitsValue(s[5..7]) == d.month && DigitsValue(s[8..10]) == d.day
  {
    var y, m, dd := YearText(d.year), PadNat(d.month, 2), PadNat(d.day, 2);
    if 1000 <= d.year < 10000 then
      JoinPieces(y, m, dd);
      assert Pow10(2) == 100;
      y + "-" + m + "-" + dd
    else y + "-" + m + "-" + dd
  }

  /** The ISO form `YYYY-MM-DD`: ten characters, zero-padded fields. */
  function ParseIsoDate(s: string): (r: Option<Date>)
    ensures r.Some? ==> ValidDate(r.value) && |s| == 10 && s[4] == '-' && s[7] == '-'
  {
    if |s| == 10 && AllDigits(s[0..4]) && s[4] == '-' && AllDigits(s[5..7]) && s[7] == '-' && AllDigits(s[8..10])
    then
      var d := Date(DigitsValue(s[0..4]), DigitsValue(s[5..7]), DigitsValue(s[8..10]));
      if ValidDate(d) then Some(d) else None
    else None
  }

  /** Writing a date from year 1000 on and reading it back gives the date. */
  lemma IsoRoundTrip(d: Date)
    requires ValidDate(d) && d.year >= 1000
    ensures ParseIsoDate(FormatYmd(d)) == Some(d)
  {
    var y, m, dd := PadNat(d.year, 4), PadNat(d.month, 2), PadNat(d.day, 2);
    var s := FormatYmd(d);
    assert Pow10(4) == 10000 && Pow10(2) == 100;
    assert s == y + "-" + m + "-" + dd;
    assert s[0..4] == y && s[5..7] == m && s[8..10] == dd;
  }

  /** Where the three groups of `y-m-d` sit, for a four-character year and
      two-character month and day. */
  lemma JoinPieces(y: string, m: string, dd: string)
    requires |y| == 4 && |m| == 2 && |dd| == 2
    ensures var s := y + "-" + m + "-" + dd;
      && |s| == 10 && s[0..4] == y && s[4] == '-' && s[5..7] == m && s[7] == '-' && s[8..10] == dd
  {
  }

  /** Reading an ISO date whose year has no leading zero and writing it back
      gives the same text. */
  lemma IsoCanonical(s: string)
    requires ParseIsoDate(s).Some? && s[0] != '0'
    ensures FormatYmd(ParseIsoDate(s).value) == s
  {
    var y, m, dd := s[0..4], s[5..7], s[8..10];
    IsoFields(s);
    var d := ParseIsoDate(s).value;
    PadOfDigits(y);
    PadOfDigits(m);
    PadOfDigits(dd);
    LeadingDigitBound(y);
    assert YearText(d.year) == y;
    IsoPieces(s);
  }

  /** The fields of a parsed ISO date are the values of its three digit groups. */
  lemma IsoFields(s: string)
    requires ParseIsoDate(s).Some?
    ensures |s| == 10 && s[4] == '-' && s[7] == '-'
    ensures AllDigits(s[0..4]) && AllDigits(s[5..7]) && AllDigits(s[8..10])
    ensures ParseIsoDate(s).value == Date(DigitsValue(s[0..4]), DigitsValue(s[5..7]), DigitsValue(s[8..10]))
  {
  }

  /** A ten-character ISO date is its three groups joined by '-'. */
  lemma IsoPieces(s: string)
    requires |s| == 10 && s[4] == '-' && s[7] == '-'
    ensures s == s[0..4] + "-" + s[5..7] + "-" + s[8..10]
  {
    var t := s[0..4] + "-" + s[5..7] + "-" + s[8..10];
    assert |t| == 10;
    forall i | 0 <= i < 10 ensures t[i] == s[i] {
      if i < 4 {
      } else if i == 4 {
      } else if i < 7 {
        assert t[i] == s[5..7][i - 5];
      } else if i == 7 {
      } else {
        assert t[i] == s[8..10][i - 8];
      }
    }
  }

  /** Zero-padding the value of a digit string to its length gives it back. */
  lemma {:induction false} PadOfDigits(ds: string)
    requires AllDigits(ds)
    ensures PadNat(DigitsValue(ds), |ds|) == ds
  {
    if ds != [] {
      var init := ds[..|ds| - 1];
      PadOfDigits(init);
      var n := DigitsValue(ds);
      assert n / 10 == DigitsValue(init) && n % 10 == DigitValue(ds[|ds| - 1]);
      assert ds == init + [ds[|ds| - 1]];
    }
  }

  /** A four-digit string that does not start with '0' is at least 1000. */
  lemma LeadingDigitBound(ds: string)
    requires |ds| == 4 && AllDigits(ds) && ds[0] != '0'
    ensures DigitsValue(ds) >= 1000
  {
    assert ds[..1][..0] == [];
    assert DigitsValue(ds[..1]) >= 1;
    assert ds[..2][..1] == ds[..1];
    assert DigitsValue(ds[..2]) >= 10;
    assert ds[..3][..2] == ds[..2];
    assert DigitsValue(ds[..3]) >= 100;
    assert ds[..3] == ds[..|ds| - 1];
  }
}
