/** Experience columns (`map_experience`, `extract_experience` in
    src/transform_data.py). */
module Experience {
  import opened Values
  import opened Text

  /** `map_experience`: the code 'E' (experience required) becomes 'Y', every
      other value, None included, becomes 'N'. */
  function MapExperience(v: Value): (flag: string)
    ensures flag == "Y" || flag == "N"
    ensures flag == "Y" <==> v == Str("E")
  {
    if v == Str("E") then "Y" else "N"
  }

  /** The label that means no experience is needed. */
  const Beginner: string := "Débutant accepté"

  /** The units after the count: `An\(s\)` for years, `Mo(i)?s` for months. */
  const YearUnits: seq<string> := ["An(s)"]
  const MonthUnits: seq<string> := ["Mois", "Mos"]

  /** `(\d+)\s*<unit>` matches `s` at `p`: a run of digits starting at `p`, then
      whitespace, then one of `units`. Neither greedy run can give characters
      back usefully (a digit is neither whitespace nor the first letter of a
      unit, nor is whitespace), so the runs are maximal and the match at `p`
      is unique; its value is the number the digits spell. */
  function CountAt(s: string, p: nat, units: seq<string>): (r: Option<nat>)
    ensures r.Some? ==> p < |s| && IsDigit(s[p])
  {
    if p < |s| && IsDigit(s[p]) then
      var e := DigitRunEnd(s, p);
      var q := SpaceRunEnd(s, e);
      if exists i :: 0 <= i < |units| && OccursAt(s, units[i], q) then
        Some(DigitsValueAt(s, p, e))
      else None
    else None
  }

  /** `re.search(r'(\d+)\s*<unit>', s).group(1)` read as an integer: the count of
      the leftmost match. */
  function SearchCount(s: string, units: seq<string>): (r: Option<nat>)
    ensures r.Some? ==> exists p :: CountAt(s, p, units) == r && forall j: nat :: j < p ==> CountAt(s, j, units).None?
    ensures r.None? ==> forall p: nat :: CountAt(s, p, units).None?
  {
    var at := (p: nat) => CountAt(s, p, units);
    assert forall p: nat :: at(p) == CountAt(s, p, units);
    match FirstSome(at, 0, |s|)
    case None => None
    case Some((p, n)) => Some(n)
  }

  /** `extract_experience`: 0 for the beginner label; otherwise the number of
      years of the first "N An(s)"; failing that, the first "N Mois" (or
      "N Mos") as a fraction of a year; None when neither occurs. A value that
      is not a string (None, NaN) makes `re.search` raise TypeError. */
  function ExtractExperience(v: Value): (r: Result<Option<real>>)
    ensures !v.Str? <==> r.Err?
    ensures r.Err? ==> r.error.TypeError?
    ensures v == Str(Beginner) ==> r == Ok(Some(0.0))
    ensures v.Str? && v.s != Beginner ==>
      && (SearchCount(v.s, YearUnits).Some? ==> r == Ok(Some(SearchCount(v.s, YearUnits).value as real)))
      && (SearchCount(v.s, YearUnits).None? && SearchCount(v.s, MonthUnits).Some? ==>
            r == Ok(Some(SearchCount(v.s, MonthUnits).value as real / 12.0)))
      && (SearchCount(v.s, YearUnits).None? && SearchCount(v.s, MonthUnits).None? ==> r == Ok(None))
    ensures r.Ok? && r.value.Some? ==> r.value.value >= 0.0
  {
    match v
    case Str(s) =>
      if s == Beginner then Ok(Some(0.0))
      else
        (match SearchCount(s, YearUnits)
         case Some(n) => Ok(Some(n as real))
         case None =>
           (match SearchCount(s, MonthUnits)
            case Some(n) => Ok(Some(n as real / 12.0))
            case None => Ok(None)))
    case _ => Err(TypeError("expected string or bytes-like object"))
  }

  // ------------------------------------------------------------------ lemmas

  /** A digit-free text before "N An(s)" gives N years, whatever follows. */
  lemma YearsRoundTrip(prefix: string, n: nat, rest: string)
    requires forall i :: 0 <= i < |prefix| ==> !IsDigit(prefix[i])
    ensures ExtractExperience(Str(prefix + NatToString(n) + " An(s)" + rest)) == Ok(Some(n as real))
  {
    var ds := NatToString(n);
    var s := prefix + ds + " An(s)" + rest;
    assert s == prefix + ds + (" An(s)" + rest);
    NotBeginner(prefix, ds, " An(s)" + rest);
    assert " " + "An(s)" + rest == " An(s)" + rest;
    LeadingCount(prefix, ds, "An(s)", rest, YearUnits, 0);
    assert SearchCount(s, YearUnits) == Some(DigitsValue(ds));
    NatToStringRoundTrip(n);
    assert ExtractExperience(Str(s)) == Ok(Some(DigitsValue(ds) as real));
  }

  /** A digit-free text before "N Mois", and a digit-free text after it (such
      as " minimum"), gives N twelfths of a year. A digit after the unit could
      start a years count, which would win. */
  lemma MonthsRoundTrip(prefix: string, n: nat, rest: string)
    requires forall i :: 0 <= i < |prefix| ==> !IsDigit(prefix[i])
    requires forall i :: 0 <= i < |rest| ==> !IsDigit(rest[i])
    ensures ExtractExperience(Str(prefix + NatToString(n) + " Mois" + rest)) == Ok(Some(n as real / 12.0))
  {
    var ds := NatToString(n);
    var s := prefix + ds + " Mois" + rest;
    assert s == prefix + ds + (" Mois" + rest);
    NotBeginner(prefix, ds, " Mois" + rest);
    MonthsCount(prefix, ds, rest);
    NoYearsBeforeMonths(prefix, ds, rest);
    NatToStringRoundTrip(n);
    MonthsLabel(s, n);
  }

  /** A label with a months count and no years count gives that many twelfths. */
  lemma MonthsLabel(s: string, n: nat)
    requires s != Beginner && SearchCount(s, YearUnits).None? && SearchCount(s, MonthUnits) == Some(n)
    ensures ExtractExperience(Str(s)) == Ok(Some(n as real / 12.0))
  {
  }

  /** The months count of `prefix + ds + " Mois" + rest`. */
  lemma MonthsCount(prefix: string, ds: string, rest: string)
    requires forall i :: 0 <= i < |prefix| ==> !IsDigit(prefix[i])
    requires |ds| > 0 && AllDigits(ds)
    ensures SearchCount(prefix + ds + " Mois" + rest, MonthUnits) == Some(DigitsValue(ds))
  {
    MonthsSplit(prefix + ds, rest);
    LeadingCount(prefix, ds, "Mois", rest, MonthUnits, 0);
  }

  /** " Mois" is a space and the unit. */
  lemma MonthsSplit(head: string, rest: string)
    ensures head + " Mois" + rest == head + (" " + "Mois" + rest)
  {
    assert " " + "Mois" == " Mois";
  }

  /** A years count wins over a months count later in the text. */
  lemma YearsBeatMonths()
    ensures ExtractExperience(Str("1 An(s) et 6 Mois")) == Ok(Some(1.0))
  {
    assert "1 An(s) et 6 Mois" == [] + NatToString(1) + " An(s)" + " et 6 Mois";
    YearsRoundTrip([], 1, " et 6 Mois");
  }

  /** With `prefix` free of digits, the leftmost count of
      `prefix + ds + " " + unit + rest` is `ds`. */
  lemma LeadingCount(prefix: string, ds: string, unit: string, rest: string, units: seq<string>, u: nat)
    requires forall i :: 0 <= i < |prefix| ==> !IsDigit(prefix[i])
    requires |ds| > 0 && AllDigits(ds)
    requires u < |units| && units[u] == unit && |unit| > 0 && !IsSpace(unit[0])
    ensures SearchCount(prefix + ds + (" " + unit + rest), units) == Some(DigitsValue(ds))
  {
    var s := prefix + ds + (" " + unit + rest);
    CountAtStart(prefix, ds, unit, rest, units, u);
    forall j: nat | j < |prefix| ensures CountAt(s, j, units).None? {
      assert s[j] == prefix[j];
    }
    var r := SearchCount(s, units);
    assert r.Some?;
    var p :| CountAt(s, p, units) == r && forall j: nat :: j < p ==> CountAt(s, j, units).None?;
    assert p == |prefix|;
  }

  /** The count at the start of `ds`. */
  lemma CountAtStart(prefix: string, ds: string, unit: string, rest: string, units: seq<string>, u: nat)
    requires |ds| > 0 && AllDigits(ds)
    requires u < |units| && units[u] == unit && |unit| > 0 && !IsSpace(unit[0])
    ensures CountAt(prefix + ds + (" " + unit + rest), |prefix|, units) == Some(DigitsValue(ds))
  {
    var s := prefix + ds + (" " + unit + rest);
    var p, e := |prefix|, |prefix| + |ds|;
    assert s[p..e] == ds;
    assert s[e..] == " " + unit + rest;
    assert s[e] == ' ';
    assert s[e + 1..e + 1 + |unit|] == unit;
    CountFromLayout(s, p, e, ds, units, u);
  }

  /** Digits `ds` at `p..e`, then one space and a unit: the count at `p` is
      the number `ds` spells. */
  lemma CountFromLayout(s: string, p: nat, e: nat, ds: string, units: seq<string>, u: nat)
    requires p < e < |s| && s[p..e] == ds && AllDigits(ds) && s[e] == ' '
    requires u < |units| && |units[u]| > 0 && !IsSpace(units[u][0]) && OccursAt(s, units[u], e + 1)
    ensures CountAt(s, p, units) == Some(DigitsValue(ds))
  {
    forall k | p <= k < e ensures IsDigit(s[k]) {
      assert s[k] == s[p..e][k - p];
    }
    DigitRunUpTo(s, p, e);
    OccursAtChar(s, units[u], e + 1, 0);
    SpaceRunUpTo(s, e, e + 1);
    DigitsValueInPlace(s, p, e);
  }

  /** The whitespace run starting at `p` ends at `e`. */
  lemma {:induction false} SpaceRunUpTo(s: string, p: nat, e: nat)
    requires p <= e <= |s|
    requires forall k :: p <= k < e ==> IsSpace(s[k])
    requires e == |s| || !IsSpace(s[e])
    decreases e - p
    ensures SpaceRunEnd(s, p) == e
  {
    if p < e {
      SpaceRunUpTo(s, p + 1, e);
    }
  }

  /** No years count occurs in `prefix + ds + " Mois" + rest` when neither
      `prefix` nor `rest` holds a digit. */
  lemma NoYearsBeforeMonths(prefix: string, ds: string, rest: string)
    requires forall i :: 0 <= i < |prefix| ==> !IsDigit(prefix[i])
    requires forall i :: 0 <= i < |rest| ==> !IsDigit(rest[i])
    requires |ds| > 0 && AllDigits(ds)
    ensures SearchCount(prefix + ds + " Mois" + rest, YearUnits).None?
  {
    var s := prefix + ds + " Mois" + rest;
    var e := |prefix| + |ds|;
    assert forall k :: 0 <= k < |prefix| ==> s[k] == prefix[k];
    assert forall k :: |prefix| <= k < e ==> s[k] == ds[k - |prefix|];
    assert s[e] == ' ' && s[e + 1] == 'M';
    assert forall k :: e <= k < |s| ==> !IsDigit(s[k]) by {
      forall k | e <= k < |s| ensures !IsDigit(s[k]) {
        if k < e + 5 {
          assert s[k] == " Mois"[k - e];
        } else {
          assert s[k] == rest[k - e - 5];
        }
      }
    }
    forall p: nat | p < |s| && IsDigit(s[p]) ensures CountAt(s, p, YearUnits).None? {
      DigitRunUpTo(s, p, e);
      SpaceRunUpTo(s, e, e + 1);
      OccursAtChar(s, "An(s)", e + 1, 0);
    }
  }

  /** A text with a digit in it is not the beginner label. */
  lemma NotBeginner(prefix: string, ds: string, rest: string)
    requires |ds| > 0 && AllDigits(ds)
    ensures prefix + ds + rest != Beginner
  {
    var s := prefix + ds + rest;
    assert forall i :: 0 <= i < |Beginner| ==> !IsDigit(Beginner[i]);
    assert IsDigit(s[|prefix|]);
  }
}
