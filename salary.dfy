/** Salary columns (`extract_salary` in src/transform_data.py): the salary label
    of an offer, such as "Mensuel de 3000.0 Euros à 4000.0 Euros sur 12.0 mois",
    becomes a yearly minimum, maximum and average. Amounts are exact decimals. */
module Salary {
  import opened Values
  import opened Text

  /** The three columns `extract_salary` returns. */
  datatype SalaryCols = SalaryCols(min: Option<real>, max: Option<real>, avg: Option<real>)

  const NoSalary: SalaryCols := SalaryCols(None, None, None)

  /** The columns are all present or all absent, and a present average lies
      between the two bounds, whichever of them is the larger. */
  predicate WellFormed(c: SalaryCols)
  {
    && (c.min.Some? <==> c.max.Some?) && (c.min.Some? <==> c.avg.Some?)
    && (c.min.Some? ==>
          && (c.min.value <= c.avg.value <= c.max.value || c.max.value <= c.avg.value <= c.min.value)
          && c.avg.value * 2.0 == c.min.value + c.max.value)
  }

  /** `\d+(?:\.\d+)?` at `p`: the number it reads and the position after it.
      Both runs are maximal: backing off a digit leaves a digit where the rest
      of the pattern needs a '.', a space or the end. */
  function NumberAt(s: string, p: nat): (r: Option<(real, nat)>)
    ensures r.Some? ==> p < r.value.1 <= |s| && r.value.0 >= 0.0
    ensures r.Some? <==> p < |s| && IsDigit(s[p])
  {
    if p < |s| && IsDigit(s[p]) then
      var e := DigitRunEnd(s, p);
      var whole := DigitsValueAt(s, p, e) as real;
      if e + 1 < |s| && s[e] == '.' && IsDigit(s[e + 1]) then
        var f := DigitRunEnd(s, e + 1);
        Some((whole + FractionAt(s, e + 1, f), f))
      else Some((whole, e))
    else None
  }

  /** The value of the digits `s[p..f]` after a decimal point: "25" is 0.25.
      Each digit is worth a tenth of the one before it. */
  function FractionAt(s: string, p: nat, f: nat): (v: real)
    requires p <= f <= |s| && forall k :: p <= k < f ==> IsDigit(s[k])
    decreases f - p
    ensures 0.0 <= v <= 1.0
  {
    if p == f then 0.0 else (DigitValue(s[p]) as real + FractionAt(s, p + 1, f)) / 10.0
  }

  /** A match of `<lead> de (number) Euros(?: à (number))?`: its two groups. */
  datatype SalaryMatch = SalaryMatch(low: real, high: Option<real>)

  /** The pattern led by `lead` ("Mensuel" or "Annuel") matches `s` at `p`. The
      optional upper bound is greedy: it is taken whenever " à " and a number
      follow " Euros". */
  function SalaryAt(s: string, p: nat, lead: string): (r: Option<SalaryMatch>)
    ensures r.Some? ==> OccursAt(s, lead + " de ", p) && exists e :: OccursAt(s, " Euros", e)
  {
    if !OccursAt(s, lead + " de ", p) then None
    else
      match NumberAt(s, p + |lead| + 4)
      case None => None
      case Some((low, e)) =>
        if !OccursAt(s, " Euros", e) then None
        else
          var b := e + 6;
          if OccursAt(s, " à ", b) && NumberAt(s, b + 3).Some? then
            Some(SalaryMatch(low, Some(NumberAt(s, b + 3).value.0)))
          else Some(SalaryMatch(low, None))
  }

  /** `re.search` of that pattern: the leftmost match. */
  function SearchSalary(s: string, lead: string): (r: Option<SalaryMatch>)
    ensures r.Some? ==> exists p :: SalaryAt(s, p, lead) == r && forall j: nat :: j < p ==> SalaryAt(s, j, lead).None?
    ensures r.None? ==> forall p: nat :: SalaryAt(s, p, lead).None?
  {
    var at := (p: nat) => SalaryAt(s, p, lead);
    assert forall p: nat :: at(p) == SalaryAt(s, p, lead);
    match FirstSome(at, 0, |s|)
    case None => None
    case Some((p, m)) => Some(m)
  }

  /** The columns of a match whose amounts are per period, `factor` periods a
      year: a missing upper bound makes the maximum equal to the minimum. */
  function Yearly(m: SalaryMatch, factor: real): (c: SalaryCols)
    requires factor > 0.0
    ensures WellFormed(c) && c.min.Some?
    ensures c.min == Some(m.low * factor)
    ensures m.high.Some? ==> c.max == Some(m.high.value * factor)
    ensures m.high.None? ==> c.max == c.min
  {
    var low := m.low * factor;
    var high := if m.high.Some? then m.high.value * factor else low;
    SalaryCols(Some(low), Some(high), Some((low + high) / 2.0))
  }

  // ------------------------------------------------- `pd.isna` on a list

  /** The shape of the object array `pd.isna` builds from a list: the length
      at each level of nesting, as far down as the inner lists agree. A value
      that is not a list (a string included) has no dimension. */
  function Shape(v: Value): seq<nat>
    decreases v, if v.Arr? then |v.items| + 1 else 0
  {
    if v.Arr? then [|v.items|] + InnerShape(v, 0) else []
  }

  /** The part of the shape that the items of the list `v` from `i` on share. */
  function InnerShape(v: Value, i: nat): seq<nat>
    requires v.Arr?
    decreases v, |v.items| - i
  {
    if i >= |v.items| then []
    else if i == |v.items| - 1 then Shape(v.items[i])
    else CommonPrefix(Shape(v.items[i]), InnerShape(v, i + 1))
  }

  function CommonPrefix(a: seq<nat>, b: seq<nat>): (r: seq<nat>)
    ensures |r| <= |a| && |r| <= |b|
    ensures r == a[..|r|] && r == b[..|r|]
  {
    if a == [] || b == [] || a[0] != b[0] then [] else [a[0]] + CommonPrefix(a[1..], b[1..])
  }

  /** The number of elements of an array of the given shape. */
  function Size(shape: seq<nat>): nat
  {
    if shape == [] then 1 else shape[0] * Size(shape[1..])
  }

  /** The one element of a list nested in one-element lists. */
  function Single(v: Value): Value
  {
    if v.Arr? && |v.items| == 1 then Single(v.items[0]) else v
  }

  /** `pd.isna(v) or ...` on a list: the array of flags is true or false when
      it holds exactly one element, and `or` raises ValueError otherwise. */
  predicate ListIsNa(v: Value)
  {
    v.Arr? && Size(Shape(v)) == 1 && Single(v).Null?
  }

  /** `extract_salary`: None or NaN gives three Nones; otherwise a monthly
      match (amounts times 12) takes precedence over an annual one, and a label
      with neither gives three Nones. A list is first tested as an array of
      flags: with no element or several, that test raises ValueError; with a
      single null element it gives three Nones. Any other value makes
      `re.search` raise TypeError. */
  function ExtractSalary(v: Value): (r: Result<SalaryCols>)
    ensures r.Err? <==> !v.Null? && !v.Str? && !ListIsNa(v)
    ensures r.Err? ==> r.error.TypeError? || r.error.ValueError?
    ensures r.Err? && r.error.ValueError? <==> v.Arr? && Size(Shape(v)) != 1
    ensures v.Arr? && r.Ok? ==> r == Ok(NoSalary)
    ensures r.Ok? ==> WellFormed(r.value)
    ensures v.Null? ==> r == Ok(NoSalary)
    ensures v.Str? && SearchSalary(v.s, "Mensuel").Some? ==>
      r == Ok(Yearly(SearchSalary(v.s, "Mensuel").value, 12.0))
    ensures v.Str? && SearchSalary(v.s, "Mensuel").None? && SearchSalary(v.s, "Annuel").Some? ==>
      r == Ok(Yearly(SearchSalary(v.s, "Annuel").value, 1.0))
    ensures v.Str? && SearchSalary(v.s, "Mensuel").None? && SearchSalary(v.s, "Annuel").None? ==>
      r == Ok(NoSalary)
  {
    match v
    case Null => Ok(NoSalary)
    case Str(s) =>
      (match SearchSalary(s, "Mensuel")
       case Some(m) => Ok(Yearly(m, 12.0))
       case None =>
         (match SearchSalary(s, "Annuel")
          case Some(m) => Ok(Yearly(m, 1.0))
          case None => Ok(NoSalary)))
    case Arr(_) =>
      var size := Size(Shape(v));
      if size == 0 then Err(ValueError("The truth value of an empty array is ambiguous"))
      else if size > 1 then Err(ValueError("The truth value of an array with more than one element is ambiguous"))
      else if Single(v).Null? then Ok(NoSalary)
      else Err(TypeError("expected string or bytes-like object"))
    case _ => Err(TypeError("expected string or bytes-like object"))
  }

  /** A list of one item that is not itself a list: a null item reads as a
      missing salary, anything else reaches `re.search` and raises TypeError. */
  lemma OneItemList(x: Value)
    requires !x.Arr?
    ensures x.Null? ==> ExtractSalary(Arr([x])) == Ok(NoSalary)
    ensures !x.Null? ==> ExtractSalary(Arr([x])).Err? && ExtractSalary(Arr([x])).error.TypeError?
  {
    var v := Arr([x]);
    assert InnerShape(v, 0) == Shape(x) == [];
    assert Size(Shape(v)) == Size([1]) == 1;
    assert Single(v) == x;
  }

  /** A list of two or more items, one of which is not a list, gives an array
      of flags with several elements, whose truth value is ambiguous. */
  lemma LongListIsAmbiguous(items: seq<Value>, k: nat)
    requires |items| >= 2 && k < |items| && !items[k].Arr?
    ensures ExtractSalary(Arr(items)) ==
      Err(ValueError("The truth value of an array with more than one element is ambiguous"))
  {
    FlatItem(Arr(items), 0, k);
    assert Size(Shape(Arr(items))) == Size([|items|]) == |items|;
  }

  /** An empty list gives an empty array of flags. */
  lemma EmptyListIsAmbiguous()
    ensures ExtractSalary(Arr([])) == Err(ValueError("The truth value of an empty array is ambiguous"))
  {
    assert Size(Shape(Arr([]))) == Size([0]) == 0;
  }

  /** The items share no dimension once one of them is not a list. */
  lemma {:induction false} FlatItem(v: Value, i: nat, k: nat)
    requires v.Arr? && i <= k < |v.items| && !v.items[k].Arr?
    ensures InnerShape(v, i) == []
    decreases k - i
  {
    if i < k {
      FlatItem(v, i + 1, k);
    }
  }

  // ------------------------------------------------------------------ lemmas

  /** The yearly columns of a monthly label are twelve times those the same
      amounts give as an annual label. */
  lemma MonthlyIsTwelveTimesAnnual(m: SalaryMatch)
    ensures var monthly, annual := Yearly(m, 12.0), Yearly(m, 1.0);
      && monthly.min.value == 12.0 * annual.min.value
      && monthly.max.value == 12.0 * annual.max.value
      && monthly.avg.value == 12.0 * annual.avg.value
  {
  }

  /** A label without " Euros" yields no salary. */
  lemma NoEurosNoSalary(s: string)
    requires !Contains(s, " Euros")
    ensures ExtractSalary(Str(s)) == Ok(NoSalary)
  {
    ContainsIff(s, " Euros");
  }

  /** "Mensuel de A Euros à B…" gives 12A, 12B and their mean. */
  lemma MonthlyRangeRoundTrip(libelle: string, a: nat, b: nat, rest: string)
    requires libelle == "Mensuel de " + NatToString(a) + " Euros à " + NatToString(b) + rest
    requires rest == [] || (!IsDigit(rest[0]) && rest[0] != '.')
    ensures ExtractSalary(Str(libelle))
         == Ok(SalaryCols(Some(12.0 * a as real), Some(12.0 * b as real), Some(6.0 * (a + b) as real)))
  {
    var m := SalaryMatch(a as real, Some(b as real));
    var da, db := NatToString(a), NatToString(b);
    var e := |"Mensuel"| + 4 + |da|;
    MonthlyRegrouped(libelle, da, db, rest);
    RangeLayout(libelle, "Mensuel" + " de ", da, db, rest);
    RangeFromLayout(libelle, "Mensuel", a, e, b, e + 9 + |db|);
    MonthlyLabel(libelle, m);
    MonthlyRangeColumns(a, b);
  }

  /** A monthly range label, with its literals split at the pattern's pieces. */
  lemma MonthlyRegrouped(s: string, da: string, db: string, rest: string)
    requires s == "Mensuel de " + da + " Euros à " + db + rest
    ensures s == "Mensuel" + " de " + da + " Euros" + " à " + db + rest
  {
    assert "Mensuel de " == "Mensuel" + " de " && " Euros à " == " Euros" + " à ";
    Regroup("Mensuel", " de ", da, " Euros", " à ", db, rest);
  }

  lemma MonthlyRangeColumns(a: nat, b: nat)
    ensures Yearly(SalaryMatch(a as real, Some(b as real)), 12.0)
         == SalaryCols(Some(12.0 * a as real), Some(12.0 * b as real), Some(6.0 * (a + b) as real))
  {
  }

  /** Splitting two literals of a label into their parts. */
  lemma Regroup(l1: string, l2: string, x: string, m1: string, m2: string, y: string, z: string)
    ensures (l1 + l2) + x + (m1 + m2) + y + z == l1 + l2 + x + m1 + m2 + y + z
  {
  }

  /** The columns of a label with a monthly match. */
  lemma MonthlyLabel(s: string, m: SalaryMatch)
    requires SearchSalary(s, "Mensuel") == Some(m)
    ensures ExtractSalary(Str(s)) == Ok(Yearly(m, 12.0))
  {
  }

  /** A label laid out as `lead de A Euros à B`, with no digit or '.' after B,
      is found at 0 with bounds A and B. */
  lemma RangeFromLayout(s: string, lead: string, a: nat, e: nat, b: nat, f: nat)
    requires OccursAt(s, lead + " de ", 0) && OccursAt(s, NatToString(a), |lead| + 4)
    requires e == |lead| + 4 + |NatToString(a)| && OccursAt(s, " Euros", e) && OccursAt(s, " à ", e + 6)
    requires OccursAt(s, NatToString(b), e + 9) && f == e + 9 + |NatToString(b)|
    requires f == |s| || (!IsDigit(s[f]) && s[f] != '.')
    ensures SearchSalary(s, lead) == Some(SalaryMatch(a as real, Some(b as real)))
  {
    RangeAmounts(s, |lead| + 4, a, e, b, f);
    RangeFromNumbers(s, lead, a as real, e, b as real);
  }

  /** Both amounts of a range read back as themselves. */
  lemma RangeAmounts(s: string, p: nat, a: nat, e: nat, b: nat, f: nat)
    requires OccursAt(s, NatToString(a), p) && e == p + |NatToString(a)| && OccursAt(s, " Euros", e)
    requires OccursAt(s, NatToString(b), e + 9) && f == e + 9 + |NatToString(b)|
    requires f == |s| || (!IsDigit(s[f]) && s[f] != '.')
    ensures NumberAt(s, p) == Some((a as real, e)) && NumberAt(s, e + 9) == Some((b as real, f))
  {
    NumberBeforeEuros(s, p, a, e);
    NumberOfNat(s, e + 9, b, f);
  }

  /** The pieces of a match with an upper bound at 0 make it the leftmost match. */
  lemma RangeFromNumbers(s: string, lead: string, low: real, e: nat, high: real)
    requires OccursAt(s, lead + " de ", 0)
    requires NumberAt(s, |lead| + 4).Some? && NumberAt(s, |lead| + 4).value == (low, e)
    requires OccursAt(s, " Euros", e) && OccursAt(s, " à ", e + 6)
    requires NumberAt(s, e + 9).Some? && NumberAt(s, e + 9).value.0 == high
    ensures SearchSalary(s, lead) == Some(SalaryMatch(low, Some(high)))
  {
    SalaryAtParts(s, 0, lead, low, e, high);
    FirstSearchAtStart(s, lead, SalaryMatch(low, Some(high)));
  }

  /** An amount followed by " Euros" reads back as itself. */
  lemma NumberBeforeEuros(s: string, p: nat, a: nat, e: nat)
    requires OccursAt(s, NatToString(a), p) && e == p + |NatToString(a)|
    requires OccursAt(s, " Euros", e)
    ensures NumberAt(s, p) == Some((a as real, e))
  {
    OccursAtChar(s, " Euros", e, 0);
    NumberOfNat(s, p, a, e);
  }

  /** Where the pieces of `head + A + " Euros" + " à " + B + rest` lie. */
  lemma RangeLayout(s: string, head: string, da: string, db: string, rest: string)
    requires s == head + da + " Euros" + " à " + db + rest
    ensures var e := |head| + |da|; var f := e + 9 + |db|;
      && OccursAt(s, head, 0) && OccursAt(s, da, |head|) && OccursAt(s, " Euros", e)
      && OccursAt(s, " à ", e + 6) && OccursAt(s, db, e + 9) && s[f..] == rest
      && (rest == [] ==> f == |s|) && (rest != [] ==> f < |s| && s[f] == rest[0])
  {
    ConcatPieces(head, da, " Euros", " à ", db, rest);
    if rest != [] {
      assert s[|head| + |da| + 9 + |db|..][0] == rest[0];
    }
  }

  /** The pieces of a match with an upper bound make `SalaryAt` succeed. */
  lemma SalaryAtParts(s: string, p: nat, lead: string, low: real, e: nat, high: real)
    requires OccursAt(s, lead + " de ", p)
    requires NumberAt(s, p + |lead| + 4).Some? && NumberAt(s, p + |lead| + 4).value == (low, e)
    requires OccursAt(s, " Euros", e) && OccursAt(s, " à ", e + 6)
    requires NumberAt(s, e + 9).Some? && NumberAt(s, e + 9).value.0 == high
    ensures SalaryAt(s, p, lead) == Some(SalaryMatch(low, Some(high)))
  {
  }

  /** A match at position 0 is the leftmost one. */
  lemma FirstSearchAtStart(s: string, lead: string, m: SalaryMatch)
    requires SalaryAt(s, 0, lead) == Some(m)
    ensures SearchSalary(s, lead) == Some(m)
  {
    var r := SearchSalary(s, lead);
    var p :| SalaryAt(s, p, lead) == r && forall j: nat :: j < p ==> SalaryAt(s, j, lead).None?;
    assert p == 0;
  }

  /** "Annuel de A Euros…" with no upper bound and no monthly label gives A for
      all three columns. */
  lemma AnnualSingleRoundTrip(libelle: string, a: nat, rest: string)
    requires libelle == "Annuel de " + NatToString(a) + " Euros" + rest
    requires 'M' !in rest && !OccursAt(rest, " à ", 0)
    ensures ExtractSalary(Str(libelle)) == Ok(SalaryCols(Some(a as real), Some(a as real), Some(a as real)))
  {
    var m := SalaryMatch(a as real, None);
    var da := NatToString(a);
    var e := |"Annuel"| + 4 + |da|;
    assert "Annuel de " == "Annuel" + " de ";
    SingleLayout(libelle, "Annuel" + " de ", da, rest);
    SuffixOccurs(libelle, rest, e + 6, " à ");
    SingleFromLayout(libelle, "Annuel", a, e);
    AnnualHasNoMonthly(libelle, a, rest);
    AnnualLabel(libelle, m);
    SingleColumns(a);
  }

  /** A label of an annual amount, with no 'M' after it, has no monthly match. */
  lemma AnnualHasNoMonthly(s: string, a: nat, rest: string)
    requires s == "Annuel de " + NatToString(a) + " Euros" + rest
    requires 'M' !in rest
    ensures SearchSalary(s, "Mensuel").None?
  {
    assert 'M' !in s by {
      assert 'M' !in "Annuel de " && 'M' !in " Euros";
      assert 'M' !in NatToString(a);
    }
    NoMonthly(s);
  }

  lemma SingleColumns(a: nat)
    ensures Yearly(SalaryMatch(a as real, None), 1.0) == SalaryCols(Some(a as real), Some(a as real), Some(a as real))
  {
  }

  /** Where the pieces of `head + A + " Euros" + rest` lie. */
  lemma SingleLayout(s: string, head: string, da: string, rest: string)
    requires s == head + da + " Euros" + rest
    ensures var e := |head| + |da|;
      && OccursAt(s, head, 0) && OccursAt(s, da, |head|) && OccursAt(s, " Euros", e) && s[e + 6..] == rest
  {
    assert s == head + da + " Euros" + rest + [] + [];
    ConcatPieces(head, da, " Euros", rest, [], []);
  }

  /** A label laid out as `lead de A Euros` with no " à " after it is found at
      0 with the single bound A. */
  lemma SingleFromLayout(s: string, lead: string, a: nat, e: nat)
    requires OccursAt(s, lead + " de ", 0) && OccursAt(s, NatToString(a), |lead| + 4)
    requires e == |lead| + 4 + |NatToString(a)| && OccursAt(s, " Euros", e) && !OccursAt(s, " à ", e + 6)
    ensures SearchSalary(s, lead) == Some(SalaryMatch(a as real, None))
  {
    NumberBeforeEuros(s, |lead| + 4, a, e);
    SalaryAtNoBound(s, 0, lead, a as real, e);
    FirstSearchAtStart(s, lead, SalaryMatch(a as real, None));
  }

  /** The pieces of a match without an upper bound make `SalaryAt` succeed. */
  lemma SalaryAtNoBound(s: string, p: nat, lead: string, low: real, e: nat)
    requires OccursAt(s, lead + " de ", p)
    requires NumberAt(s, p + |lead| + 4).Some? && NumberAt(s, p + |lead| + 4).value == (low, e)
    requires OccursAt(s, " Euros", e) && !OccursAt(s, " à ", e + 6)
    ensures SalaryAt(s, p, lead) == Some(SalaryMatch(low, None))
  {
  }

  /** An occurrence at the start of a suffix is one at the start of the suffix's text. */
  lemma SuffixOccurs(s: string, rest: string, i: nat, pat: string)
    requires i <= |s| && s[i..] == rest
    ensures OccursAt(s, pat, i) <==> OccursAt(rest, pat, 0)
  {
    if OccursAt(s, pat, i) {
      assert rest[0..|pat|] == s[i..i + |pat|];
    }
    if OccursAt(rest, pat, 0) {
      assert rest[0..|pat|] == s[i..i + |pat|];
    }
  }

  /** A text without the letter 'M' has no monthly match. */
  lemma NoMonthly(s: string)
    requires 'M' !in s
    ensures SearchSalary(s, "Mensuel").None?
  {
    forall p: nat ensures SalaryAt(s, p, "Mensuel").None? {
      OccursAtChar(s, "Mensuel" + " de ", p, 0);
    }
  }

  /** The columns of a label with an annual match and no monthly one. */
  lemma AnnualLabel(s: string, m: SalaryMatch)
    requires SearchSalary(s, "Mensuel").None? && SearchSalary(s, "Annuel") == Some(m)
    ensures ExtractSalary(Str(s)) == Ok(Yearly(m, 1.0))
  {
  }

  // ------------------------------------------------------- decimal amounts

  /** The amount `A.fraction` spells. */
  function Decimal(a: nat, fraction: string): real
    requires AllDigits(fraction)
  {
    a as real + Fraction(fraction)
  }

  /** The value of the digits after a decimal point, each worth a tenth of
      the one before it. */
  function Fraction(ds: string): real
    requires AllDigits(ds)
  {
    if ds == [] then 0.0 else (DigitValue(ds[0]) as real + Fraction(ds[1..])) / 10.0
  }

  /** The digits after a point are worth the number they spell over a power of
      ten: ".25" is 25/100. */
  lemma FractionIsRatio(ds: string)
    requires AllDigits(ds)
    ensures Fraction(ds) == DigitsValue(ds) as real / Pow10(|ds|) as real
  {
    assert ds[0..|ds|] == ds;
    FractionInPlace(ds, 0, |ds|);
    DigitsValueInPlace(ds, 0, |ds|);
    FractionValue(ds, 0, |ds|);
  }

  /** Reading the fraction digits in place gives the fraction of the slice. */
  lemma {:induction false} FractionInPlace(s: string, p: nat, f: nat)
    requires p <= f <= |s| && forall k :: p <= k < f ==> IsDigit(s[k])
    decreases f - p
    ensures AllDigits(s[p..f]) && FractionAt(s, p, f) == Fraction(s[p..f])
  {
    if p < f {
      FractionInPlace(s, p + 1, f);
      assert s[p..f][1..] == s[p + 1..f];
      assert s[p..f][0] == s[p];
    }
  }

  /** An amount with a decimal part, followed by no digit, reads back as the
      value it spells. */
  lemma NumberOfDecimal(s: string, p: nat, a: nat, fraction: string, f: nat, x: real)
    requires fraction != [] && AllDigits(fraction)
    requires OccursAt(s, NatToString(a) + "." + fraction, p)
    requires f == p + |NatToString(a)| + 1 + |fraction|
    requires f == |s| || !IsDigit(s[f])
    requires x == Decimal(a, fraction)
    ensures NumberAt(s, p) == Some((x, f))
  {
    var e := p + |NatToString(a)|;
    DecimalLayout(s, p, NatToString(a), fraction, f);
    assert DigitRunEnd(s, p) == e && DigitsValueAt(s, p, e) == a by {
      ReadsWhole(s, p, e, a);
    }
    assert DigitRunEnd(s, e + 1) == f && FractionAt(s, e + 1, f) == Fraction(fraction) by {
      ReadsFraction(s, e + 1, f, fraction);
    }
    NumberWithPoint(s, p, e, f);
  }

  /** A digit run, a '.', and a second digit run read as a number with a
      decimal part. */
  lemma NumberWithPoint(s: string, p: nat, e: nat, f: nat)
    requires p < e && e + 1 < f <= |s| && s[e] == '.'
    requires DigitRunEnd(s, p) == e && DigitRunEnd(s, e + 1) == f
    ensures NumberAt(s, p) == Some((DigitsValueAt(s, p, e) as real + FractionAt(s, e + 1, f), f))
  {
  }

  /** The digits `s[p..e]` spelling `a`, with no digit at `e`, read as `a`. */
  lemma ReadsWhole(s: string, p: nat, e: nat, a: nat)
    requires p <= e < |s| && s[p..e] == NatToString(a) && !IsDigit(s[e])
    ensures DigitRunEnd(s, p) == e && DigitsValueAt(s, p, e) == a
  {
    forall k | p <= k < e ensures IsDigit(s[k]) {
      assert s[k] == s[p..e][k - p];
    }
    DigitRunUpTo(s, p, e);
    DigitsValueInPlace(s, p, e);
    NatToStringRoundTrip(a);
  }

  /** The digits `s[p..f]` after a point, spelling `fraction`, with no digit at
      `f`, read as the fraction they spell. */
  lemma ReadsFraction(s: string, p: nat, f: nat, fraction: string)
    requires p <= f <= |s| && s[p..f] == fraction && AllDigits(fraction) && (f == |s| || !IsDigit(s[f]))
    ensures DigitRunEnd(s, p) == f
    ensures FractionAt(s, p, f) == Fraction(fraction)
  {
    forall k | p <= k < f ensures IsDigit(s[k]) {
      assert s[k] == fraction[k - p];
    }
    DigitRunUpTo(s, p, f);
    FractionInPlace(s, p, f);
  }

  /** Where the digits and the point of `whole.fraction` lie. */
  lemma DecimalLayout(s: string, p: nat, whole: string, fraction: string, f: nat)
    requires OccursAt(s, whole + "." + fraction, p) && f == p + |whole| + 1 + |fraction|
    requires AllDigits(whole) && whole != [] && AllDigits(fraction)
    ensures var e := p + |whole|;
      && e < f <= |s| && s[e] == '.' && s[p..e] == whole && s[e + 1..f] == fraction
  {
    var e := p + |whole|;
    var spelled := whole + "." + fraction;
    assert s[p..f] == spelled;
    assert s[e] == spelled[|whole|];
    assert s[p..e] == spelled[..|whole|] == whole;
    assert s[e + 1..f] == spelled[|whole| + 1..] == fraction;
  }

  /** The fraction digits `s[p..f]` are worth the number they spell over
      `10^(f - p)`. */
  lemma {:induction false} FractionValue(s: string, p: nat, f: nat)
    requires p <= f <= |s| && forall k :: p <= k < f ==> IsDigit(s[k])
    decreases f - p
    ensures FractionAt(s, p, f) == DigitsValueAt(s, p, f) as real / Pow10(f - p) as real
  {
    if p < f {
      FractionValue(s, p + 1, f);
      DigitsValueAtFront(s, p, f);
      var d, v := DigitValue(s[p]), DigitsValueAt(s, p + 1, f);
      var q := Pow10(f - p - 1);
      assert Pow10(f - p) == 10 * q;
      assert FractionAt(s, p, f) == (d as real + v as real / q as real) / 10.0;
      ShiftDigit(d, v, q);
    }
  }

  /** Putting a digit in front of a fraction: `(d + v/q) / 10 == (d*q + v) / (10*q)`. */
  lemma ShiftDigit(d: nat, v: nat, q: nat)
    requires q >= 1
    ensures (d as real + v as real / q as real) / 10.0 == (d * q + v) as real / (10 * q) as real
  {
    var dr, vr, qr := d as real, v as real, q as real;
    assert (d * q + v) as real == dr * qr + vr;
    assert (10 * q) as real == 10.0 * qr;
    assert dr + vr / qr == (dr * qr + vr) / qr;
  }

  /** Digits read in place from the front: the first is worth `10^(e - p - 1)`. */
  lemma {:induction false} DigitsValueAtFront(s: string, p: nat, e: nat)
    requires p < e <= |s| && forall k :: p <= k < e ==> IsDigit(s[k])
    decreases e - p
    ensures DigitsValueAt(s, p, e) == DigitValue(s[p]) * Pow10(e - p - 1) + DigitsValueAt(s, p + 1, e)
  {
    if e > p + 1 {
      DigitsValueAtFront(s, p, e - 1);
      var d, q, v, x := DigitValue(s[p]), Pow10(e - p - 2), DigitsValueAt(s, p + 1, e - 1), DigitValue(s[e - 1]);
      assert Pow10(e - p - 1) == 10 * q;
      assert DigitsValueAt(s, p, e) == (d * q + v) * 10 + x;
      assert DigitsValueAt(s, p + 1, e) == v * 10 + x;
      ShiftLeading(d, q, v, x);
    }
  }

  /** Appending a digit `x` to a number whose leading digit `d` is worth `q`. */
  lemma ShiftLeading(d: int, q: int, v: int, x: int)
    ensures (d * q + v) * 10 + x == d * (10 * q) + (v * 10 + x)
  {
  }

  /** "Mensuel de A.x Euros à B.y…", the form the offers' labels take, gives
      twelve times each amount `x` and `y` and their mean. */
  lemma MonthlyDecimalRangeRoundTrip(libelle: string, a: nat, fa: string, b: nat, fb: string, rest: string, x: real, y: real)
    requires fa != [] && AllDigits(fa) && fb != [] && AllDigits(fb)
    requires libelle == "Mensuel de " + NatToString(a) + "." + fa + " Euros à " + NatToString(b) + "." + fb + rest
    requires rest == [] || !IsDigit(rest[0])
    requires x == Decimal(a, fa) && y == Decimal(b, fb)
    ensures ExtractSalary(Str(libelle)) == Ok(SalaryCols(Some(12.0 * x), Some(12.0 * y), Some(6.0 * (x + y))))
  {
    assert SearchSalary(libelle, "Mensuel") == Some(SalaryMatch(x, Some(y))) by {
      DecimalRegrouped(libelle, NatToString(a), fa, NatToString(b), fb, rest);
      DecimalRangeLabel(libelle, "Mensuel", a, fa, b, fb, rest, x, y);
    }
    MonthlyLabel(libelle, SalaryMatch(x, Some(y)));
    MonthlyColumns(x, y);
  }

  /** A label `lead de A.x Euros à B.y`, followed by no digit, is found at 0
      with those two amounts. */
  lemma DecimalRangeLabel(s: string, lead: string, a: nat, fa: string, b: nat, fb: string, rest: string, x: real, y: real)
    requires fa != [] && AllDigits(fa) && fb != [] && AllDigits(fb)
    requires s == lead + " de " + (NatToString(a) + "." + fa) + " Euros" + " à " + (NatToString(b) + "." + fb) + rest
    requires rest == [] || !IsDigit(rest[0])
    requires x == Decimal(a, fa) && y == Decimal(b, fb)
    ensures SearchSalary(s, lead) == Some(SalaryMatch(x, Some(y)))
  {
    var da, db := NatToString(a) + "." + fa, NatToString(b) + "." + fb;
    RangeLayout(s, lead + " de ", da, db, rest);
    var e := |lead| + 4 + |da|;
    var f := e + 9 + |db|;
    if rest != [] {
      assert s[f] == rest[0];
    }
    DecimalRangeFromLayout(s, lead, a, fa, b, fb, e, f, x, y);
  }

  lemma MonthlyColumns(x: real, y: real)
    ensures Yearly(SalaryMatch(x, Some(y)), 12.0) == SalaryCols(Some(12.0 * x), Some(12.0 * y), Some(6.0 * (x + y)))
  {
  }

  /** A label laid out as `lead de A.x Euros à B.y`, with no digit after it,
      is found at 0 with those two amounts. */
  lemma DecimalRangeFromLayout(s: string, lead: string, a: nat, fa: string, b: nat, fb: string, e: nat, f: nat, x: real, y: real)
    requires fa != [] && AllDigits(fa) && fb != [] && AllDigits(fb)
    requires e == |lead| + 4 + |NatToString(a)| + 1 + |fa| && f == e + 9 + |NatToString(b)| + 1 + |fb|
    requires OccursAt(s, lead + " de ", 0) && OccursAt(s, NatToString(a) + "." + fa, |lead| + 4)
    requires OccursAt(s, " Euros", e) && OccursAt(s, " à ", e + 6) && OccursAt(s, NatToString(b) + "." + fb, e + 9)
    requires f == |s| || !IsDigit(s[f])
    requires x == Decimal(a, fa) && y == Decimal(b, fb)
    ensures SearchSalary(s, lead) == Some(SalaryMatch(x, Some(y)))
  {
    assert NumberAt(s, |lead| + 4) == Some((x, e)) by {
      OccursAtChar(s, " Euros", e, 0);
      NumberOfDecimal(s, |lead| + 4, a, fa, e, x);
    }
    assert NumberAt(s, e + 9) == Some((y, f)) by {
      NumberOfDecimal(s, e + 9, b, fb, f, y);
    }
    RangeFromNumbers(s, lead, x, e, y);
  }

  /** A monthly label with decimal amounts, with its literals split at the
      pattern's pieces. */
  lemma DecimalRegrouped(s: string, a: string, fa: string, b: string, fb: string, rest: string)
    requires s == "Mensuel de " + a + "." + fa + " Euros à " + b + "." + fb + rest
    ensures s == "Mensuel" + " de " + (a + "." + fa) + " Euros" + " à " + (b + "." + fb) + rest
  {
    assert "Mensuel de " == "Mensuel" + " de " && " Euros à " == " Euros" + " à ";
  }

  /** "Mensuel de A.0 Euros à B.0 Euros…" gives 12A, 12B and their mean. */
  lemma MonthlyPointZeroRoundTrip(libelle: string, a: nat, b: nat, rest: string, x: real, y: real)
    requires libelle == "Mensuel de " + NatToString(a) + ".0 Euros à " + NatToString(b) + ".0" + rest
    requires rest == [] || !IsDigit(rest[0])
    requires x == a as real && y == b as real
    ensures ExtractSalary(Str(libelle)) == Ok(SalaryCols(Some(12.0 * x), Some(12.0 * y), Some(6.0 * (x + y))))
  {
    PointZeroRegrouped(libelle, NatToString(a), NatToString(b), rest);
    PointZero(a);
    PointZero(b);
    MonthlyDecimalRangeRoundTrip(libelle, a, "0", b, "0", rest, x, y);
  }

  lemma PointZeroRegrouped(s: string, da: string, db: string, rest: string)
    requires s == "Mensuel de " + da + ".0 Euros à " + db + ".0" + rest
    ensures s == "Mensuel de " + da + "." + "0" + " Euros à " + db + "." + "0" + rest
  {
    assert ".0 Euros à " == "." + "0" + " Euros à " && ".0" == "." + "0";
  }

  /** `A.0` is worth A. */
  lemma PointZero(a: nat)
    ensures Decimal(a, "0") == a as real
  {
    assert "0"[1..] == [];
  }

  // ---------------------------------------------------------- annual ranges

  /** "Annuel de A Euros à B…" gives A, B and their mean, in the order they are
      written: nothing puts the smaller amount first. */
  lemma AnnualRangeRoundTrip(libelle: string, a: nat, b: nat, rest: string)
    requires libelle == "Annuel de " + NatToString(a) + " Euros à " + NatToString(b) + rest
    requires rest == [] || (!IsDigit(rest[0]) && rest[0] != '.')
    requires 'M' !in rest
    ensures ExtractSalary(Str(libelle))
         == Ok(SalaryCols(Some(a as real), Some(b as real), Some((a + b) as real / 2.0)))
  {
    var m := SalaryMatch(a as real, Some(b as real));
    var da, db := NatToString(a), NatToString(b);
    var e := |"Annuel"| + 4 + |da|;
    AnnualRegrouped(libelle, da, db, rest);
    RangeLayout(libelle, "Annuel" + " de ", da, db, rest);
    RangeFromLayout(libelle, "Annuel", a, e, b, e + 9 + |db|);
    AnnualRangeHasNoMonthly(libelle, a, b, rest);
    AnnualLabel(libelle, m);
    AnnualRangeColumns(a, b);
  }

  lemma AnnualRangeColumns(a: nat, b: nat)
    ensures Yearly(SalaryMatch(a as real, Some(b as real)), 1.0)
         == SalaryCols(Some(a as real), Some(b as real), Some((a + b) as real / 2.0))
  {
  }

  /** An annual range label, with its literals split at the pattern's pieces. */
  lemma AnnualRegrouped(s: string, da: string, db: string, rest: string)
    requires s == "Annuel de " + da + " Euros à " + db + rest
    ensures s == "Annuel" + " de " + da + " Euros" + " à " + db + rest
  {
    assert "Annuel de " == "Annuel" + " de " && " Euros à " == " Euros" + " à ";
    Regroup("Annuel", " de ", da, " Euros", " à ", db, rest);
  }

  /** A label of an annual range, with no 'M' after it, has no monthly match. */
  lemma AnnualRangeHasNoMonthly(s: string, a: nat, b: nat, rest: string)
    requires s == "Annuel de " + NatToString(a) + " Euros à " + NatToString(b) + rest
    requires 'M' !in rest
    ensures SearchSalary(s, "Mensuel").None?
  {
    assert 'M' !in s by {
      assert 'M' !in "Annuel de " && 'M' !in " Euros à ";
      assert 'M' !in NatToString(a) && 'M' !in NatToString(b);
    }
    NoMonthly(s);
  }

  /** An annual range written larger amount first gives a minimum above the
      maximum. */
  lemma ReversedAnnualRange(a: nat, b: nat)
    requires a > b
    ensures var r := ExtractSalary(Str("Annuel de " + NatToString(a) + " Euros à " + NatToString(b)));
      r.Ok? && r.value.min.Some? && r.value.max.Some? && r.value.min.value > r.value.max.value
  {
    var libelle := "Annuel de " + NatToString(a) + " Euros à " + NatToString(b);
    assert libelle == libelle + [];
    AnnualRangeRoundTrip(libelle, a, b, []);
  }

  /** The number read at `p` is `n` when `s[p..e]` spells `n` and no digit or
      '.' follows. */
  lemma NumberOfNat(s: string, p: nat, n: nat, e: nat)
    requires OccursAt(s, NatToString(n), p) && e == p + |NatToString(n)|
    requires e == |s| || (!IsDigit(s[e]) && s[e] != '.')
    ensures NumberAt(s, p) == Some((n as real, e))
  {
    var ds := NatToString(n);
    assert s[p..e] == ds;
    forall k | p <= k < e ensures IsDigit(s[k]) {
      assert s[k] == ds[k - p];
    }
    assert IsDigit(s[p]) by { assert s[p] == ds[0]; }
    DigitRunUpTo(s, p, e);
    DigitsValueInPlace(s, p, e);
    NatToStringRoundTrip(n);
  }
}
