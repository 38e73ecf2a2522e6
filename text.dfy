/** Character classes, case folding, substring search and decimal digits: the
    pieces the pipeline's regular expressions and format strings are built from.

    Python's `str.lower()`, `\w`, `\s` and `\d` are Unicode-aware. This model folds
    ASCII and Latin-1 capitals (so 'É' becomes 'é'), counts as word characters the
    ASCII letters and digits, '_', and the letters of Latin-1 and Latin Extended-A
    (so 'é' and 'œ' are word characters but '’' is not), counts as whitespace the
    characters Python's `\s` matches, and takes `\d` to be the ASCII digits. */
module Text {
  import opened Values

  // ---------------------------------------------------------------- characters

  predicate IsDigit(c: char) { '0' <= c <= '9' }

  predicate IsAsciiLetter(c: char) { 'a' <= c <= 'z' || 'A' <= c <= 'Z' }

  /** `\w` of Python's `re` on the characters this model distinguishes. */
  predicate IsWordChar(c: char)
  {
    || IsAsciiLetter(c) || IsDigit(c) || c == '_'
    || c == '\U{AA}' || c == '\U{B5}' || c == '\U{BA}'             // ordinal a, micro sign, ordinal o
    || c == '\U{B2}' || c == '\U{B3}' || c == '\U{B9}'             // superscript digits
    || ('\U{BC}' <= c <= '\U{BE}')                               // vulgar fractions
    || ('\U{C0}' <= c <= '\U{FF}' && c != '\U{D7}' && c != '\U{F7}')  // Latin-1 letters, not the signs of multiplication and division
    || ('\U{100}' <= c <= '\U{17F}')                             // Latin Extended-A
  }

  /** `\s` of Python's `re` (Unicode whitespace). */
  predicate IsSpace(c: char)
  {
    || c == ' ' || ('\t' <= c <= '\r') || ('\U{1C}' <= c <= '\U{1F}')
    || c == '\U{85}' || c == '\U{A0}' || c == '\U{1680}'
    || ('\U{2000}' <= c <= '\U{200A}') || c == '\U{2028}' || c == '\U{2029}'
    || c == '\U{202F}' || c == '\U{205F}' || c == '\U{3000}'
  }

  predicate IsUpper(c: char)
  {
    ('A' <= c <= 'Z') || ('\U{C0}' <= c <= '\U{DE}' && c != '\U{D7}')
  }

  /** `str.lower()` on one character: capitals move 32 code points up the table. */
  function LowerChar(c: char): (r: char)
    ensures !IsUpper(r)
    ensures IsUpper(c) ==> r as int == c as int + 32
    ensures !IsUpper(c) ==> r == c
    ensures IsWordChar(r) == IsWordChar(c)
  {
    if IsUpper(c) then (c as int + 32) as char else c
  }

  /** `str.lower()`: no capital is left, each capital becomes its small
      letter, every other character stays, and word characters stay word
      characters. */
  function Lower(s: string): (r: string)
    ensures |r| == |s|
    ensures forall i :: 0 <= i < |r| ==> !IsUpper(r[i])
    ensures forall i :: 0 <= i < |s| && IsUpper(s[i]) ==> r[i] as int == s[i] as int + 32
    ensures forall i :: 0 <= i < |s| && !IsUpper(s[i]) ==> r[i] == s[i]
    ensures forall i :: 0 <= i < |s| ==> IsWordChar(r[i]) == IsWordChar(s[i])
  {
    seq(|s|, i requires 0 <= i < |s| => LowerChar(s[i]))
  }

  /** Lower-casing twice is lower-casing once, so every classifier that lower-cases
      its input gives the same answer on an input and on its lower-cased form. */
  lemma LowerIdempotent(s: string)
    ensures Lower(Lower(s)) == Lower(s)
  {
  }

  // ----------------------------------------------------------- substring search

  /** `pat` occurs in `s` starting at position `i`. */
  predicate OccursAt(s: string, pat: string, i: int)
  {
    0 <= i && i + |pat| <= |s| && s[i..i + |pat|] == pat
  }

  /** The first position `j` in `lo..hi` at which `f` succeeds, with its result:
      how `re.search` scans start positions from left to right and reports the
      match at the first one that works. */
  function FirstSome<T>(f: nat -> Option<T>, lo: nat, hi: nat): (r: Option<(nat, T)>)
    decreases hi - lo
    ensures r.Some? ==> lo <= r.value.0 <= hi && f(r.value.0) == Some(r.value.1)
    ensures r.Some? ==> forall j :: lo <= j < r.value.0 ==> f(j).None?
    ensures r.None? ==> forall j :: lo <= j <= hi ==> f(j).None?
  {
    if lo > hi then None
    else if f(lo).Some? then Some((lo, f(lo).value))
    else FirstSome(f, lo + 1, hi)
  }

  /** `re.search(pat, s)` for a pattern made of plain characters: the leftmost
      position where `pat` occurs. */
  function Find(s: string, pat: string): (r: Option<nat>)
    ensures r.Some? ==> OccursAt(s, pat, r.value) && forall j :: 0 <= j < r.value ==> !OccursAt(s, pat, j)
    ensures r.None? ==> forall j :: !OccursAt(s, pat, j)
  {
    var at := (j: nat) => if OccursAt(s, pat, j) then Some(()) else None;
    assert forall j: nat :: at(j).Some? <==> OccursAt(s, pat, j);
    match FirstSome(at, 0, |s|)
    case None => None
    case Some((j, _)) => Some(j)
  }

  /** `pat` occurs somewhere in `s`. */
  predicate Contains(s: string, pat: string)
  {
    Find(s, pat).Some?
  }

  lemma ContainsIff(s: string, pat: string)
    ensures Contains(s, pat) <==> exists j :: OccursAt(s, pat, j)
  {
    if Contains(s, pat) {
      assert OccursAt(s, pat, Find(s, pat).value);
    }
  }

  /** A witness occurrence makes `Contains` true. */
  lemma ContainsAt(s: string, pat: string, j: nat)
    requires OccursAt(s, pat, j)
    ensures Contains(s, pat)
  {
    ContainsIff(s, pat);
  }

  /** The characters of an occurrence are those of the pattern. */
  lemma OccursAtChar(t: string, pat: string, j: nat, k: nat)
    requires k < |pat|
    ensures OccursAt(t, pat, j) ==> j + k < |t| && t[j + k] == pat[k]
  {
    if OccursAt(t, pat, j) {
      assert t[j..j + |pat|][k] == t[j + k];
    }
  }

  /** Where each of six concatenated pieces sits in the whole. */
  lemma ConcatPieces(x1: string, x2: string, x3: string, x4: string, x5: string, x6: string)
    ensures var s := x1 + x2 + x3 + x4 + x5 + x6;
      var p2 := |x1|; var p3 := p2 + |x2|; var p4 := p3 + |x3|; var p5 := p4 + |x4|; var p6 := p5 + |x5|;
      && OccursAt(s, x1, 0) && OccursAt(s, x2, p2) && OccursAt(s, x3, p3)
      && OccursAt(s, x4, p4) && OccursAt(s, x5, p5) && s[p6..] == x6
  {
    var s := x1 + x2 + x3 + x4 + x5 + x6;
    var p2 := |x1|; var p3 := p2 + |x2|; var p4 := p3 + |x3|; var p5 := p4 + |x4|; var p6 := p5 + |x5|;
    assert s[0..p2] == x1;
    assert s[p2..p3] == x2;
    assert s[p3..p4] == x3;
    assert s[p4..p5] == x4;
    assert s[p5..p6] == x5;
    assert s[p6..] == x6;
  }

  /** A pattern occurring inside a piece of a string occurs in the whole string. */
  lemma ContainsInfix(a: string, b: string, c: string, pat: string)
    requires Contains(b, pat)
    ensures Contains(a + b + c, pat)
  {
    ContainsIff(b, pat);
    var j :| OccursAt(b, pat, j);
    assert (a + b + c)[|a| + j .. |a| + j + |pat|] == b[j .. j + |pat|];
    ContainsAt(a + b + c, pat, |a| + j);
  }

  // ------------------------------------------------------------ decimal digits

  predicate AllDigits(s: string)
  {
    forall i :: 0 <= i < |s| ==> IsDigit(s[i])
  }

  function DigitValue(c: char): (d: nat)
    requires IsDigit(c)
    ensures d < 10
  {
    c as int - '0' as int
  }

  function DigitChar(d: nat): (c: char)
    requires d < 10
    ensures IsDigit(c) && DigitValue(c) == d
  {
    ('0' as int + d) as char
  }

  /** `int(ds)` for a run of decimal digits (leading zeros allowed). */
  function DigitsValue(ds: string): nat
    requires AllDigits(ds)
  {
    if ds == [] then 0 else DigitsValue(ds[..|ds| - 1]) * 10 + DigitValue(ds[|ds| - 1])
  }

  /** `str(n)` for a natural number: no leading zeros. */
  function NatToString(n: nat): (s: string)
    decreases n
    ensures |s| > 0 && AllDigits(s)
    ensures |s| > 1 ==> s[0] != '0'
  {
    if n < 10 then [DigitChar(n)] else NatToString(n / 10) + [DigitChar(n % 10)]
  }

  /** Reading back what `str` wrote gives the number: `int(str(n)) == n`. */
  lemma {:induction false} NatToStringRoundTrip(n: nat)
    ensures DigitsValue(NatToString(n)) == n
  {
    var s := NatToString(n);
    if n >= 10 {
      NatToStringRoundTrip(n / 10);
      assert s[..|s| - 1] == NatToString(n / 10);
    }
  }

  /** `str(i)` for any integer, as the f-strings of the error messages print it. */
  function IntToString(i: int): (s: string)
    ensures |s| > 0
    ensures i >= 0 ==> s == NatToString(i)
    ensures i < 0 ==> s == "-" + NatToString(-i)
  {
    if i >= 0 then NatToString(i) else "-" + NatToString(-i)
  }

  /** Zero-padded decimal of fixed `width` (`%04d`, `%02d`), for numbers that fit. */
  function PadNat(n: nat, width: nat): (s: string)
    ensures |s| == width && AllDigits(s)
    ensures n < Pow10(width) ==> DigitsValue(s) == n
  {
    if width == 0 then []
    else
      var s := PadNat(n / 10, width - 1) + [DigitChar(n % 10)];
      assert s[..|s| - 1] == PadNat(n / 10, width - 1);
      s
  }

  function Pow10(k: nat): (p: nat)
    ensures p >= 1
  {
    if k == 0 then 1 else 10 * Pow10(k - 1)
  }

  // ------------------------------------------------------------ regex pieces

  /** End of the run of digits starting at `p` (greedy `\d*`). */
  function DigitRunEnd(s: string, p: nat): (q: nat)
    requires p <= |s|
    decreases |s| - p
    ensures p <= q <= |s|
    ensures forall k :: p <= k < q ==> IsDigit(s[k])
    ensures q == |s| || !IsDigit(s[q])
  {
    if p < |s| && IsDigit(s[p]) then DigitRunEnd(s, p + 1) else p
  }

  /** End of the run of whitespace starting at `p` (greedy `\s*`). */
  function SpaceRunEnd(s: string, p: nat): (q: nat)
    requires p <= |s|
    decreases |s| - p
    ensures p <= q <= |s|
    ensures forall k :: p <= k < q ==> IsSpace(s[k])
    ensures q == |s| || !IsSpace(s[q])
  {
    if p < |s| && IsSpace(s[p]) then SpaceRunEnd(s, p + 1) else p
  }

  /** A digit run of `s` read from `p` to `q`. */
  lemma DigitSlice(s: string, p: nat, q: nat)
    requires p <= q <= |s|
    requires forall k :: p <= k < q ==> IsDigit(s[k])
    ensures AllDigits(s[p..q])
  {
  }

  /** The digit run of `ds + rest` starting at 0, when `rest` does not start with a
      digit, is `ds`. */
  lemma DigitRunOfConcat(ds: string, rest: string)
    requires AllDigits(ds)
    requires rest == [] || !IsDigit(rest[0])
    ensures DigitRunEnd(ds + rest, 0) == |ds|
  {
    DigitRunUpTo(ds + rest, 0, |ds|);
  }

  /** The number the digits `s[p..e]` spell, read in place, most significant
      digit first. */
  function DigitsValueAt(s: string, p: nat, e: nat): nat
    requires p <= e <= |s| && forall k :: p <= k < e ==> IsDigit(s[k])
    decreases e - p
  {
    if e == p then 0 else DigitsValueAt(s, p, e - 1) * 10 + DigitValue(s[e - 1])
  }

  /** Reading the digits in place gives the value of the slice they form. */
  lemma {:induction false} DigitsValueInPlace(s: string, p: nat, e: nat)
    requires p <= e <= |s| && forall k :: p <= k < e ==> IsDigit(s[k])
    decreases e - p
    ensures AllDigits(s[p..e]) && DigitsValueAt(s, p, e) == DigitsValue(s[p..e])
  {
    if e > p {
      DigitsValueInPlace(s, p, e - 1);
      var ds := s[p..e];
      assert ds[..|ds| - 1] == s[p..e - 1];
      assert ds[|ds| - 1] == s[e - 1];
    }
  }

  /** The digit run starting at `p` ends at `e` when `s[p..e]` is all digits and
      `e` is not a digit. */
  lemma {:induction false} DigitRunUpTo(s: string, p: nat, e: nat)
    requires p <= e <= |s|
    requires forall k :: p <= k < e ==> IsDigit(s[k])
    requires e == |s| || !IsDigit(s[e])
    decreases e - p
    ensures DigitRunEnd(s, p) == e
  {
    if p < e {
      DigitRunUpTo(s, p + 1, e);
    }
  }
}
