/** Python's string and integer conversions that the model relies on:
    `int(s)`, `str(n)`, slicing suffixes, substring tests and `str.replace`. */
module PyText {
  import opened Wrappers

  /** `s[-n:] == suffix` for a suffix of length n: a string shorter than n
      slices to itself, which cannot equal the longer suffix. */
  predicate EndsWith(s: string, suffix: string)
  {
    |s| >= |suffix| && s[|s| - |suffix|..] == suffix
  }

  predicate IsDigit(c: char) { '0' <= c <= '9' }

  function DigitValue(c: char): nat
    requires IsDigit(c)
  {
    (c as int - '0' as int) as nat
  }

  function DigitChar(d: nat): (c: char)
    requires d < 10
    ensures IsDigit(c) && DigitValue(c) == d
  {
    ('0' as int + d) as char
  }

  /** The value of a non-empty run of decimal digits. */
  function DigitsValue(s: string): nat
    requires s != [] && forall i :: 0 <= i < |s| ==> IsDigit(s[i])
  {
    if |s| == 1 then DigitValue(s[0])
    else DigitsValue(s[..|s| - 1]) * 10 + DigitValue(s[|s| - 1])
  }

  predicate AllDigits(s: string)
  {
    s != [] && forall i :: 0 <= i < |s| ==> IsDigit(s[i])
  }

  /** Decimal digits with single underscores between two digits, as `int()`
      accepts them: "1_000" but not "_1", "1_" or "1__0". */
  predicate Grouped(s: string)
  {
    s != [] && IsDigit(s[0]) && IsDigit(s[|s| - 1]) &&
    (forall i :: 0 <= i < |s| ==> IsDigit(s[i]) || s[i] == '_') &&
    (forall i :: 0 <= i < |s| - 1 && s[i] == '_' ==> s[i + 1] != '_')
  }

  /** `s` without its underscores. */
  function Ungrouped(s: string): (r: string)
    ensures |r| <= |s|
    ensures forall c :: c in r <==> c in s && c != '_'
    ensures s != [] && IsDigit(s[|s| - 1]) ==> r != []
  {
    if s == [] then [] else
      var prev := Ungrouped(s[..|s| - 1]);
      assert forall c :: c in s <==> c in s[..|s| - 1] || c == s[|s| - 1];
      if s[|s| - 1] == '_' then prev else prev + [s[|s| - 1]]
  }

  /** A grouped string stripped of its underscores is a digit string. */
  lemma {:induction false} UngroupedDigits(s: string)
    requires Grouped(s)
    ensures AllDigits(Ungrouped(s))
  {
    var r := Ungrouped(s);
    forall i | 0 <= i < |r| ensures IsDigit(r[i]) {
      assert r[i] in r;
    }
  }

  /** A digit string has no underscores to remove. */
  lemma {:induction false} UngroupedIdentity(s: string)
    requires forall i :: 0 <= i < |s| ==> IsDigit(s[i])
    ensures Ungrouped(s) == s
  {
    if s != [] {
      UngroupedIdentity(s[..|s| - 1]);
    }
  }

  /** A digit string is grouped. */
  lemma {:induction false} DigitsGrouped(s: string)
    ensures AllDigits(s) ==> Grouped(s)
  {
  }

  /** `int(s)` on a string: an optional sign followed by grouped decimal
      digits; the underscores do not count. */
  function ParseInt(s: string): (r: Option<int>)
    ensures r.Some? <==> Grouped(s) || (|s| >= 2 && s[0] in "+-" && Grouped(s[1..]))
    ensures r.Some? && s[0] != '-' ==> r.value >= 0
    ensures r.Some? && s[0] == '-' ==> r.value <= 0
    ensures AllDigits(s) ==> r == Some(DigitsValue(s))
    // the value of grouped digits is that of the digits without their underscores
    ensures Grouped(s) ==> AllDigits(Ungrouped(s)) && r == Some(DigitsValue(Ungrouped(s)))
    ensures |s| >= 2 && s[0] == '-' && Grouped(s[1..]) ==>
      AllDigits(Ungrouped(s[1..])) && r == Some(0 - DigitsValue(Ungrouped(s[1..])) as int)
    ensures |s| >= 2 && s[0] == '+' && Grouped(s[1..]) ==>
      AllDigits(Ungrouped(s[1..])) && r == Some(DigitsValue(Ungrouped(s[1..])) as int)
  {
    DigitsGrouped(s);
    if Grouped(s) then
      UngroupedDigits(s);
      assert s[0] != '-';
      if AllDigits(s) then UngroupedIdentity(s); Some(DigitsValue(Ungrouped(s)))
      else Some(DigitsValue(Ungrouped(s)))
    else if |s| >= 2 && s[0] == '-' && Grouped(s[1..]) then
      UngroupedDigits(s[1..]);
      Some(0 - DigitsValue(Ungrouped(s[1..])) as int)
    else if |s| >= 2 && s[0] == '+' && Grouped(s[1..]) then
      UngroupedDigits(s[1..]);
      Some(DigitsValue(Ungrouped(s[1..])))
    else None
  }

  /** Underscores between digits are ignored: an explicit running mode "0_1"
      is mode 1. */
  lemma {:induction false} UnderscoreIgnored()
    ensures ParseInt("0_1") == Some(1)
  {
    UngroupedExample();
    assert DigitsValue("01") == 1 by { assert "01"[..1] == "0"; }
  }

  lemma {:induction false} UngroupedExample()
    ensures Grouped("0_1") && Ungrouped("0_1") == "01"
  {
    assert "0_1"[..2] == "0_" && "0_"[..1] == "0";
    assert Ungrouped("0") == "0";
  }

  /** Underscores must sit between two digits, one at a time. */
  lemma {:induction false} MisplacedUnderscore()
    ensures ParseInt("1__0").None? && ParseInt("_1").None? && ParseInt("1_").None?
  {
    assert !Grouped("1__0") by { assert "1__0"[1] == '_' && "1__0"[2] == '_'; }
  }

  /** `str(n)` for a natural number. */
  function DecimalString(n: nat): (s: string)
    ensures AllDigits(s)
  {
    if n < 10 then [DigitChar(n)] else DecimalString(n / 10) + [DigitChar(n % 10)]
  }

  lemma {:induction false} DigitsRoundTrip(n: nat)
    ensures DigitsValue(DecimalString(n)) == n
  {
    if n >= 10 {
      var s := DecimalString(n);
      assert s[..|s| - 1] == DecimalString(n / 10);
      DigitsRoundTrip(n / 10);
    }
  }

  /** `int(str(n)) == n`, for `n` and for `-n`. */
  lemma {:induction false} ParseIntRoundTrip(n: nat)
    ensures ParseInt(DecimalString(n)) == Some(n)
    ensures ParseInt("-" + DecimalString(n)) == Some(0 - n as int)
  {
    DigitsRoundTrip(n);
    var d := DecimalString(n);
    DigitsGrouped(d);
    UngroupedIdentity(d);
    assert ParseInt(d) == Some(n);
    var m := "-" + d;
    assert m[1..] == d;
    assert |m| >= 2 && m[0] == '-' && Grouped(m[1..]);
  }


  /** `sub` occurs in `s` starting at index `i`. */
  predicate OccursAt(s: string, sub: string, i: int)
  {
    0 <= i <= |s| - |sub| && s[i..i + |sub|] == sub
  }

  /** `sub in s` for strings. */
  predicate Contains(s: string, sub: string)
  {
    exists i :: 0 <= i <= |s| - |sub| && OccursAt(s, sub, i)
  }

  /** `s.replace(pat, rep)`: every non-overlapping occurrence, scanning from the
      left; an empty `pat` inserts `rep` around every character. */
  function ReplaceAll(s: string, pat: string, rep: string): string
    decreases |s|
  {
    if pat == "" then
      if s == "" then rep else rep + [s[0]] + ReplaceAll(s[1..], pat, rep)
    else if |s| < |pat| then s
    else if s[..|pat|] == pat then rep + ReplaceAll(s[|pat|..], pat, rep)
    else [s[0]] + ReplaceAll(s[1..], pat, rep)
  }

  /** A string without an occurrence of `pat` is left as it is. */
  lemma {:induction false} ReplaceAllAbsent(s: string, pat: string, rep: string)
    requires pat != "" && !Contains(s, pat)
    ensures ReplaceAll(s, pat, rep) == s
    decreases |s|
  {
    if |s| >= |pat| {
      assert !OccursAt(s, pat, 0);
      assert !Contains(s[1..], pat) by {
        forall i | OccursAt(s[1..], pat, i) ensures false {
          assert s[1..][i..i + |pat|] == s[i + 1..i + 1 + |pat|];
          assert OccursAt(s, pat, i + 1);
        }
      }
      ReplaceAllAbsent(s[1..], pat, rep);
    }
  }

  /** A band name made of `pat` followed by text without `pat` becomes `rep` followed by that text. */
  lemma {:induction false} ReplaceLeading(pat: string, rep: string, rest: string)
    requires pat != "" && !Contains(rest, pat)
    ensures ReplaceAll(pat + rest, pat, rep) == rep + rest
  {
    var s := pat + rest;
    assert s[..|pat|] == pat;
    assert s[|pat|..] == rest;
    ReplaceAllAbsent(rest, pat, rep);
  }

  /** `s.lower()` on ASCII letters. */
  function Lower(s: string): (r: string)
    ensures |r| == |s|
    ensures forall i :: 0 <= i < |r| ==> !('A' <= r[i] <= 'Z')
    ensures forall i :: 0 <= i < |s| && !('A' <= s[i] <= 'Z') ==> r[i] == s[i]
    ensures forall i :: 0 <= i < |s| && 'A' <= s[i] <= 'Z' ==> r[i] == (s[i] as int + 32) as char
  {
    if s == "" then "" else
      var c := s[0];
      [if 'A' <= c <= 'Z' then (c as int + 32) as char else c] + Lower(s[1..])
  }

  /** `s.split(sep)[0]`: the text before the first `sep`. */
  function FirstSegment(s: string, sep: char): (r: string)
    ensures |r| <= |s| && sep !in r && r == s[..|r|]
    ensures |r| < |s| ==> s[|r|] == sep
  {
    if s == "" || s[0] == sep then "" else [s[0]] + FirstSegment(s[1..], sep)
  }
}
