/** The linear grade encoding `grade_index * 5 + (6 - sub_grade)`
    (utils/helpers.py, calculate_grade_encoded). */
module GradeEncoding {
  import opened Optional
  import Settings

  // ---- Python's str.upper() on ASCII letters and int(str) on ASCII digits ----

  predicate IsLower(c: char) {
    'a' <= c <= 'z'
  }

  function UpperChar(c: char): char {
    if IsLower(c) then (c as int - 32) as char else c
  }

  /** `s.upper()` for ASCII text: no lower-case letter is left, a letter
      that changes becomes its capital, nothing else changes, and
      upper-casing again changes nothing. */
  function Upper(s: string): (u: string)
    ensures |u| == |s|
    ensures forall i :: 0 <= i < |u| ==> !IsLower(u[i])
    ensures forall i :: 0 <= i < |s| ==>
      (u[i] == s[i] <==> !IsLower(s[i])) &&
      (IsLower(s[i]) ==> 'A' <= u[i] <= 'Z' && s[i] as int - u[i] as int == 32)
  {
    seq(|s|, i requires 0 <= i < |s| => UpperChar(s[i]))
  }

  /** Upper-casing twice is upper-casing once. */
  lemma UpperIdempotent(s: string)
    ensures Upper(Upper(s)) == Upper(s)
  {
  }

  /** The characters `int()` strips around a numeral: tab to carriage return
      and space, plus the non-ASCII characters `str.isspace()` accepts (the
      Unicode line, paragraph and space separators). The ASCII separators
      U+001C..U+001F, which `str.isspace()` also accepts, are not stripped. */
  predicate IsSpace(c: char) {
    var k := c as int;
    9 <= k <= 13 || k == 32 || k == 0x85 || k == 0xA0 || k == 0x1680 ||
    0x2000 <= k <= 0x200A || k == 0x2028 || k == 0x2029 || k == 0x202F ||
    k == 0x205F || k == 0x3000
  }

  predicate IsDigit(c: char) {
    '0' <= c <= '9'
  }

  /** `s` with leading and trailing whitespace removed. */
  function Strip(s: string): (t: string)
    ensures |t| <= |s|
    ensures t != [] ==> !IsSpace(t[0]) && !IsSpace(t[|t| - 1])
    ensures (forall i :: 0 <= i < |s| ==> !IsSpace(s[i])) ==> t == s
    decreases |s|
  {
    if s == [] then []
    else if IsSpace(s[0]) then Strip(s[1..])
    else if IsSpace(s[|s| - 1]) then Strip(s[..|s| - 1])
    else s
  }

  /** The number a string of decimal digits spells. */
  function DigitsValue(s: string): nat
    requires forall i :: 0 <= i < |s| ==> IsDigit(s[i])
    decreases |s|
  {
    if s == [] then 0
    else
      var last := s[|s| - 1];
      assert IsDigit(last);
      10 * DigitsValue(s[..|s| - 1]) + (last as int - '0' as int)
  }

  predicate AllDigits(s: string) {
    s != [] && forall i :: 0 <= i < |s| ==> IsDigit(s[i])
  }

  /** `int(s)`: an optionally signed run of decimal digits between optional
      whitespace; anything else is a ValueError, here None. */
  function ParseInt(s: string): Option<int> {
    var t := Strip(s);
    if t == [] then None
    else if (t[0] == '+' || t[0] == '-') && AllDigits(t[1..]) then
      var magnitude: int := DigitsValue(t[1..]);
      Some(if t[0] == '-' then -magnitude else magnitude)
    else if AllDigits(t) then Some(DigitsValue(t) as int)
    else None
  }

  /** The shortest decimal spelling of a natural number. */
  function DecimalString(n: nat): (s: string)
    ensures AllDigits(s)
    decreases n
  {
    if n < 10 then [('0' as int + n) as char]
    else DecimalString(n / 10) + [('0' as int + n % 10) as char]
  }

  lemma {:induction false} DecimalStringValue(n: nat)
    ensures DigitsValue(DecimalString(n)) == n
    decreases n
  {
    if n >= 10 {
      var s := DecimalString(n);
      assert s[..|s| - 1] == DecimalString(n / 10);
      DecimalStringValue(n / 10);
    }
  }

  /** int() reads back every number in decimal, with or without a minus sign. */
  lemma ParseIntDecimal(n: nat)
    ensures ParseInt(DecimalString(n)) == Some(n)
    ensures ParseInt("-" + DecimalString(n)) == Some(-(n as int))
  {
    var s := DecimalString(n);
    DecimalStringValue(n);
    assert Strip(s) == s;
    var m := "-" + s;
    assert Strip(m) == m by {
      assert forall i :: 0 <= i < |m| ==> !IsSpace(m[i]) by {
        forall i | 0 <= i < |m| ensures !IsSpace(m[i]) {
          if i > 0 { assert m[i] == s[i - 1]; }
        }
      }
    }
    assert m[1..] == s;
  }

  /** int() of a text with nothing but whitespace, or with a letter, fails. */
  lemma ParseIntRejects(s: string)
    requires forall i :: 0 <= i < |s| ==> IsSpace(s[i]) || IsLower(s[i])
    ensures ParseInt(s) == None
  {
    var t := Strip(s);
    if t != [] {
      StripInside(s);
      assert !IsDigit(t[0]) && t[0] != '+' && t[0] != '-';
      assert !AllDigits(t);
    }
  }

  /** Whitespace that `int()` strips, and the ASCII separator it does not. */
  lemma ParseIntWhitespaceExamples()
    ensures ParseInt(" 5\n") == Some(5)
    ensures ParseInt([0x3000 as char, '5']) == Some(5)
    ensures ParseInt([0x1C as char, '5']) == None
  {
  }

  /** Every character of a stripped string comes from the original. */
  lemma {:induction false} StripInside(s: string)
    ensures forall i :: 0 <= i < |Strip(s)| ==> Strip(s)[i] in s
    decreases |s|
  {
    if s != [] {
      if IsSpace(s[0]) {
        StripInside(s[1..]);
        forall i | 0 <= i < |Strip(s)| ensures Strip(s)[i] in s {
          assert Strip(s)[i] in s[1..];
        }
      } else if IsSpace(s[|s| - 1]) {
        StripInside(s[..|s| - 1]);
        forall i | 0 <= i < |Strip(s)| ensures Strip(s)[i] in s {
          assert Strip(s)[i] in s[..|s| - 1];
        }
      }
    }
  }

  // ---- The encoding ----

  /** grade_mapping inside calculate_grade_encoded: G = 0 up to A = 6. */
  const GradeIndexMapping: map<string, int> :=
    map["G" := 0, "F" := 1, "E" := 2, "D" := 3, "C" := 4, "B" := 5, "A" := 6]

  /** `grade_mapping.get(grade.upper(), 0)`: unknown letters fall back to 0. */
  function GradeIndex(grade: string): (k: int)
    ensures 0 <= k <= 6
  {
    var g := Upper(grade);
    if g in GradeIndexMapping then GradeIndexMapping[g] else 0
  }

  /** The arithmetic of the encoding once the sub-grade is a number. */
  function EncodeGrade(grade: string, subGrade: int): int {
    GradeIndex(grade) * 5 + (6 - subGrade)
  }

  /** calculate_grade_encoded: None exactly when `int(sub_grade)` raises; for
      a letter A..G (in either case) and a sub-grade 1..5, a code in 1..35
      that decodes to the upper-cased letter and the sub-grade. */
  function CalculateGradeEncoded(grade: string, subGrade: string): (r: Option<int>)
    ensures r.None? <==> ParseInt(subGrade).None?
    ensures forall n :: ParseInt(subGrade) == Some(n) && Upper(grade) in Settings.GradeOrder && 1 <= n <= 5 ==>
      r.Some? && 1 <= r.value <= 35 && DecodeGrade(r.value) == (Upper(grade), n)
  {
    match ParseInt(subGrade)
    case Some(n) =>
      if Upper(grade) in Settings.GradeOrder && 1 <= n <= 5 then
        GradeEncodedIgnoresCase(grade, n);
        GradeEncodedRoundTrip(Upper(grade), n);
        Some(EncodeGrade(grade, n))
      else Some(EncodeGrade(grade, n))
    case None => None
  }

  /** A grade letter and sub-grade the form can offer: A..G and 1..5. */
  predicate ValidGrade(grade: string, subGrade: int) {
    grade in Settings.GradeOrder && 1 <= subGrade <= 5
  }

  lemma GradeIndexOfLetter(i: nat)
    requires i < |Settings.GradeOrder|
    ensures GradeIndex(Settings.GradeOrder[i]) == 6 - i
  {
    var g := Settings.GradeOrder[i];
    assert Upper(g) == g;
  }

  /** The grade index is seven minus the ordinal number of GRADE_NUM_MAPPING. */
  lemma GradeIndexMatchesGradeNum(g: string)
    requires g in Settings.GradeOrder
    ensures GradeIndex(g) == 7 - Settings.GradeNumMapping[g]
  {
    var i :| 0 <= i < |Settings.GradeOrder| && Settings.GradeOrder[i] == g;
    GradeIndexOfLetter(i);
    Settings.GradeNumMappingFollowsOrder();
  }

  /** The best and worst grades: A/1 is 35 and G/5 is 1. */
  lemma GradeEncodedEndpoints()
    ensures CalculateGradeEncoded("A", "1") == Some(35)
    ensures CalculateGradeEncoded("G", "5") == Some(1)
  {
    ParseIntDecimal(1);
    ParseIntDecimal(5);
    assert DecimalString(1) == "1" && DecimalString(5) == "5";
    GradeIndexOfLetter(0);
    GradeIndexOfLetter(6);
  }

  /** Every valid pair encodes into 1..35. */
  lemma GradeEncodedRange(grade: string, subGrade: int)
    requires ValidGrade(grade, subGrade)
    ensures 1 <= EncodeGrade(grade, subGrade) <= 35
  {
  }

  /** The inverse of the encoding on 1..35: the letter and sub-grade. */
  function DecodeGrade(code: int): (g: (string, int))
    requires 1 <= code <= 35
    ensures ValidGrade(g.0, g.1)
  {
    (Settings.GradeOrder[6 - (code - 1) / 5], 5 - (code - 1) % 5)
  }

  /** Decoding undoes encoding on valid pairs, hence the encoding is injective. */
  lemma GradeEncodedRoundTrip(grade: string, subGrade: int)
    requires ValidGrade(grade, subGrade)
    ensures 1 <= EncodeGrade(grade, subGrade) <= 35
    ensures DecodeGrade(EncodeGrade(grade, subGrade)) == (grade, subGrade)
  {
    var i :| 0 <= i < |Settings.GradeOrder| && Settings.GradeOrder[i] == grade;
    GradeIndexOfLetter(i);
    var code := EncodeGrade(grade, subGrade);
    assert code - 1 == (6 - i) * 5 + (5 - subGrade);
    assert (code - 1) / 5 == 6 - i;
    assert (code - 1) % 5 == 5 - subGrade;
  }

  /** Every code in 1..35 is the encoding of exactly the pair it decodes to. */
  lemma GradeDecodeRoundTrip(code: int)
    requires 1 <= code <= 35
    ensures EncodeGrade(DecodeGrade(code).0, DecodeGrade(code).1) == code
  {
    var i := 6 - (code - 1) / 5;
    GradeIndexOfLetter(i);
  }

  lemma GradeEncodedInjective(g1: string, s1: int, g2: string, s2: int)
    requires ValidGrade(g1, s1) && ValidGrade(g2, s2)
    requires EncodeGrade(g1, s1) == EncodeGrade(g2, s2)
    ensures g1 == g2 && s1 == s2
  {
    GradeEncodedRoundTrip(g1, s1);
    GradeEncodedRoundTrip(g2, s2);
  }

  /** Within a letter, a higher sub-grade number gives a strictly lower code. */
  lemma GradeEncodedDecreasesWithSubGrade(grade: string, s1: int, s2: int)
    requires s1 < s2
    ensures EncodeGrade(grade, s1) > EncodeGrade(grade, s2)
  {
  }

  /** Every sub-grade of a better letter outranks every sub-grade of a worse one. */
  lemma GradeEncodedBetterLetterWins(i: nat, j: nat, s1: int, s2: int)
    requires i < j < |Settings.GradeOrder|
    requires 1 <= s1 <= 5 && 1 <= s2 <= 5
    ensures EncodeGrade(Settings.GradeOrder[i], s1) > EncodeGrade(Settings.GradeOrder[j], s2)
  {
    GradeIndexOfLetter(i);
    GradeIndexOfLetter(j);
  }

  /** The letter is upper-cased first: case does not matter. */
  lemma GradeEncodedIgnoresCase(grade: string, subGrade: int)
    ensures EncodeGrade(grade, subGrade) == EncodeGrade(Upper(grade), subGrade)
  {
    UpperIdempotent(grade);
  }

  /** A letter outside A..G (after upper-casing) encodes exactly like G. */
  lemma UnknownLetterEncodesAsG(grade: string, subGrade: int)
    requires Upper(grade) !in Settings.GradeOrder
    ensures EncodeGrade(grade, subGrade) == EncodeGrade("G", subGrade)
  {
    GradeIndexOfLetter(6);
  }
}
