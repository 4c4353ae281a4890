/**
 * The java.lang.String and java.lang.Character operations the domain code relies on,
 * stated over Dafny strings (sequences of Unicode scalar values).
 */
module JavaText {

  // ---------------------------------------------------------------- whitespace

  /** Character.isWhitespace: the Unicode space separators other than the no-break ones,
      the line and paragraph separators, TAB..CR and the four information separators. */
  predicate IsWhitespace(c: char) {
    c == ' ' || '\t' <= c <= '\r' || '\U{1C}' <= c <= '\U{1F}' || c == '\U{1680}'
    || '\U{2000}' <= c <= '\U{2006}' || '\U{2008}' <= c <= '\U{200A}'
    || c == '\U{2028}' || c == '\U{2029}' || c == '\U{205F}' || c == '\U{3000}'
  }

  /** String.isBlank: empty, or whitespace only. */
  predicate IsBlank(s: string) {
    forall i :: 0 <= i < |s| ==> IsWhitespace(s[i])
  }

  lemma NotBlank(s: string, i: nat)
    requires i < |s| && !IsWhitespace(s[i])
    ensures !IsBlank(s)
  {
  }

  /** String.trim removes every leading and trailing character whose code is at most U+0020. */
  predicate IsTrimmable(c: char) {
    c <= ' '
  }

  function TrimStart(s: string): (r: string)
    ensures |r| <= |s| && r == s[|s| - |r|..]
    ensures r == [] || !IsTrimmable(r[0])
    ensures forall i :: 0 <= i < |s| - |r| ==> IsTrimmable(s[i])
  {
    if s != [] && IsTrimmable(s[0]) then TrimStart(s[1..]) else s
  }

  function TrimEnd(s: string): (r: string)
    ensures |r| <= |s| && r == s[..|r|]
    ensures r == [] || !IsTrimmable(r[|r| - 1])
    ensures forall i :: |r| <= i < |s| ==> IsTrimmable(s[i])
  {
    if s != [] && IsTrimmable(s[|s| - 1]) then TrimEnd(s[..|s| - 1]) else s
  }

  /** String.trim: the longest infix of s that neither starts nor ends with a trimmable character. */
  function Trim(s: string): (r: string)
    ensures r == [] || (!IsTrimmable(r[0]) && !IsTrimmable(r[|r| - 1]))
    ensures Contains(s, r)
    ensures r == [] ==> forall i :: 0 <= i < |s| ==> IsTrimmable(s[i])
  {
    var t := TrimStart(s);
    var r := TrimEnd(t);
    assert OccursAt(s, r, |s| - |t|);
    r
  }

  /** A string that already has no trimmable ends is its own trim. */
  lemma TrimOfTrimmed(s: string)
    requires s == [] || (!IsTrimmable(s[0]) && !IsTrimmable(s[|s| - 1]))
    ensures Trim(s) == s
  {
  }

  lemma TrimIdempotent(s: string)
    ensures Trim(Trim(s)) == Trim(s)
  {
    TrimOfTrimmed(Trim(s));
  }

  // ---------------------------------------------------------------- search and replace

  predicate OccursAt(s: string, t: string, i: nat) {
    i + |t| <= |s| && s[i..i + |t|] == t
  }

  /** String.contains. */
  predicate Contains(s: string, t: string) {
    exists i: nat :: i <= |s| && OccursAt(s, t, i)
  }

  /** String.replace(target, replacement) for a non-empty target: the occurrences are found
      left to right and do not overlap. */
  function Replace(s: string, target: string, replacement: string): (r: string)
    requires target != []
    decreases |s|
  {
    if |s| < |target| then s
    else if s[..|target|] == target then replacement + Replace(s[|target|..], target, replacement)
    else [s[0]] + Replace(s[1..], target, replacement)
  }

  /** Replacing a target that does not occur changes nothing. */
  lemma {:induction false} ReplaceAbsent(s: string, target: string, replacement: string)
    requires target != [] && !Contains(s, target)
    ensures Replace(s, target, replacement) == s
  {
    if |s| >= |target| {
      assert !OccursAt(s, target, 0);
      assert s[0..|target|] == s[..|target|];
      forall i: nat | OccursAt(s[1..], target, i) ensures OccursAt(s, target, i + 1) {
        assert s[1..][i..i + |target|] == s[i + 1..i + 1 + |target|];
      }
      ReplaceAbsent(s[1..], target, replacement);
    }
  }

  /** A leading occurrence is replaced and the scan continues after it. */
  lemma ReplaceLeading(target: string, rest: string, replacement: string)
    requires target != []
    ensures Replace(target + rest, target, replacement) == replacement + Replace(rest, target, replacement)
  {
    assert (target + rest)[..|target|] == target;
    assert (target + rest)[|target|..] == rest;
  }

  // ---------------------------------------------------------------- digits

  predicate IsDigit(c: char) {
    '0' <= c <= '9'
  }

  predicate AllDigits(s: string) {
    forall i :: 0 <= i < |s| ==> IsDigit(s[i])
  }

  /** s.replaceAll("[^0-9]", ""): the ASCII digits of s, in order. */
  function DigitsOnly(s: string): (r: string)
    ensures AllDigits(r) && |r| <= |s|
  {
    if s == [] then [] else (if IsDigit(s[0]) then [s[0]] else []) + DigitsOnly(s[1..])
  }

  lemma {:induction false} DigitsOnlyConcat(a: string, b: string)
    ensures DigitsOnly(a + b) == DigitsOnly(a) + DigitsOnly(b)
  {
    if a != [] {
      assert (a + b)[0] == a[0] && (a + b)[1..] == a[1..] + b;
      DigitsOnlyConcat(a[1..], b);
    } else {
      assert a + b == b;
    }
  }

  lemma {:induction false} DigitsOnlyOfDigits(s: string)
    requires AllDigits(s)
    ensures DigitsOnly(s) == s
  {
    if s != [] {
      DigitsOnlyOfDigits(s[1..]);
    }
  }

  // ---------------------------------------------------------------- case

  /** Character.toUpperCase on ASCII and Latin-1 characters: a-z and U+00E0..U+00FE (but not the
      division sign U+00F7) move down by 32, y with diaeresis U+00FF becomes U+0178 and the micro sign
      U+00B5 becomes the Greek capital mu U+039C.  The sharp s U+00DF has no one-character upper case
      and is kept. */
  function ToUpperChar(c: char): char {
    if 'a' <= c <= 'z' || ('\U{E0}' <= c <= '\U{FE}' && c != '\U{F7}') then (c as int - 32) as char
    else if c == '\U{FF}' then '\U{178}'
    else if c == '\U{B5}' then '\U{39C}'
    else c
  }

  /** Character.toLowerCase on ASCII and Latin-1 letters and on the two upper cases ToUpperChar leaves
      Latin-1 for: U+0178 becomes U+00FF and U+039C becomes the Greek small mu U+03BC. */
  function ToLowerChar(c: char): char {
    if 'A' <= c <= 'Z' || ('\U{C0}' <= c <= '\U{DE}' && c != '\U{D7}') then (c as int + 32) as char
    else if c == '\U{178}' then '\U{FF}'
    else if c == '\U{39C}' then '\U{3BC}'
    else c
  }

  /** The per-character test of String.equalsIgnoreCase. */
  predicate CharEqualsIgnoreCase(a: char, b: char) {
    a == b || ToUpperChar(a) == ToUpperChar(b) || ToLowerChar(ToUpperChar(a)) == ToLowerChar(ToUpperChar(b))
  }

  /** String.equalsIgnoreCase: same length, and the characters agree pairwise ignoring case. */
  predicate EqualsIgnoreCase(a: string, b: string) {
    |a| == |b| && (a == [] || (CharEqualsIgnoreCase(a[0], b[0]) && EqualsIgnoreCase(a[1..], b[1..])))
  }

  lemma {:induction false} EqualsIgnoreCaseReflexive(a: string)
    ensures EqualsIgnoreCase(a, a)
  {
    if a != [] {
      EqualsIgnoreCaseReflexive(a[1..]);
    }
  }

  lemma {:induction false} EqualsIgnoreCasePointwise(a: string, b: string)
    ensures EqualsIgnoreCase(a, b) <==> |a| == |b| && forall i :: 0 <= i < |a| ==> CharEqualsIgnoreCase(a[i], b[i])
  {
    if a != [] && |a| == |b| {
      EqualsIgnoreCasePointwise(a[1..], b[1..]);
      assert forall i :: 1 <= i < |a| ==> a[1..][i - 1] == a[i] && b[1..][i - 1] == b[i];
    }
  }

  /** The canonical form under which equalsIgnoreCase compares two characters. */
  function FoldCase(c: char): char {
    ToLowerChar(ToUpperChar(c))
  }

  /** Two strings that disagree at some position after case folding are not equal ignoring case. */
  lemma DiffersIgnoringCaseAt(a: string, b: string, i: nat)
    requires i < |a| && i < |b| && FoldCase(a[i]) != FoldCase(b[i])
    ensures !EqualsIgnoreCase(a, b)
  {
    EqualsIgnoreCasePointwise(a, b);
  }

  /** Length and first two case-folded characters: what equalsIgnoreCase cannot change. */
  function Assinatura(x: string): (nat, char, char) {
    (|x|, if |x| > 0 then FoldCase(x[0]) else ' ', if |x| > 1 then FoldCase(x[1]) else ' ')
  }

  /** Two strings with different signatures are different ignoring case. */
  lemma AssinaturasDistintas(a: string, b: string)
    requires Assinatura(a) != Assinatura(b)
    ensures !EqualsIgnoreCase(a, b)
  {
    if |a| == |b| {
      var i := if |a| > 0 && FoldCase(a[0]) != FoldCase(b[0]) then 0 else 1;
      DiffersIgnoringCaseAt(a, b, i);
    }
  }

  /** The sharp s, which String.toUpperCase writes as two letters. */
  const SharpS: char := '\U{DF}'

  /** What String.toUpperCase writes for one character: "SS" for the sharp s, otherwise its
      Character.toUpperCase.  Every character written is already upper case. */
  function UpperOf(c: char): (r: string)
    ensures |r| == (if c == SharpS then 2 else 1)
    ensures SharpS !in r
    ensures forall i :: 0 <= i < |r| ==> ToUpperChar(r[i]) == r[i]
  {
    if c == SharpS then "SS" else [ToUpperChar(c)]
  }

  /** String.toUpperCase in a locale without special casing rules (not Turkish, Azeri or Lithuanian):
      the upper case of each character in turn.  It grows by one for each sharp s, leaves no sharp s
      behind, and only writes characters that are their own upper case. */
  function ToUpper(s: string): (r: string)
    ensures |s| <= |r|
    ensures SharpS in s ==> |s| < |r|
    ensures SharpS !in r
    ensures forall i :: 0 <= i < |r| ==> ToUpperChar(r[i]) == r[i]
    decreases |s|
  {
    if s == [] then []
    else
      assert s == [s[0]] + s[1..];
      UpperOf(s[0]) + ToUpper(s[1..])
  }

  /** Without a sharp s, upper-casing maps each character to its Character.toUpperCase in place. */
  lemma {:induction false} ToUpperSemSharpS(s: string)
    requires SharpS !in s
    ensures |ToUpper(s)| == |s|
    ensures forall i :: 0 <= i < |s| ==> ToUpper(s)[i] == ToUpperChar(s[i])
  {
    if s != [] {
      assert s == [s[0]] + s[1..];
      ToUpperSemSharpS(s[1..]);
      assert forall i :: 1 <= i < |s| ==> ToUpper(s)[i] == ToUpper(s[1..])[i - 1];
    }
  }

  /** Upper-casing twice is upper-casing once.  Without a sharp s the result still matches the input
      ignoring case; with one it is longer, so it does not. */
  lemma ToUpperIdempotent(s: string)
    ensures ToUpper(ToUpper(s)) == ToUpper(s)
    ensures SharpS !in s ==> EqualsIgnoreCase(ToUpper(s), s)
    ensures SharpS in s ==> !EqualsIgnoreCase(ToUpper(s), s)
  {
    var u := ToUpper(s);
    ToUpperSemSharpS(u);
    if SharpS !in s {
      ToUpperSemSharpS(s);
      forall i | 0 <= i < |s| ensures CharEqualsIgnoreCase(u[i], s[i]) {
        assert ToUpperChar(ToUpperChar(s[i])) == ToUpperChar(s[i]);
      }
      EqualsIgnoreCasePointwise(u, s);
    }
  }

  /** "straße" upper-cases to "STRASSE", which no longer equals it ignoring case. */
  lemma ToUpperSharpSExemplo()
    ensures ToUpper("stra\U{DF}e") == "STRASSE" && !EqualsIgnoreCase("STRASSE", "stra\U{DF}e")
  {
    var s := "stra\U{DF}e";
    assert ToUpper(s[5..]) == "E";
    assert ToUpper(s[4..]) == "SS" + ToUpper(s[5..]);
    assert ToUpper(s[3..]) == "A" + ToUpper(s[4..]);
    assert ToUpper(s[2..]) == "R" + ToUpper(s[3..]);
    assert ToUpper(s[1..]) == "T" + ToUpper(s[2..]);
    assert ToUpper(s) == "S" + ToUpper(s[1..]);
  }

  /** ÿ and µ upper-case to characters outside Latin-1 (U+0178 and U+039C) and still match ignoring
      case. */
  lemma ToUpperForaDoLatin1()
    ensures ToUpper("\U{FF}\U{B5}") == "\U{178}\U{39C}" && EqualsIgnoreCase("\U{178}\U{39C}", "\U{FF}\U{B5}")
  {
    var s := "\U{FF}\U{B5}";
    assert ToUpper(s[1..]) == "\U{39C}";
    assert ToUpper(s) == "\U{178}" + ToUpper(s[1..]);
    ToUpperIdempotent(s);
  }

  // ---------------------------------------------------------------- decimal numbers

  /** "" + n for a non-negative long: its decimal digits, most significant first, no leading zero. */
  function DecimalString(n: nat): (r: string)
    ensures r != [] && AllDigits(r)
    ensures |r| > 1 ==> r[0] != '0'
  {
    if n < 10 then [('0' as int + n) as char]
    else DecimalString(n / 10) + [('0' as int + n % 10) as char]
  }

  /** The value of a string of decimal digits. */
  function ParseDecimal(s: string): nat
    requires AllDigits(s)
  {
    if s == [] then 0 else ParseDecimal(s[..|s| - 1]) * 10 + (s[|s| - 1] as int - '0' as int)
  }

  /** Reading back the decimal form gives the number, so distinct ids render differently. */
  lemma {:induction false} DecimalStringRoundTrip(n: nat)
    ensures ParseDecimal(DecimalString(n)) == n
  {
    if n >= 10 {
      DecimalStringRoundTrip(n / 10);
      var s := DecimalString(n);
      assert s[..|s| - 1] == DecimalString(n / 10);
    }
  }

  lemma DecimalStringInjective(a: nat, b: nat)
    requires DecimalString(a) == DecimalString(b)
    ensures a == b
  {
    DecimalStringRoundTrip(a);
    DecimalStringRoundTrip(b);
  }
}
