/** ASCII text helpers shared by the model: case folding, substring search,
    Python's whitespace and regex word-character classes, `str.strip`, and
    decimal formatting and parsing of naturals (`str(n)`, `f'{n:02d}'`, `int(s)`).
    Python folds case and classifies whitespace over all of Unicode; the model
    covers the ASCII range only. */
module Text {

  import opened Wrappers

  /** Lower-casing of one ASCII character; every other character is unchanged. */
  function LowerChar(c: char): char {
    if 'A' <= c <= 'Z' then (c as int + 32) as char else c
  }

  /** `s.lower()` over ASCII. */
  function Lower(s: string): (r: string)
    ensures |r| == |s|
    ensures forall i :: 0 <= i < |s| ==> r[i] == LowerChar(s[i])
  {
    seq(|s|, i requires 0 <= i < |s| => LowerChar(s[i]))
  }

  lemma LowerAppend(a: string, b: string)
    ensures Lower(a + b) == Lower(a) + Lower(b)
  {
    assert forall i :: 0 <= i < |a + b| ==> Lower(a + b)[i] == (Lower(a) + Lower(b))[i];
  }

  /** Lower-casing commutes with slicing. */
  lemma LowerSlice(s: string, i: nat, j: nat)
    requires i <= j <= |s|
    ensures Lower(s)[i..j] == Lower(s[i..j])
  {
  }

  /** Lower-casing twice is lower-casing once. */
  lemma LowerIdempotent(s: string)
    ensures Lower(Lower(s)) == Lower(s)
  {
  }

  /** Python's `<=` on strings: lexicographic by code point. */
  predicate StrLeq(a: string, b: string)
    decreases |a|
  {
    a == [] || (b != [] && (a[0] < b[0] || (a[0] == b[0] && StrLeq(a[1..], b[1..]))))
  }

  lemma {:induction false} StrLeqTotal(a: string, b: string)
    ensures StrLeq(a, b) || StrLeq(b, a)
    decreases |a|
  {
    if a != [] && b != [] && a[0] == b[0] {
      StrLeqTotal(a[1..], b[1..]);
    }
  }

  lemma {:induction false} StrLeqTransitive(a: string, b: string, c: string)
    requires StrLeq(a, b) && StrLeq(b, c)
    ensures StrLeq(a, c)
    decreases |a|
  {
    if a != [] && b != [] && c != [] && a[0] == b[0] && b[0] == c[0] {
      StrLeqTransitive(a[1..], b[1..], c[1..]);
    }
  }

  lemma {:induction false} StrLeqAntisymmetric(a: string, b: string)
    requires StrLeq(a, b) && StrLeq(b, a)
    ensures a == b
    decreases |a|
  {
    if a != [] && b != [] {
      StrLeqAntisymmetric(a[1..], b[1..]);
      assert a == [a[0]] + a[1..] && b == [b[0]] + b[1..];
    }
  }

  /** Characters matched by Python's `\s` and stripped by `str.strip()` (ASCII part). */
  predicate IsSpace(c: char) {
    c == ' ' || (9 <= c as int <= 13) || (28 <= c as int <= 31)
  }

  /** Characters matched by Python's `\w` (ASCII part): letters, digits, underscore. */
  predicate IsWordChar(c: char) {
    ('a' <= c <= 'z') || ('A' <= c <= 'Z') || ('0' <= c <= '9') || c == '_'
  }

  predicate IsDigit(c: char) {
    '0' <= c <= '9'
  }

  predicate StartsWith(s: string, prefix: string) {
    |prefix| <= |s| && s[..|prefix|] == prefix
  }

  /** `sub in s`. */
  predicate Contains(s: string, sub: string)
    decreases |s|
  {
    StartsWith(s, sub) || (|s| > 0 && Contains(s[1..], sub))
  }

  /** An occurrence at index i makes `sub in s` true. */
  lemma {:induction false} ContainsAt(s: string, sub: string, i: nat)
    requires i + |sub| <= |s| && s[i..i + |sub|] == sub
    ensures Contains(s, sub)
    decreases i
  {
    if i == 0 {
      assert s[..|sub|] == sub;
    } else {
      assert s[1..][i - 1..i - 1 + |sub|] == s[i..i + |sub|];
      ContainsAt(s[1..], sub, i - 1);
    }
  }

  /** `sub in s` yields an occurrence index. */
  lemma {:induction false} ContainsWitness(s: string, sub: string) returns (i: nat)
    requires Contains(s, sub)
    ensures i + |sub| <= |s| && s[i..i + |sub|] == sub
    decreases |s|
  {
    if StartsWith(s, sub) {
      i := 0;
    } else {
      var j := ContainsWitness(s[1..], sub);
      assert s[1..][j..j + |sub|] == s[j + 1..j + 1 + |sub|];
      i := j + 1;
    }
  }

  /** A string containing `big` contains everything `big` contains. */
  lemma ContainsTransitive(s: string, big: string, small: string)
    requires Contains(s, big) && Contains(big, small)
    ensures Contains(s, small)
  {
    var i := ContainsWitness(s, big);
    var j := ContainsWitness(big, small);
    forall k | 0 <= k < |small| ensures s[i + j + k] == small[k] {
      assert small[k] == big[j + k] == s[i..i + |big|][j + k];
    }
    assert s[i + j..i + j + |small|] == small;
    ContainsAt(s, small, i + j);
  }

  /** A name holding `big`, which holds `small` at index i, holds `small`. */
  lemma ContainsWithin(s: string, big: string, small: string, i: nat)
    requires Contains(s, big)
    requires i + |small| <= |big| && big[i..i + |small|] == small
    ensures Contains(s, small)
  {
    ContainsAt(big, small, i);
    ContainsTransitive(s, big, small);
  }

  function StripLeft(s: string): (r: string)
    ensures |r| <= |s| && r == s[|s| - |r|..]
    ensures r == [] || !IsSpace(r[0])
  {
    if |s| > 0 && IsSpace(s[0]) then StripLeft(s[1..]) else s
  }

  function StripRight(s: string): (r: string)
    ensures |r| <= |s| && r == s[..|r|]
    ensures r == [] || !IsSpace(r[|r| - 1])
  {
    if |s| > 0 && IsSpace(s[|s| - 1]) then StripRight(s[..|s| - 1]) else s
  }

  /** `s.strip()`: leading and trailing whitespace removed, the middle kept. */
  function Strip(s: string): (r: string)
    ensures r == [] || (!IsSpace(r[0]) && !IsSpace(r[|r| - 1]))
    ensures exists i, j :: 0 <= i <= j <= |s| && r == s[i..j]
  {
    var l := StripLeft(s);
    var r := StripRight(l);
    assert r == s[|s| - |l|..][..|r|] == s[|s| - |l|..|s| - |l| + |r|];
    r
  }

  function DigitChar(d: nat): char
    requires d < 10
  {
    ('0' as int + d) as char
  }

  function DigitValue(c: char): nat
    requires IsDigit(c)
  {
    c as int - '0' as int
  }

  /** `str(n)` for a natural number: its decimal digits, most significant first. */
  function NatToString(n: nat): (s: string)
    ensures |s| >= 1 && forall i :: 0 <= i < |s| ==> IsDigit(s[i])
  {
    if n < 10 then [DigitChar(n)] else NatToString(n / 10) + [DigitChar(n % 10)]
  }

  predicate AllDigits(s: string) {
    forall i :: 0 <= i < |s| ==> IsDigit(s[i])
  }

  /** The value of a string of decimal digits. */
  function DigitsValue(s: string): nat
    requires AllDigits(s)
  {
    if |s| == 0 then 0 else DigitsValue(s[..|s| - 1]) * 10 + DigitValue(s[|s| - 1])
  }

  /** `int(s)` restricted to plain digit strings: None for anything else. */
  function ParseNat(s: string): (r: Option<nat>)
    ensures r.Some? <==> |s| >= 1 && AllDigits(s)
  {
    if |s| >= 1 && AllDigits(s) then Some(DigitsValue(s)) else None
  }

  /** Decimal formatting and parsing are inverse: `int(str(n)) == n`. */
  lemma {:induction false} ParseFormatNat(n: nat)
    ensures ParseNat(NatToString(n)) == Some(n)
  {
    var s := NatToString(n);
    if n < 10 {
      assert s[..|s| - 1] == [];
    } else {
      ParseFormatNat(n / 10);
      assert s[..|s| - 1] == NatToString(n / 10);
      assert DigitsValue(s) == (n / 10) * 10 + n % 10;
    }
  }

  /** Different numbers never print the same. */
  lemma NatToStringInjective(a: nat, b: nat)
    requires NatToString(a) == NatToString(b)
    ensures a == b
  {
    ParseFormatNat(a);
    ParseFormatNat(b);
  }

  /** `f'{n:02d}'`: at least two digits, zero-padded on the left. */
  function Pad2(n: nat): (s: string)
    ensures |s| >= 2 && AllDigits(s)
    ensures n < 100 ==> |s| == 2
  {
    if n < 10 then "0" + NatToString(n)
    else assert n < 100 ==> |NatToString(n / 10)| == 1; NatToString(n)
  }

  /** Zero padding does not change the number denoted. */
  lemma ParsePad2(n: nat)
    ensures ParseNat(Pad2(n)) == Some(n)
  {
    ParseFormatNat(n);
    if n < 10 {
      var s := Pad2(n);
      assert s[..|s| - 1] == "0";
      assert s[..|s| - 1][..0] == [];
      assert DigitsValue(s[..|s| - 1]) == 0;
    }
  }
}
