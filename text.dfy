/** The small part of .NET's string library that the documentation tool relies
    on (Trim, TrimStart, ToLower, string.Join, List.IndexOf, IsNullOrWhiteSpace),
    restricted to ASCII: white space is the six ASCII white-space characters and
    case mapping only touches 'A'..'Z' and 'a'..'z'. */
module Text {

  datatype Option<+T> = None | Some(value: T)

  /** Environment.NewLine, fixed to a line feed. */
  const NewLine: string := "\n"

  predicate IsWhiteSpace(c: char) {
    c == ' ' || c == '\t' || c == '\n' || c == '\r' || c as int == 11 || c as int == 12
  }

  predicate IsUpper(c: char) { 'A' <= c <= 'Z' }

  predicate IsLower(c: char) { 'a' <= c <= 'z' }

  predicate IsDigit(c: char) { '0' <= c <= '9' }

  /** string.IsNullOrWhiteSpace (a null string is the empty one here). */
  predicate IsBlank(s: string) {
    forall i :: 0 <= i < |s| ==> IsWhiteSpace(s[i])
  }

  /** Removes every leading white-space character. */
  function TrimStart(s: string): string {
    if s == [] || !IsWhiteSpace(s[0]) then s else TrimStart(s[1..])
  }

  /** Removes every trailing white-space character. */
  function TrimEnd(s: string): string {
    if s == [] || !IsWhiteSpace(s[|s| - 1]) then s else TrimEnd(s[..|s| - 1])
  }

  /** string.Trim(). */
  function Trim(s: string): string {
    TrimEnd(TrimStart(s))
  }

  /** string.TrimStart(c): removes every leading occurrence of c. */
  function TrimStartChar(s: string, c: char): string {
    if s == [] || s[0] != c then s else TrimStartChar(s[1..], c)
  }

  // The facts about the trimming functions are stated as lemmas rather than
  // postconditions, so that a formula mentioning a trimmed string carries them
  // only where a proof asks for them.

  /** TrimStart drops a white-space prefix and stops at the first other character. */
  lemma {:induction false} TrimStartFacts(s: string)
    ensures |TrimStart(s)| <= |s| && TrimStart(s) == s[|s| - |TrimStart(s)|..]
    ensures IsBlank(s[..|s| - |TrimStart(s)|])
    ensures TrimStart(s) == [] || !IsWhiteSpace(TrimStart(s)[0])
  {
    if s != [] && IsWhiteSpace(s[0]) {
      TrimStartFacts(s[1..]);
      var r := TrimStart(s);
      assert s[..|s| - |r|] == [s[0]] + s[1..][..|s[1..]| - |r|];
    }
  }

  /** TrimEnd drops a white-space suffix and stops at the last other character. */
  lemma {:induction false} TrimEndFacts(s: string)
    ensures |TrimEnd(s)| <= |s| && TrimEnd(s) == s[..|TrimEnd(s)|]
    ensures IsBlank(s[|TrimEnd(s)|..])
    ensures TrimEnd(s) == [] || !IsWhiteSpace(TrimEnd(s)[|TrimEnd(s)| - 1])
  {
    if s != [] && IsWhiteSpace(s[|s| - 1]) {
      TrimEndFacts(s[..|s| - 1]);
      var r := TrimEnd(s);
      assert s[|r|..] == s[..|s| - 1][|r|..] + [s[|s| - 1]];
    }
  }

  /** Trim's result is the infix s[start..start + |Trim(s)|] of s, has no white
      space at either end, and is empty exactly when s is blank. */
  lemma TrimFacts(s: string) returns (start: nat)
    ensures start + |Trim(s)| <= |s| && Trim(s) == s[start..start + |Trim(s)|]
    ensures Trim(s) == [] || (!IsWhiteSpace(Trim(s)[0]) && !IsWhiteSpace(Trim(s)[|Trim(s)| - 1]))
    ensures Trim(s) == [] <==> IsBlank(s)
  {
    var t := TrimStart(s);
    TrimStartFacts(s);
    TrimEndFacts(t);
    var r := TrimEnd(t);
    start := |s| - |t|;
    assert r == t[..|r|];
    if r == [] {
      assert s == s[..|s| - |t|] + t;
      assert t == t[0..];
    } else {
      assert r[0] == t[0];
    }
  }

  /** TrimStartChar drops a prefix made only of c and stops at another character. */
  lemma {:induction false} TrimStartCharFacts(s: string, c: char)
    ensures |TrimStartChar(s, c)| <= |s| && TrimStartChar(s, c) == s[|s| - |TrimStartChar(s, c)|..]
    ensures forall i :: 0 <= i < |s| - |TrimStartChar(s, c)| ==> s[i] == c
    ensures TrimStartChar(s, c) == [] || TrimStartChar(s, c)[0] != c
  {
    if s != [] && s[0] == c {
      TrimStartCharFacts(s[1..], c);
      var r := TrimStartChar(s, c);
      assert forall i :: 1 <= i < |s| - |r| ==> s[i] == s[1..][i - 1];
    }
  }

  function ToLowerChar(c: char): char {
    if IsUpper(c) then (c as int + 32) as char else c
  }

  function ToUpperChar(c: char): char {
    if IsLower(c) then (c as int - 32) as char else c
  }

  /** string.ToLower() over ASCII. */
  function ToLower(s: string): (r: string)
    ensures |r| == |s|
    ensures forall i :: 0 <= i < |s| ==> r[i] == ToLowerChar(s[i])
  {
    if s == [] then [] else [ToLowerChar(s[0])] + ToLower(s[1..])
  }

  /** Replaces every occurrence of the character `from` by `to`. */
  function ReplaceChar(s: string, from: char, to: char): (r: string)
    ensures |r| == |s|
    ensures forall i :: 0 <= i < |s| ==> r[i] == if s[i] == from then to else s[i]
  {
    if s == [] then [] else [if s[0] == from then to else s[0]] + ReplaceChar(s[1..], from, to)
  }

  /** string.Join(sep, parts). */
  function Join(sep: string, parts: seq<string>): string {
    if parts == [] then ""
    else if |parts| == 1 then parts[0]
    else parts[0] + sep + Join(sep, parts[1..])
  }

  /** The concatenation of all parts, in order. */
  function Concat(parts: seq<string>): string {
    if parts == [] then "" else parts[0] + Concat(parts[1..])
  }

  /** List<string>.IndexOf: the first position of x, or -1 when x is absent. */
  function IndexOf(list: seq<string>, x: string): (i: int)
    ensures -1 <= i < |list|
    ensures i == -1 <==> x !in list
    ensures i >= 0 ==> list[i] == x && x !in list[..i]
  {
    if list == [] then -1
    else if list[0] == x then 0
    else
      var j := IndexOf(list[1..], x);
      assert j >= 0 ==> list[..j + 1] == [list[0]] + list[1..][..j];
      if j == -1 then -1 else j + 1
  }

  /** new string(c, n). */
  function Repeat(c: char, n: nat): (r: string)
    ensures |r| == n && forall i :: 0 <= i < n ==> r[i] == c
  {
    if n == 0 then [] else [c] + Repeat(c, n - 1)
  }

  function DigitChar(d: nat): char
    requires d < 10
  {
    ('0' as int + d) as char
  }

  /** The decimal form of a natural number, as string interpolation writes it. */
  function NatToString(n: nat): (r: string)
    ensures |r| >= 1 && forall i :: 0 <= i < |r| ==> IsDigit(r[i])
    decreases n
  {
    if n < 10 then [DigitChar(n)] else NatToString(n / 10) + [DigitChar(n % 10)]
  }

  /** The value of a string of decimal digits. */
  function DigitsValue(s: string): nat
    requires forall i :: 0 <= i < |s| ==> IsDigit(s[i])
  {
    if s == [] then 0
    else
      assert IsDigit(s[|s| - 1]);
      DigitsValue(s[..|s| - 1]) * 10 + (s[|s| - 1] as int - '0' as int)
  }

  /** NatToString writes exactly the digits whose value is n. */
  lemma {:induction false} NatToStringValue(n: nat)
    ensures DigitsValue(NatToString(n)) == n
  {
    if n >= 10 {
      NatToStringValue(n / 10);
      var s := NatToString(n);
      assert s[..|s| - 1] == NatToString(n / 10);
    }
  }

  /** Ordinal (code-point) comparison of strings: a <= b. */
  predicate OrdinalLessOrEqual(a: string, b: string) {
    if a == [] then true
    else if b == [] then false
    else if a[0] != b[0] then a[0] < b[0]
    else OrdinalLessOrEqual(a[1..], b[1..])
  }

  lemma {:induction false} OrdinalTotal(a: string, b: string)
    ensures OrdinalLessOrEqual(a, b) || OrdinalLessOrEqual(b, a)
  {
    if a != [] && b != [] && a[0] == b[0] {
      OrdinalTotal(a[1..], b[1..]);
    }
  }

  lemma {:induction false} OrdinalTransitive(a: string, b: string, c: string)
    requires OrdinalLessOrEqual(a, b) && OrdinalLessOrEqual(b, c)
    ensures OrdinalLessOrEqual(a, c)
  {
    if a != [] && b != [] && c != [] && a[0] == b[0] && b[0] == c[0] {
      OrdinalTransitive(a[1..], b[1..], c[1..]);
    }
  }

  lemma {:induction false} OrdinalAntisymmetric(a: string, b: string)
    requires OrdinalLessOrEqual(a, b) && OrdinalLessOrEqual(b, a)
    ensures a == b
  {
    if a != [] && b != [] {
      OrdinalAntisymmetric(a[1..], b[1..]);
      assert a == [a[0]] + a[1..];
      assert b == [b[0]] + b[1..];
    }
  }
}
