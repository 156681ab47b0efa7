/** The JavaScript string operations the application relies on. A string is a
    sequence of Unicode scalar values; case mapping covers the ASCII letters. */
module Text {

  /** White space as JavaScript's `\s` and `String.prototype.trim` see it: the
      ECMAScript WhiteSpace and LineTerminator characters. */
  predicate IsWhitespace(c: char) {
    || c == ' ' || c == '\t' || c == '\n' || c == '\r' || c == '\U{B}' || c == '\U{C}'
    || c == '\U{A0}' || c == '\U{1680}' || ('\U{2000}' <= c <= '\U{200A}')
    || c == '\U{2028}' || c == '\U{2029}' || c == '\U{202F}' || c == '\U{205F}'
    || c == '\U{3000}' || c == '\U{FEFF}'
  }

  /** The characters a regular-expression `.` does not match. */
  predicate IsLineTerminator(c: char) {
    c == '\n' || c == '\r' || c == '\U{2028}' || c == '\U{2029}'
  }

  /** Every character is white space (the empty string included). */
  predicate IsBlank(s: string) {
    forall i :: 0 <= i < |s| ==> IsWhitespace(s[i])
  }

  /** Neither the first nor the last character is white space. */
  predicate IsTrimmed(s: string) {
    s == [] || (!IsWhitespace(s[0]) && !IsWhitespace(s[|s| - 1]))
  }

  /** `r` occurs in `s` starting at position `k`. */
  predicate InfixAt(r: string, s: string, k: int) {
    0 <= k && k + |r| <= |s| && s[k..k + |r|] == r
  }

  /** `r` occurs as a contiguous piece of `s`. */
  ghost predicate IsInfix(r: string, s: string) {
    exists k :: InfixAt(r, s, k)
  }

  /** `r` occurs in `s` at position `k` with nothing but white space around it. */
  predicate PaddedAt(r: string, s: string, k: int) {
    InfixAt(r, s, k) && IsBlank(s[..k]) && IsBlank(s[k + |r|..])
  }

  /** Removes leading white space. */
  function TrimStart(s: string): (r: string)
    ensures |r| <= |s| && r == s[|s| - |r|..]
    ensures IsBlank(s[..|s| - |r|])
    ensures r == [] || !IsWhitespace(r[0])
  {
    if s != [] && IsWhitespace(s[0]) then
      var r := TrimStart(s[1..]);
      var n := |s| - |r|;
      assert forall i :: 0 <= i < n ==> IsWhitespace(s[..n][i]) by {
        forall i | 0 <= i < n
          ensures IsWhitespace(s[..n][i])
        {
          if i > 0 {
            assert s[..n][i] == s[1..][..n - 1][i - 1];
          }
        }
      }
      r
    else s
  }

  /** Removes trailing white space. */
  function TrimEnd(s: string): (r: string)
    ensures |r| <= |s| && r == s[..|r|]
    ensures IsBlank(s[|r|..])
    ensures r == [] || !IsWhitespace(r[|r| - 1])
  {
    if s != [] && IsWhitespace(s[|s| - 1]) then
      var r := TrimEnd(s[..|s| - 1]);
      assert forall i :: 0 <= i < |s| - |r| ==> IsWhitespace(s[|r|..][i]) by {
        forall i | 0 <= i < |s| - |r|
          ensures IsWhitespace(s[|r|..][i])
        {
          if |r| + i < |s| - 1 {
            assert s[|r|..][i] == s[..|s| - 1][|r|..][i];
          }
        }
      }
      r
    else s
  }

  /** `String.prototype.trim`: the piece of `s` left after removing white space at
      both ends, so that only white space surrounds it in `s`; it is empty
      exactly when `s` is blank. */
  function Trim(s: string): (r: string)
    ensures IsTrimmed(r)
    ensures r == [] <==> IsBlank(s)
    ensures IsInfix(r, s)
    ensures exists k :: PaddedAt(r, s, k)
  {
    var t := TrimStart(s);
    var r := TrimEnd(t);
    TrimParts(s, t, r);
    r
  }

  /** Trim's contract pins its result down: the only trimmed piece of `s` with
      nothing but white space around it, and non-empty unless `s` is blank, is
      `Trim(s)`. */
  lemma TrimUnique(r: string, s: string, k: int)
    requires IsTrimmed(r) && PaddedAt(r, s, k) && (r != [] || IsBlank(s))
    ensures Trim(s) == r
  {
    var t := Trim(s);
    if r != [] {
      var j :| PaddedAt(t, s, j);
      PaddedBounds(r, s, k);
      PaddedBounds(t, s, j);
      assert k == j && k + |r| == j + |t|;
      assert r == s[k..k + |r|] == t;
    }
  }

  /** A trimmed, non-empty piece with only white space around it spans exactly
      from the first to the last character of `s` that is not white space. */
  lemma PaddedBounds(r: string, s: string, k: int)
    requires IsTrimmed(r) && r != [] && PaddedAt(r, s, k)
    ensures !IsWhitespace(s[k]) && !IsWhitespace(s[k + |r| - 1])
    ensures forall i :: 0 <= i < |s| && !IsWhitespace(s[i]) ==> k <= i < k + |r|
  {
    assert s[k] == r[0] && s[k + |r| - 1] == r[|r| - 1];
    assert forall i :: 0 <= i < k ==> s[..k][i] == s[i];
    assert forall i :: k + |r| <= i < |s| ==> s[k + |r|..][i - k - |r|] == s[i];
  }

  /** Trimming a string that starts with a non-empty trimmed piece keeps that
      piece: only white space at the far end is removed. */
  lemma TrimKeepsTrimmedPrefix(p: string, s: string)
    requires p != [] && IsTrimmed(p)
    ensures |p| <= |Trim(p + s)| && Trim(p + s) == (p + s)[..|Trim(p + s)|]
  {
    var text := p + s;
    assert text[0] == p[0] && text[|p| - 1] == p[|p| - 1];
    var t := Trim(text);
    var k :| PaddedAt(t, text, k);
    PaddedBounds(t, text, k);
  }

  /** What the two one-sided trims promise, put together. */
  lemma TrimParts(s: string, t: string, r: string)
    requires |t| <= |s| && t == s[|s| - |t|..] && IsBlank(s[..|s| - |t|])
    requires t == [] || !IsWhitespace(t[0])
    requires |r| <= |t| && r == t[..|r|] && IsBlank(t[|r|..])
    requires r == [] || !IsWhitespace(r[|r| - 1])
    ensures IsTrimmed(r)
    ensures r == [] <==> IsBlank(s)
    ensures InfixAt(r, s, |s| - |t|) && PaddedAt(r, s, |s| - |t|)
  {
    var k := |s| - |t|;
    assert s[k..k + |r|] == t[..|r|];
    assert s[k + |r|..] == t[|r|..];
    if r != [] {
      assert r[0] == t[0];
      assert s[k + |r| - 1] == r[|r| - 1];
    } else {
      assert t[|r|..] == t;
      assert t == [];
      forall i | 0 <= i < |s|
        ensures IsWhitespace(s[i])
      {
        assert s[i] == s[..k][i];
      }
    }
  }

  /** A piece of a string without `c` has no `c` either. */
  lemma InfixExcludes(r: string, s: string, c: char)
    requires IsInfix(r, s) && c !in s
    ensures c !in r
  {
    var k :| InfixAt(r, s, k);
    assert forall j :: 0 <= j < |r| ==> r[j] == s[k + j];
  }

  /** Trimming a string that has no white space at its ends changes nothing. */
  lemma TrimOfTrimmed(s: string)
    requires IsTrimmed(s)
    ensures Trim(s) == s
  {
  }

  /** Trimming twice is trimming once. */
  lemma TrimIdempotent(s: string)
    ensures Trim(Trim(s)) == Trim(s)
  {
    TrimOfTrimmed(Trim(s));
  }

  /** The index of the first occurrence of `c` in `s`. */
  function IndexOf(s: string, c: char): (i: nat)
    requires c in s
    ensures i < |s| && s[i] == c && c !in s[..i]
  {
    if s[0] == c then 0 else
      var i := 1 + IndexOf(s[1..], c);
      assert s[..i] == [s[0]] + s[1..][..i - 1];
      i
  }

  /** The first occurrence of `c` is the one right after a prefix without `c`. */
  lemma IndexOfAfter(a: string, c: char, b: string)
    requires c !in a
    ensures c in a + [c] + b && IndexOf(a + [c] + b, c) == |a|
  {
    var s := a + [c] + b;
    assert s[..|a|] == a;
    assert s[|a|] == c;
  }

  /** `s.split(sep)` for a one-character separator: the pieces between the
      separators, in order (there is always at least one). */
  function Split(s: string, sep: char): (parts: seq<string>)
    ensures |parts| >= 1
    ensures forall i :: 0 <= i < |parts| ==> sep !in parts[i]
    decreases |s|
  {
    if sep !in s then [s]
    else
      var i := IndexOf(s, sep);
      [s[..i]] + Split(s[i + 1..], sep)
  }

  /** `parts.join(sep)`. */
  function Join(parts: seq<string>, sep: char): string
  {
    if |parts| == 0 then ""
    else if |parts| == 1 then parts[0]
    else parts[0] + [sep] + Join(parts[1..], sep)
  }

  /** Joining the pieces of a split gives back the original string. */
  lemma {:induction false} JoinSplit(s: string, sep: char)
    ensures Join(Split(s, sep), sep) == s
    decreases |s|
  {
    if sep in s {
      var i := IndexOf(s, sep);
      JoinSplit(s[i + 1..], sep);
      assert Split(s, sep) == [s[..i]] + Split(s[i + 1..], sep);
      assert s == s[..i] + [sep] + s[i + 1..];
    }
  }

  /** Splitting a join of separator-free pieces gives back the pieces. */
  lemma {:induction false} SplitJoin(parts: seq<string>, sep: char)
    requires |parts| >= 1
    requires forall i :: 0 <= i < |parts| ==> sep !in parts[i]
    ensures Split(Join(parts, sep), sep) == parts
  {
    if |parts| > 1 {
      var head, tail := parts[0], parts[1..];
      var rest := Join(tail, sep);
      var s := head + [sep] + rest;
      assert Join(parts, sep) == s;
      IndexOfAfter(head, sep, rest);
      assert s[..|head|] == head;
      assert s[|head| + 1..] == rest;
      assert Split(s, sep) == [head] + Split(rest, sep);
      SplitJoin(tail, sep);
      assert parts == [head] + tail;
    }
  }

  /** Splitting a join followed by a separator and more text gives the joined
      pieces, then the pieces of the rest. */
  lemma SplitJoinThen(parts: seq<string>, sep: char, rest: string)
    requires |parts| >= 1
    requires forall i :: 0 <= i < |parts| ==> sep !in parts[i]
    ensures Split(Join(parts, sep) + [sep] + rest, sep) == parts + Split(rest, sep)
  {
    var pieces := Split(rest, sep);
    JoinSplit(rest, sep);
    JoinConcat(parts, pieces, sep);
    SplitJoin(parts + pieces, sep);
  }

  /** Joining two non-empty lists of pieces is joining each, then the two
      results around one more separator. */
  lemma {:induction false} JoinConcat(a: seq<string>, b: seq<string>, sep: char)
    requires |a| >= 1 && |b| >= 1
    ensures Join(a + b, sep) == Join(a, sep) + [sep] + Join(b, sep)
  {
    assert (a + b)[1..] == a[1..] + b;
    if |a| > 1 {
      JoinConcat(a[1..], b, sep);
    }
  }

  /** A string that starts with a join, and goes on (if at all) with a
      separator, splits into the joined pieces followed by more pieces. */
  lemma SplitJoinPrefix(parts: seq<string>, sep: char, t: string) returns (more: seq<string>)
    requires |parts| >= 1
    requires forall i :: 0 <= i < |parts| ==> sep !in parts[i]
    requires |Join(parts, sep)| <= |t| && t[..|Join(parts, sep)|] == Join(parts, sep)
    requires |Join(parts, sep)| < |t| ==> t[|Join(parts, sep)|] == sep
    ensures Split(t, sep) == parts + more
  {
    var joined := Join(parts, sep);
    if |t| == |joined| {
      assert t == joined;
      SplitJoin(parts, sep);
      more := [];
    } else {
      var x := t[|joined| + 1..];
      assert t == joined + [sep] + x;
      SplitJoinThen(parts, sep, x);
      more := Split(x, sep);
    }
  }

  /** `toLowerCase` of one character (ASCII letters). */
  function LowerChar(c: char): char {
    if 'A' <= c <= 'Z' then (c as int + 32) as char else c
  }

  /** `toUpperCase` of one character (ASCII letters). */
  function UpperChar(c: char): char {
    if 'a' <= c <= 'z' then (c as int - 32) as char else c
  }

  /** `String.prototype.toLowerCase`. */
  function Lower(s: string): string {
    seq(|s|, i requires 0 <= i < |s| => LowerChar(s[i]))
  }

  /** `String.prototype.toUpperCase`. */
  function Upper(s: string): string {
    seq(|s|, i requires 0 <= i < |s| => UpperChar(s[i]))
  }

  /** `s.startsWith(p)`. */
  predicate StartsWith(s: string, p: string) {
    |p| <= |s| && s[..|p|] == p
  }

  /** `s.includes(p)`: `p` starts at some position of `s`. */
  predicate Contains(s: string, p: string)
    decreases |s|
  {
    StartsWith(s, p) || (s != [] && Contains(s[1..], p))
  }

  /** `Contains` is exactly "`p` occurs as a piece of `s`". */
  lemma {:induction false} ContainsIsInfix(s: string, p: string)
    ensures Contains(s, p) <==> IsInfix(p, s)
    decreases |s|
  {
    if s != [] {
      ContainsIsInfix(s[1..], p);
      if IsInfix(p, s) && !StartsWith(s, p) {
        var k :| InfixAt(p, s, k);
        assert k != 0;
        assert s[1..][k - 1..k - 1 + |p|] == s[k..k + |p|];
        assert InfixAt(p, s[1..], k - 1);
      }
      if IsInfix(p, s[1..]) {
        var k :| InfixAt(p, s[1..], k);
        assert s[k + 1..k + 1 + |p|] == s[1..][k..k + |p|];
        assert InfixAt(p, s, k + 1);
      }
      if StartsWith(s, p) {
        assert InfixAt(p, s, 0);
      }
    } else {
      if IsInfix(p, s) {
        var k :| InfixAt(p, s, k);
        assert p == [];
      }
      if StartsWith(s, p) {
        assert InfixAt(p, s, 0);
      }
    }
  }

  /** A string containing `p + q` contains `p`. */
  lemma ContainsPrefixOf(s: string, p: string, q: string)
    requires Contains(s, p + q)
    ensures Contains(s, p)
  {
    ContainsIsInfix(s, p + q);
    ContainsIsInfix(s, p);
    var k :| InfixAt(p + q, s, k);
    assert s[k..k + |p|] == (p + q)[..|p|];
    assert InfixAt(p, s, k);
  }

  /** `s.replace(a, b)` with a one-character string pattern: only the first
      occurrence is replaced. */
  function ReplaceFirst(s: string, a: char, b: char): string {
    if a in s then
      var i := IndexOf(s, a);
      s[..i] + [b] + s[i + 1..]
    else s
  }

  predicate IsDigit(c: char) {
    '0' <= c <= '9'
  }

  predicate AllDigits(s: string) {
    forall i :: 0 <= i < |s| ==> IsDigit(s[i])
  }

  function DigitChar(d: nat): char
    requires d < 10
  {
    ('0' as int + d) as char
  }

  function DigitValue(c: char): nat
    requires IsDigit(c)
  {
    c as int - '0' as int
  }

  /** `n.toString()` for a non-negative integer: its decimal digits. */
  function NatToString(n: nat): (s: string)
    ensures 1 <= |s| && AllDigits(s)
    ensures n < 10 <==> |s| == 1
    ensures 10 <= n < 100 ==> |s| == 2
  {
    if n < 10 then [DigitChar(n)] else NatToString(n / 10) + [DigitChar(n % 10)]
  }

  /** The number a string of decimal digits denotes. */
  function DigitsValue(s: string): nat
    requires AllDigits(s)
  {
    if s == [] then 0 else DigitsValue(s[..|s| - 1]) * 10 + DigitValue(s[|s| - 1])
  }

  /** Reading back the decimal rendering of `n` gives `n`. */
  lemma {:induction false} NatToStringValue(n: nat)
    ensures DigitsValue(NatToString(n)) == n
  {
    if n >= 10 {
      var s := NatToString(n);
      NatToStringValue(n / 10);
      assert s[..|s| - 1] == NatToString(n / 10);
    }
  }

  /** `s.padStart(2, '0')`. */
  function PadStart2(s: string): string {
    if |s| >= 2 then s else if |s| == 1 then "0" + s else "00"
  }
}
