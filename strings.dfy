/** The few string operations of JavaScript's String.prototype and of number-to-string conversion
    that the modelled code relies on: `indexOf`, `split`, `join`, `startsWith`, `endsWith`, `trim`,
    and the decimal text of an integer. */
module Strings {

  /** `s.indexOf(c)`: the first position of `c` in `s`, or -1. */
  function IndexOf(s: string, c: char): (i: int)
    ensures -1 <= i < |s|
    ensures i == -1 <==> c !in s
    ensures 0 <= i ==> s[i] == c && c !in s[..i]
  {
    if |s| == 0 then -1
    else if s[0] == c then 0
    else
      var j := IndexOf(s[1..], c);
      assert s[1..][..if j < 0 then 0 else j] == s[1..if j < 0 then 1 else j + 1];
      if j == -1 then -1 else j + 1
  }

  /** `s.split(sep)` for a one-character separator: "" gives [""], and two adjacent separators
      give an empty part between them. */
  function Split(s: string, sep: char): (parts: seq<string>)
    ensures |parts| >= 1
    ensures forall i :: 0 <= i < |parts| ==> sep !in parts[i]
    decreases |s|
  {
    var i := IndexOf(s, sep);
    if i < 0 then [s] else [s[..i]] + Split(s[i + 1..], sep)
  }

  /** `parts.join(sep)` for a one-character separator. */
  function Join(parts: seq<string>, sep: char): string
  {
    if |parts| == 0 then ""
    else if |parts| == 1 then parts[0]
    else parts[0] + [sep] + Join(parts[1..], sep)
  }

  /** Splitting undoes joining, as long as no part contains the separator. */
  lemma {:induction false} SplitJoin(parts: seq<string>, sep: char)
    requires |parts| >= 1
    requires forall i :: 0 <= i < |parts| ==> sep !in parts[i]
    ensures Split(Join(parts, sep), sep) == parts
  {
    if |parts| > 1 {
      var s := Join(parts, sep);
      var rest := Join(parts[1..], sep);
      assert s == parts[0] + [sep] + rest;
      IndexOfPrefix(parts[0], sep, rest);
      assert s[..|parts[0]|] == parts[0];
      assert s[|parts[0]| + 1..] == rest;
      SplitJoin(parts[1..], sep);
    }
  }

  /** Joining undoes splitting. */
  lemma {:induction false} JoinSplit(s: string, sep: char)
    ensures Join(Split(s, sep), sep) == s
    decreases |s|
  {
    var i := IndexOf(s, sep);
    if i >= 0 {
      var rest := Split(s[i + 1..], sep);
      var parts := [s[..i]] + rest;
      assert parts[1..] == rest;
      assert Join(parts, sep) == s[..i] + [sep] + Join(rest, sep);
      JoinSplit(s[i + 1..], sep);
      assert s == s[..i] + [sep] + s[i + 1..];
    }
  }

  /** The first separator of `a + [c] + b` is the one after `a` when `a` has none. */
  lemma IndexOfPrefix(a: string, c: char, b: string)
    requires c !in a
    ensures IndexOf(a + [c] + b, c) == |a|
  {
    var s := a + [c] + b;
    assert s[..|a|] == a;
    assert s[|a|] == c;
  }

  predicate StartsWith(s: string, prefix: string)
  {
    |prefix| <= |s| && s[..|prefix|] == prefix
  }

  predicate EndsWith(s: string, suffix: string)
  {
    |suffix| <= |s| && s[|s| - |suffix|..] == suffix
  }

  /** The characters that `String.prototype.trim` removes: the ECMAScript WhiteSpace code points
      (tab, vertical tab, form feed, space, no-break space, the byte order mark and the other
      space separators) and the LineTerminator code points (line feed, carriage return, line and
      paragraph separators). */
  predicate IsWhitespace(c: char)
  {
    if c < '\U{A0}' then c == ' ' || '\t' <= c <= '\r'
    else
      || c == '\U{A0}' || c == '\U{1680}' || '\U{2000}' <= c <= '\U{200A}'
      || c == '\U{2028}' || c == '\U{2029}' || c == '\U{202F}' || c == '\U{205F}'
      || c == '\U{3000}' || c == '\U{FEFF}'
  }

  function TrimStart(s: string): (r: string)
    ensures |r| <= |s| && r == s[|s| - |r|..]
    ensures r != [] ==> !IsWhitespace(r[0])
  {
    if |s| > 0 && IsWhitespace(s[0]) then TrimStart(s[1..]) else s
  }

  function TrimEnd(s: string): (r: string)
    ensures |r| <= |s| && r == s[..|r|]
    ensures r != [] ==> !IsWhitespace(r[|r| - 1])
  {
    if |s| > 0 && IsWhitespace(s[|s| - 1]) then TrimEnd(s[..|s| - 1]) else s
  }

  /** `s.trim()`: `s` without its leading and trailing whitespace. */
  function Trim(s: string): (r: string)
    ensures |r| <= |s|
    ensures r != [] ==> !IsWhitespace(r[0]) && !IsWhitespace(r[|r| - 1])
  {
    var a := TrimStart(s);
    var b := TrimEnd(a);
    assert b != [] ==> b[0] == a[0];
    b
  }

  /** The trim is the part of `s` after its leading whitespace. */
  lemma TrimIsSlice(s: string)
    ensures var k := |s| - |TrimStart(s)|; k + |Trim(s)| <= |s| && Trim(s) == s[k..k + |Trim(s)|]
  {
    var a := TrimStart(s);
    var b := TrimEnd(a);
    var k := |s| - |a|;
    assert Trim(s) == b;
    assert a == s[k..];
    assert b == a[..|b|];
  }

  lemma {:induction false} TrimStartRemovesWhitespace(s: string)
    ensures forall i :: 0 <= i < |s| - |TrimStart(s)| ==> IsWhitespace(s[i])
  {
    if |s| > 0 && IsWhitespace(s[0]) {
      TrimStartRemovesWhitespace(s[1..]);
      assert forall i :: 1 <= i < |s| ==> s[i] == s[1..][i - 1];
    }
  }

  lemma {:induction false} TrimEndRemovesWhitespace(s: string)
    ensures forall i :: |TrimEnd(s)| <= i < |s| ==> IsWhitespace(s[i])
  {
    if |s| > 0 && IsWhitespace(s[|s| - 1]) {
      TrimEndRemovesWhitespace(s[..|s| - 1]);
    }
  }

  /** Trimming removes nothing but whitespace, on either side. */
  lemma TrimRemovesWhitespace(s: string)
    ensures var k := |s| - |TrimStart(s)|;
      && (forall i :: 0 <= i < k ==> IsWhitespace(s[i]))
      && (forall i :: k + |Trim(s)| <= i < |s| ==> IsWhitespace(s[i]))
  {
    var a := TrimStart(s);
    var b := TrimEnd(a);
    var k := |s| - |a|;
    assert Trim(s) == b;
    TrimStartRemovesWhitespace(s);
    TrimEndRemovesWhitespace(a);
    forall i | k + |b| <= i < |s|
      ensures IsWhitespace(s[i])
    {
      assert s[i] == a[i - k];
    }
  }

  /** A string that starts and ends with a non-whitespace character is its own trim. */
  lemma TrimOfTrimmed(s: string)
    requires s != [] ==> !IsWhitespace(s[0]) && !IsWhitespace(s[|s| - 1])
    ensures Trim(s) == s
  {
  }

  predicate IsDigit(c: char)
  {
    '0' <= c <= '9'
  }

  /** The decimal text of a natural number, as JavaScript prints an integer-valued number. */
  function NatToString(n: nat): (s: string)
    ensures |s| >= 1
    ensures forall i :: 0 <= i < |s| ==> IsDigit(s[i])
    ensures |s| > 1 ==> s[0] != '0'
  {
    var d := [(('0' as int) + n % 10) as char];
    if n < 10 then d else NatToString(n / 10) + d
  }

  /** `${i}` for an integer-valued number. */
  function IntToString(i: int): (s: string)
    ensures |s| >= 1
  {
    if i < 0 then "-" + NatToString(-i) else NatToString(i)
  }

  /** The value of a string of decimal digits. */
  function DigitsValue(s: string): nat
    requires forall i :: 0 <= i < |s| ==> IsDigit(s[i])
  {
    if |s| == 0 then 0
    else
      assert IsDigit(s[|s| - 1]);
      DigitsValue(s[..|s| - 1]) * 10 + ((s[|s| - 1] as int) - ('0' as int))
  }

  /** Reading the decimal text back gives the number. */
  lemma {:induction false} NatToStringValue(n: nat)
    ensures DigitsValue(NatToString(n)) == n
  {
    var s := NatToString(n);
    if n >= 10 {
      NatToStringValue(n / 10);
      assert s[..|s| - 1] == NatToString(n / 10);
    }
  }

  /** Different numbers have different decimal texts. */
  lemma NatToStringInjective(m: nat, n: nat)
    requires NatToString(m) == NatToString(n)
    ensures m == n
  {
    NatToStringValue(m);
    NatToStringValue(n);
  }
}
