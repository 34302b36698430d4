/** The string primitives of JavaScript that the core relies on:
    `trim`, `toLowerCase`, `includes`, `join`, `split` and `length`. */
module JsText {

  /** The WhiteSpace and LineTerminator code points that
      `String.prototype.trim` removes (ECMAScript 2023, sections 12.2 and 12.3). */
  predicate IsWhite(c: char)
  {
    || c == ' ' || c == '\t' || c == '\n' || c == '\r'
    || c == '\U{000B}' || c == '\U{000C}' || c == '\U{00A0}' || c == '\U{1680}'
    || ('\U{2000}' <= c <= '\U{200A}')
    || c == '\U{2028}' || c == '\U{2029}' || c == '\U{202F}' || c == '\U{205F}'
    || c == '\U{3000}' || c == '\U{FEFF}'
  }

  function TrimStart(s: string): (r: string)
    ensures |r| <= |s| && r == s[|s| - |r|..]
    ensures |r| == 0 || !IsWhite(r[0])
    ensures forall k :: 0 <= k < |s| - |r| ==> IsWhite(s[k])
  {
    if |s| > 0 && IsWhite(s[0]) then
      var r := TrimStart(s[1..]);
      assert forall k :: 1 <= k < |s| - |r| ==> s[k] == s[1..][k - 1];
      r
    else s
  }

  function TrimEnd(s: string): (r: string)
    ensures |r| <= |s| && r == s[..|r|]
    ensures |r| == 0 || !IsWhite(r[|r| - 1])
    ensures forall k :: |r| <= k < |s| ==> IsWhite(s[k])
  {
    if |s| > 0 && IsWhite(s[|s| - 1]) then
      var r := TrimEnd(s[..|s| - 1]);
      assert forall k :: |r| <= k < |s| - 1 ==> s[k] == s[..|s| - 1][k];
      r
    else s
  }

  /** `s.trim()`: the longest infix with no white space at either end. */
  function Trim(s: string): (r: string)
    ensures |r| == 0 || (!IsWhite(r[0]) && !IsWhite(r[|r| - 1]))
    ensures r == "" <==> forall k :: 0 <= k < |s| ==> IsWhite(s[k])
    ensures (|s| == 0 || (!IsWhite(s[0]) && !IsWhite(s[|s| - 1]))) ==> r == s
    ensures forall k :: 0 <= k < |r| ==> r[k] in s
  {
    TrimEndsClean(s);
    TrimEmptyIffWhite(s);
    TrimKeepsClean(s);
    TrimInfix(s);
    TrimEnd(TrimStart(s))
  }

  lemma TrimEndsClean(s: string)
    ensures var r := TrimEnd(TrimStart(s));
      |r| == 0 || (!IsWhite(r[0]) && !IsWhite(r[|r| - 1]))
  {
    var t := TrimStart(s);
    var r := TrimEnd(t);
    assert |r| == 0 || r[0] == t[0];
  }

  lemma TrimEmptyIffWhite(s: string)
    ensures TrimEnd(TrimStart(s)) == "" <==> forall k :: 0 <= k < |s| ==> IsWhite(s[k])
  {
    var t := TrimStart(s);
    var r := TrimEnd(t);
    var d := |s| - |t|;
    if |t| > 0 {
      assert s[d] == t[0];
    }
  }

  lemma TrimKeepsClean(s: string)
    ensures (|s| == 0 || (!IsWhite(s[0]) && !IsWhite(s[|s| - 1]))) ==> TrimEnd(TrimStart(s)) == s
  {
  }

  lemma TrimInfix(s: string)
    ensures var r := TrimEnd(TrimStart(s));
      forall k :: 0 <= k < |r| ==> r[k] in s
  {
    var t := TrimStart(s);
    var r := TrimEnd(t);
    var d := |s| - |t|;
    assert t == s[d..];
    assert r == t[..|r|];
    assert r == s[d..d + |r|];
    forall k | 0 <= k < |r| ensures r[k] in s {
      assert r[k] == s[d + k];
    }
  }




  /** A leading white-space character makes no difference to `trim`. */
  lemma TrimDropsLeadingWhite(c: char, s: string)
    requires IsWhite(c)
    ensures Trim([c] + s) == Trim(s)
  {
    assert ([c] + s)[1..] == s;
    assert TrimStart([c] + s) == TrimStart(s);
  }

  /** A string that `trim` leaves alone. */
  predicate IsTrimmed(s: string)
  {
    |s| == 0 || (!IsWhite(s[0]) && !IsWhite(s[|s| - 1]))
  }

  function LowerChar(c: char): char
  {
    if 'A' <= c <= 'Z' then (c as int + 32) as char else c
  }

  /** `s.toLowerCase()`, restricted to the ASCII letters. */
  function Lower(s: string): (r: string)
    ensures |r| == |s|
    ensures forall k :: 0 <= k < |s| ==> r[k] == LowerChar(s[k])
  {
    if s == [] then [] else [LowerChar(s[0])] + Lower(s[1..])
  }

  /** A character outside the Basic Multilingual Plane, which UTF-16
      stores as a surrogate pair. */
  predicate IsAstral(c: char)
  {
    c as int > 0xFFFF
  }

  /** `s.length`: a JavaScript string counts UTF-16 code units, so an
      astral character counts twice. */
  function Utf16Length(s: string): (n: nat)
    ensures |s| <= n <= 2 * |s|
    ensures n == |s| <==> forall k :: 0 <= k < |s| ==> !IsAstral(s[k])
    ensures n == 2 * |s| <==> forall k :: 0 <= k < |s| ==> IsAstral(s[k])
  {
    if s == [] then 0
    else
      var rest := Utf16Length(s[1..]);
      assert forall k :: 1 <= k < |s| ==> s[k] == s[1..][k - 1];
      (if IsAstral(s[0]) then 2 else 1) + rest
  }

  /** Lengths add up over concatenation. */
  lemma {:induction false} Utf16LengthConcat(a: string, b: string)
    ensures Utf16Length(a + b) == Utf16Length(a) + Utf16Length(b)
    decreases |a|
  {
    if a == [] {
      assert a + b == b;
    } else {
      assert (a + b)[0] == a[0] && (a + b)[1..] == a[1..] + b;
      Utf16LengthConcat(a[1..], b);
    }
  }

  predicate StartsWith(s: string, prefix: string)
  {
    |prefix| <= |s| && s[..|prefix|] == prefix
  }

  /** `s.includes(t)`. */
  predicate Contains(s: string, t: string)
    decreases |s|
  {
    StartsWith(s, t) || (|s| > 0 && Contains(s[1..], t))
  }

  /** `parts.join(sep)`. */
  function Join(parts: seq<string>, sep: string): string
  {
    if |parts| == 0 then ""
    else if |parts| == 1 then parts[0]
    else parts[0] + sep + Join(parts[1..], sep)
  }

  /** `s.split(re)` for a regular expression matching exactly one
      character of the class `isSep`: the maximal separator-free pieces,
      always at least one. */
  function Split(s: string, isSep: char -> bool): (r: seq<string>)
    ensures |r| >= 1
    ensures forall i, k :: 0 <= i < |r| && 0 <= k < |r[i]| ==> !isSep(r[i][k])
    decreases |s|
  {
    if s == [] then [""]
    else
      var rest := Split(s[1..], isSep);
      if isSep(s[0]) then [""] + rest
      else [[s[0]] + rest[0]] + rest[1..]
  }

  /** A separator-free string is its own single piece. */
  lemma {:induction false} SplitNoSeparator(s: string, isSep: char -> bool)
    requires forall k :: 0 <= k < |s| ==> !isSep(s[k])
    ensures Split(s, isSep) == [s]
    decreases |s|
  {
    if s != [] {
      SplitNoSeparator(s[1..], isSep);
      assert [s[0]] + s[1..] == s;
    }
  }

  /** Splitting `a + [c] + b` at a separator `c`, with `a` separator-free. */
  lemma {:induction false} SplitAtSeparator(a: string, c: char, b: string, isSep: char -> bool)
    requires forall k :: 0 <= k < |a| ==> !isSep(a[k])
    requires isSep(c)
    ensures Split(a + [c] + b, isSep) == [a] + Split(b, isSep)
    decreases |a|
  {
    if a == [] {
      assert a + [c] + b == [c] + b;
      assert ([c] + b)[1..] == b;
    } else {
      var s := a + [c] + b;
      assert s[0] == a[0];
      assert s[1..] == a[1..] + [c] + b;
      SplitAtSeparator(a[1..], c, b, isSep);
      assert [a[0]] + a[1..] == a;
    }
  }
}
