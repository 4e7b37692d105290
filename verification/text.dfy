/**
 * The string primitives the page script relies on: the whitespace set shared by
 * `String.prototype.trim` and the regular-expression class `\s`, trimming,
 * lower-casing and `String.prototype.includes`.
 */
module Text {

  /** JavaScript WhiteSpace and LineTerminator code points. */
  predicate IsWhitespace(c: char)
  {
    || c == '\t' || c == '\n' || c == '\U{000B}' || c == '\U{000C}' || c == '\r'
    || c == ' ' || c == '\U{00A0}' || c == '\U{1680}'
    || ('\U{2000}' <= c <= '\U{200A}')
    || c == '\U{2028}' || c == '\U{2029}' || c == '\U{202F}' || c == '\U{205F}'
    || c == '\U{3000}' || c == '\U{FEFF}'
  }

  predicate NoWhitespace(s: string)
  {
    forall i :: 0 <= i < |s| ==> !IsWhitespace(s[i])
  }

  /** `s` without its leading whitespace: a suffix of `s`, all of whose removed part is whitespace. */
  function TrimStart(s: string): (r: string)
    ensures |r| <= |s| && r == s[|s| - |r|..]
    ensures r == [] || !IsWhitespace(r[0])
    ensures forall i :: 0 <= i < |s| - |r| ==> IsWhitespace(s[i])
  {
    if |s| > 0 && IsWhitespace(s[0]) then TrimStart(s[1..]) else s
  }

  /** `s` without its trailing whitespace: a prefix of `s`, all of whose removed part is whitespace. */
  function TrimEnd(s: string): (r: string)
    ensures r <= s
    ensures r == [] || !IsWhitespace(r[|r| - 1])
    ensures forall i :: |r| <= i < |s| ==> IsWhitespace(s[i])
  {
    if |s| > 0 && IsWhitespace(s[|s| - 1]) then TrimEnd(s[..|s| - 1]) else s
  }

  /**
   * `String.prototype.trim`: `s` without its leading and trailing whitespace;
   * empty exactly when `s` is all whitespace.
   */
  function Trim(s: string): (r: string)
    ensures |r| <= |s|
    ensures r == [] || (!IsWhitespace(r[0]) && !IsWhitespace(r[|r| - 1]))
    ensures r == [] <==> forall i :: 0 <= i < |s| ==> IsWhitespace(s[i])
  {
    var t := TrimStart(s);
    var r := TrimEnd(t);
    TrimmedEnds(s, t, r);
    r
  }

  /** A prefix `r` of a suffix `t` of `s`, cut where `trimStart` and `trimEnd` cut, has the shape `trim` promises. */
  lemma TrimmedEnds(s: string, t: string, r: string)
    requires |t| <= |s| && t == s[|s| - |t|..] && r <= t
    requires t == [] || !IsWhitespace(t[0])
    requires r == [] || !IsWhitespace(r[|r| - 1])
    requires forall i :: 0 <= i < |s| - |t| ==> IsWhitespace(s[i])
    requires forall i :: |r| <= i < |t| ==> IsWhitespace(t[i])
    ensures |r| <= |s|
    ensures r == [] || (!IsWhitespace(r[0]) && !IsWhitespace(r[|r| - 1]))
    ensures r == [] <==> forall i :: 0 <= i < |s| ==> IsWhitespace(s[i])
  {
    if r != [] {
      assert r[0] == t[0];
      assert !IsWhitespace(s[|s| - |t|]);
    } else {
      WhitespaceAfter(s, t, r);
    }
  }

  /**
   * What `trim` keeps is one contiguous part of `s`: it starts right after the
   * leading whitespace, and everything after it is whitespace too.
   */
  lemma TrimIsInfix(s: string)
    ensures Trim(s) <= s[|s| - |TrimStart(s)|..]
    ensures forall i :: 0 <= i < |s| - |TrimStart(s)| ==> IsWhitespace(s[i])
    ensures forall i :: |s| - |TrimStart(s)| + |Trim(s)| <= i < |s| ==> IsWhitespace(s[i])
  {
    var t := TrimStart(s);
    WhitespaceAfter(s, t, TrimEnd(t));
  }

  /** The whitespace after a prefix `r` of the suffix `t` of `s` is whitespace of `s`. */
  lemma WhitespaceAfter(s: string, t: string, r: string)
    requires |t| <= |s| && t == s[|s| - |t|..] && |r| <= |t|
    requires forall i :: |r| <= i < |t| ==> IsWhitespace(t[i])
    ensures forall i :: |s| - |t| + |r| <= i < |s| ==> IsWhitespace(s[i])
  {
    var k := |s| - |t|;
    forall i | k + |r| <= i < |s|
      ensures IsWhitespace(s[i])
    {
      assert s[i] == t[i - k];
    }
  }

  function LowerChar(c: char): (d: char)
    ensures !('A' <= d <= 'Z')
  {
    if 'A' <= c <= 'Z' then (c as int - 'A' as int + 'a' as int) as char else c
  }

  /** `String.prototype.toLowerCase`, on the ASCII letters. */
  function ToLower(s: string): (r: string)
    ensures |r| == |s|
    ensures forall i :: 0 <= i < |s| ==> r[i] == LowerChar(s[i])
  {
    seq(|s|, i requires 0 <= i < |s| => LowerChar(s[i]))
  }

  /** `t.includes(q)`: `q` occurs in `t` at some position. */
  function Contains(t: string, q: string): (b: bool)
    ensures b <==> exists i :: 0 <= i <= |t| && q <= t[i..]
  {
    if q <= t then
      assert q <= t[0..];
      true
    else if |t| == 0 then
      false
    else
      var b := Contains(t[1..], q);
      assert t[0..] == t;
      assert forall i :: 0 <= i < |t| ==> t[1..][i..] == t[i + 1..];
      assert (exists i :: 0 <= i <= |t| && q <= t[i..]) ==> b by {
        if exists i :: 0 <= i <= |t| && q <= t[i..] {
          var i :| 0 <= i <= |t| && q <= t[i..];
          assert i != 0;
          assert q <= t[1..][i - 1..];
        }
      }
      b
  }

  /** Removing leading whitespace commutes with appending, once something that is not whitespace is left. */
  lemma {:induction false} TrimStartAppend(a: string, b: string)
    ensures TrimStart(a) != [] ==> TrimStart(a + b) == TrimStart(a) + b
    ensures TrimStart(a) == [] ==> TrimStart(a + b) == TrimStart(b)
  {
    if |a| > 0 && IsWhitespace(a[0]) {
      assert (a + b)[1..] == a[1..] + b;
      TrimStartAppend(a[1..], b);
    } else if a == [] {
      assert a + b == b;
    }
  }

  /** Typing one more character into a search box can only extend the trimmed text. */
  lemma TrimAppendExtends(s: string, c: char)
    ensures Trim(s) <= Trim(s + [c])
  {
    TrimStartAppend(s, [c]);
    var t := TrimStart(s);
    if t != [] {
      if IsWhitespace(c) {
        assert (t + [c])[..|t + [c]| - 1] == t;
      }
    }
  }

  lemma ToLowerPrefix(a: string, b: string)
    requires a <= b
    ensures ToLower(a) <= ToLower(b)
  {
  }
}
