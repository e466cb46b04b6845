/**
 * The JavaScript string operations the components use: the whitespace class shared by
 * `String.prototype.trim` and the regular-expression escape `\s`, trimming, removing and
 * replacing one character, ASCII upper-casing and the text before the first '@'.
 */
module Text {

  /** WhiteSpace and LineTerminator code points of ECMA-262 (what `trim` strips and `\s` matches). */
  predicate IsJsSpace(c: char) {
    || c == '\t' || c == '\n' || c == '\U{000B}' || c == '\U{000C}' || c == '\r'
    || c == ' ' || c == '\U{00A0}' || c == '\U{1680}'
    || ('\U{2000}' <= c <= '\U{200A}')
    || c == '\U{2028}' || c == '\U{2029}' || c == '\U{202F}' || c == '\U{205F}'
    || c == '\U{3000}' || c == '\U{FEFF}'
  }

  predicate AllSpaces(s: string) {
    forall i :: 0 <= i < |s| ==> IsJsSpace(s[i])
  }

  /** Number of occurrences of `c` in `s`. */
  function Count(s: string, c: char): (n: nat)
    ensures n <= |s|
    ensures n == 0 <==> c !in s
  {
    if s == [] then 0 else (if s[0] == c then 1 else 0) + Count(s[1..], c)
  }

  lemma {:induction false} CountAppend(a: string, b: string, c: char)
    ensures Count(a + b, c) == Count(a, c) + Count(b, c)
  {
    if a == [] {
      assert a + b == b;
    } else {
      assert (a + b)[1..] == a[1..] + b;
      CountAppend(a[1..], b, c);
    }
  }

  /** Leading whitespace removed: a suffix of `s` that does not start with whitespace. */
  function TrimStart(s: string): (r: string)
    ensures |r| <= |s|
    ensures r == [] || !IsJsSpace(r[0])
  {
    if s != [] && IsJsSpace(s[0]) then TrimStart(s[1..]) else s
  }

  /** `TrimStart` keeps a suffix of `s`, and what it drops is whitespace. */
  lemma {:induction false} TrimStartDropsSpaces(s: string)
    ensures TrimStart(s) == s[|s| - |TrimStart(s)|..]
    ensures AllSpaces(s[..|s| - |TrimStart(s)|])
  {
    if s != [] && IsJsSpace(s[0]) {
      TrimStartDropsSpaces(s[1..]);
      assert s[1..][|s| - 1 - |TrimStart(s)|..] == s[|s| - |TrimStart(s)|..];
      var k := |s| - |TrimStart(s)|;
      assert forall i :: 1 <= i < k ==> s[..k][i] == s[1..][..k - 1][i - 1];
    }
  }

  /** Trailing whitespace removed: a prefix of `s` that does not end with whitespace. */
  function TrimEnd(s: string): (r: string)
    ensures |r| <= |s|
    ensures r == [] || !IsJsSpace(r[|r| - 1])
  {
    if s != [] && IsJsSpace(s[|s| - 1]) then TrimEnd(s[..|s| - 1]) else s
  }

  /** `TrimEnd` keeps a prefix of `s`, and what it drops is whitespace. */
  lemma {:induction false} TrimEndDropsSpaces(s: string)
    ensures TrimEnd(s) == s[..|TrimEnd(s)|]
    ensures AllSpaces(s[|TrimEnd(s)|..])
  {
    if s != [] && IsJsSpace(s[|s| - 1]) {
      TrimEndDropsSpaces(s[..|s| - 1]);
      assert s[..|s| - 1][..|TrimEnd(s)|] == s[..|TrimEnd(s)|];
      var k := |TrimEnd(s)|;
      assert forall i :: 0 <= i < |s| - 1 - k ==> s[k..][i] == s[..|s| - 1][k..][i];
    }
  }

  /** `String.prototype.trim`. */
  function Trim(s: string): string {
    TrimEnd(TrimStart(s))
  }

  /**
   * Trimming keeps a contiguous middle part of the string, strips only whitespace, and
   * leaves no whitespace at either end.
   */
  lemma TrimIsMiddle(s: string)
    ensures var r := Trim(s);
      exists k :: (0 <= k <= |s| - |r| && r == s[k..k + |r|]
                   && AllSpaces(s[..k]) && AllSpaces(s[k + |r|..])
                   && (r == [] || (!IsJsSpace(r[0]) && !IsJsSpace(r[|r| - 1]))))
  {
    var t := TrimStart(s);
    var r := TrimEnd(t);
    var k := |s| - |t|;
    TrimStartDropsSpaces(s);
    TrimEndDropsSpaces(t);
    assert r == s[k..k + |r|];
    assert s[k + |r|..] == t[|r|..];
  }

  /** A string trims to the empty string exactly when it consists of whitespace only. */
  lemma {:induction false} TrimEmptyIffAllSpaces(s: string)
    ensures Trim(s) == [] <==> AllSpaces(s)
  {
    var t := TrimStart(s);
    TrimStartDropsSpaces(s);
    if t != [] {
      var r := TrimEnd(t);
      TrimEndDropsSpaces(t);
      assert !IsJsSpace(s[|s| - |t|]);
    } else {
      assert s[..|s| - |t|] == s;
    }
  }

  /** `s.replace(/\s/g, '')`: every whitespace character removed. */
  function RemoveSpaces(s: string): (r: string)
    ensures forall i :: 0 <= i < |r| ==> !IsJsSpace(r[i])
    ensures forall c :: c in r <==> c in s && !IsJsSpace(c)
    ensures forall c :: !IsJsSpace(c) ==> Count(r, c) == Count(s, c)
  {
    if s == [] then []
    else if IsJsSpace(s[0]) then RemoveSpaces(s[1..])
    else
      var rest := RemoveSpaces(s[1..]);
      assert ([s[0]] + rest)[1..] == rest;
      [s[0]] + rest
  }

  /** `s.replace(/x/g, '')` for a single character `x`. */
  function RemoveAll(s: string, x: char): (r: string)
    ensures x !in r
    ensures forall c :: c in r <==> c in s && c != x
    ensures forall c :: c != x ==> Count(r, c) == Count(s, c)
    ensures |r| == |s| - Count(s, x)
  {
    if s == [] then []
    else if s[0] == x then RemoveAll(s[1..], x)
    else
      var rest := RemoveAll(s[1..], x);
      assert ([s[0]] + rest)[1..] == rest;
      [s[0]] + rest
  }

  /** `s.replace(/x/g, y)` for single characters: every `x` becomes `y`. */
  function ReplaceAll(s: string, x: char, y: char): (r: string)
    requires x != y
    ensures |r| == |s|
    ensures forall i :: 0 <= i < |s| ==> r[i] == (if s[i] == x then y else s[i])
    ensures x !in r
    ensures Count(r, y) == Count(s, y) + Count(s, x)
    ensures forall c :: c != x && c != y ==> Count(r, c) == Count(s, c)
  {
    if s == [] then []
    else
      var h := if s[0] == x then y else s[0];
      var rest := ReplaceAll(s[1..], x, y);
      var r := [h] + rest;
      assert r[0] == h && r[1..] == rest;
      r
  }

  /** Whitespace removal keeps the order of what stays: it distributes over concatenation. */
  lemma {:induction false} RemoveSpacesAppend(a: string, b: string)
    ensures RemoveSpaces(a + b) == RemoveSpaces(a) + RemoveSpaces(b)
  {
    if a == [] {
      assert a + b == b;
    } else {
      assert (a + b)[1..] == a[1..] + b;
      RemoveSpacesAppend(a[1..], b);
    }
  }

  /** Removing `x` keeps the order of what stays: it distributes over concatenation. */
  lemma {:induction false} RemoveAllAppend(a: string, b: string, x: char)
    ensures RemoveAll(a + b, x) == RemoveAll(a, x) + RemoveAll(b, x)
  {
    if a == [] {
      assert a + b == b;
    } else {
      assert (a + b)[1..] == a[1..] + b;
      RemoveAllAppend(a[1..], b, x);
    }
  }

  /** Replacing every `x` works character by character: it distributes over concatenation. */
  lemma {:induction false} ReplaceAllAppend(a: string, b: string, x: char, y: char)
    requires x != y
    ensures ReplaceAll(a + b, x, y) == ReplaceAll(a, x, y) + ReplaceAll(b, x, y)
  {
    if a == [] {
      assert a + b == b;
    } else {
      assert (a + b)[1..] == a[1..] + b;
      ReplaceAllAppend(a[1..], b, x, y);
    }
  }

  /** Index of the first `x` in `s`, or `|s|` when there is none (`indexOf`, with -1 as `|s|`). */
  function IndexOf(s: string, x: char): (k: nat)
    ensures k <= |s|
    ensures k < |s| ==> s[k] == x
    ensures x !in s[..k]
    ensures k == |s| <==> x !in s
  {
    if s == [] then 0
    else if s[0] == x then 0
    else
      var k := IndexOf(s[1..], x);
      assert s[..k + 1] == [s[0]] + s[1..][..k];
      1 + k
  }

  /** `s.replace(x, y)` with a one-character string pattern: only the first `x` becomes `y`. */
  function ReplaceFirst(s: string, x: char, y: char): (r: string)
    ensures |r| == |s|
    ensures x !in s ==> r == s
    ensures var k := IndexOf(s, x);
      x in s ==> (r[k] == y && r[..k] == s[..k] && r[k + 1..] == s[k + 1..])
  {
    var k := IndexOf(s, x);
    if k < |s| then s[..k] + [y] + s[k + 1..] else s
  }

  /** `toUpperCase` restricted to ASCII letters; other characters are kept. */
  function UpperChar(c: char): (u: char)
    ensures 'a' <= c <= 'z' ==> 'A' <= u <= 'Z' && u as int == c as int - 32
    ensures !('a' <= c <= 'z') ==> u == c
  {
    if 'a' <= c <= 'z' then (c as int - 32) as char else c
  }

  function ToUpper(s: string): (r: string)
    ensures |r| == |s|
    ensures forall i :: 0 <= i < |s| ==> r[i] == UpperChar(s[i])
    ensures forall i :: 0 <= i < |r| ==> !('a' <= r[i] <= 'z')
  {
    if s == [] then [] else [UpperChar(s[0])] + ToUpper(s[1..])
  }

  /** `email.split('@')[0]`: the text before the first '@', or all of it when there is none. */
  function LocalPart(email: string): (r: string)
    ensures '@' !in r
    ensures |r| <= |email| && r == email[..|r|]
    ensures |r| < |email| ==> email[|r|] == '@'
  {
    if email == [] || email[0] == '@' then [] else [email[0]] + LocalPart(email[1..])
  }
}
