/**
 * The string operations of the JavaScript standard library that the client relies on:
 * `trim`, `toLowerCase`, `split('.').pop()`, `includes` and `join`.
 */
module JsText {

  /** The characters `String.prototype.trim` removes: ECMAScript WhiteSpace and LineTerminator. */
  predicate IsJsWhitespace(c: char) {
    c == ' ' || c == '\t' || c == '\n' || c == '\r' || c == '\U{000B}' || c == '\U{000C}'
    || c == '\U{00A0}' || c == '\U{1680}' || ('\U{2000}' <= c <= '\U{200A}')
    || c == '\U{2028}' || c == '\U{2029}' || c == '\U{202F}' || c == '\U{205F}'
    || c == '\U{3000}' || c == '\U{FEFF}'
  }

  /** Every character of `s` is whitespace (the empty string included). */
  predicate Blank(s: string) {
    forall k :: 0 <= k < |s| ==> IsJsWhitespace(s[k])
  }

  /** The number of whitespace characters that start `s`. */
  function LeadingSpace(s: string): (n: nat)
    ensures n <= |s| && Blank(s[..n])
    ensures n < |s| ==> !IsJsWhitespace(s[n])
  {
    if s != [] && IsJsWhitespace(s[0]) then
      var n := 1 + LeadingSpace(s[1..]);
      assert s[..n] == [s[0]] + s[1..][..n - 1];
      n
    else 0
  }

  /** The number of whitespace characters that end `s`. */
  function TrailingSpace(s: string): (n: nat)
    ensures n <= |s| && Blank(s[|s| - n..])
    ensures n < |s| ==> !IsJsWhitespace(s[|s| - n - 1])
  {
    if s != [] && IsJsWhitespace(s[|s| - 1]) then
      var n := 1 + TrailingSpace(s[..|s| - 1]);
      assert s[|s| - n..] == s[..|s| - 1][|s| - n..] + [s[|s| - 1]];
      n
    else 0
  }

  /**
   * `s.trim()`: the slice of `s` that remains once the whitespace at both ends is
   * removed; it is empty exactly when `s` is blank.
   */
  function Trim(s: string): (r: string)
    ensures exists i, j :: 0 <= i <= j <= |s| && r == s[i..j] && Blank(s[..i]) && Blank(s[j..])
    ensures r != [] ==> !IsJsWhitespace(r[0]) && !IsJsWhitespace(r[|r| - 1])
    ensures r == [] <==> Blank(s)
  {
    var i := LeadingSpace(s);
    var j := |s| - TrailingSpace(s[i..]);
    assert s[i..][j - i..] == s[j..];
    if i == j then BlankJoin(s, i); s[i..j] else s[i..j]
  }

  /** Trimming is idempotent: a trimmed string has nothing left to trim. */
  lemma TrimIdempotent(s: string)
    ensures Trim(Trim(s)) == Trim(s)
  {
  }

  /** A blank prefix followed by a blank suffix make a blank string. */
  lemma BlankJoin(s: string, i: nat)
    requires i <= |s| && Blank(s[..i]) && Blank(s[i..])
    ensures Blank(s)
  {
    forall k | 0 <= k < |s| ensures IsJsWhitespace(s[k]) {
      if k < i { assert s[k] == s[..i][k]; } else { assert s[k] == s[i..][k - i]; }
    }
  }

  /** ASCII `toLowerCase` on one character; every other character is unchanged. */
  function LowerAscii(c: char): char {
    if 'A' <= c <= 'Z' then (c as int + 32) as char else c
  }

  /** `s.toLowerCase()`, restricted to the ASCII letters. */
  function ToLowerAscii(s: string): (r: string)
    ensures |r| == |s|
    ensures forall k :: 0 <= k < |s| ==> r[k] == LowerAscii(s[k])
    ensures forall k :: 0 <= k < |r| ==> !('A' <= r[k] <= 'Z')
  {
    seq(|s|, k requires 0 <= k < |s| => LowerAscii(s[k]))
  }

  /** Where the text after the last dot of `s` starts: just past that dot, or 0 when `s` has no dot. */
  function SegmentStart(s: string): (n: nat)
    ensures n <= |s| && '.' !in s[n..]
    ensures n > 0 ==> s[n - 1] == '.'
  {
    if s == [] then 0
    else if s[|s| - 1] == '.' then |s|
    else
      var n := SegmentStart(s[..|s| - 1]);
      assert s[n..] == s[..|s| - 1][n..] + [s[|s| - 1]];
      n
  }

  /** The text after the last dot starts just past the dot that precedes a dot-free tail. */
  lemma {:induction false} SegmentStartAfterDot(stem: string, tail: string)
    requires '.' !in tail
    ensures SegmentStart(stem + "." + tail) == |stem| + 1
  {
    var s := stem + "." + tail;
    if tail == [] {
      assert s[|s| - 1] == '.';
    } else {
      var t := tail[..|tail| - 1];
      assert tail[|tail| - 1] in tail;
      assert s[|s| - 1] == tail[|tail| - 1];
      assert s[..|s| - 1] == stem + "." + t;
      SegmentStartAfterDot(stem, t);
    }
  }

  /** A string without a dot is one segment, starting at 0. */
  lemma {:induction false} SegmentStartNoDot(s: string)
    requires '.' !in s
    ensures SegmentStart(s) == 0
  {
    if s != [] {
      assert s[|s| - 1] in s;
      assert forall c :: c in s[..|s| - 1] ==> c in s;
      SegmentStartNoDot(s[..|s| - 1]);
    }
  }

  /** `s.split('.').pop()`: the text after the last dot, or all of `s` when it has no dot. */
  function LastSegment(s: string): (r: string)
    ensures |r| <= |s| && '.' !in r
    ensures forall k :: 0 <= k < |r| ==> r[k] == s[|s| - |r| + k]
    ensures |r| < |s| ==> s[|s| - |r| - 1] == '.'
  {
    s[SegmentStart(s)..]
  }

  /** `sub` occurs in `s` at position `i`. */
  predicate OccursAt(s: string, sub: string, i: int) {
    0 <= i <= |s| - |sub| && s[i..i + |sub|] == sub
  }

  /** `s.includes(sub)`: `sub` occurs in `s` at some position. */
  function Includes(s: string, sub: string): (r: bool)
    ensures r <==> exists i :: OccursAt(s, sub, i)
    decreases |s|
  {
    if |s| < |sub| then false
    else if s[..|sub|] == sub then assert OccursAt(s, sub, 0); true
    else
      var r := Includes(s[1..], sub);
      IncludesStep(s, sub);
      r
  }

  /** When `sub` is not a prefix of `s`, it occurs in `s` exactly when it occurs in `s[1..]`. */
  lemma IncludesStep(s: string, sub: string)
    requires |s| >= |sub| && s[..|sub|] != sub
    ensures (exists i :: OccursAt(s, sub, i)) <==> (exists i :: OccursAt(s[1..], sub, i))
  {
    if i :| OccursAt(s, sub, i) {
      assert i != 0;
      assert s[1..][i - 1..i - 1 + |sub|] == s[i..i + |sub|];
      assert OccursAt(s[1..], sub, i - 1);
    }
    if i :| OccursAt(s[1..], sub, i) {
      assert s[i + 1..i + 1 + |sub|] == s[1..][i..i + |sub|];
      assert OccursAt(s, sub, i + 1);
    }
  }

  /** `parts.join(sep)`: the parts in order with `sep` between neighbours. */
  function JoinWith(parts: seq<string>, sep: string): (r: string)
    ensures |parts| == 0 ==> r == ""
    ensures |parts| == 1 ==> r == parts[0]
    ensures |parts| > 0 ==> |r| >= |parts[0]| + (|parts| - 1) * |sep|
    ensures |parts| > 0 ==> forall k :: 0 <= k < |parts[0]| ==> r[k] == parts[0][k]
  {
    if |parts| == 0 then ""
    else if |parts| == 1 then parts[0]
    else parts[0] + sep + JoinWith(parts[1..], sep)
  }

  /** Joining a first part onto a non-empty rest puts the separator between them. */
  lemma JoinWithCons(p: string, rest: seq<string>, sep: string)
    requires |rest| > 0
    ensures JoinWith([p] + rest, sep) == p + sep + JoinWith(rest, sep)
  {
    assert ([p] + rest)[1..] == rest;
  }

  /** Joining grows at the end: one more part adds the separator and that part. */
  lemma {:induction false} JoinWithAppend(parts: seq<string>, p: string, sep: string)
    requires |parts| > 0
    ensures JoinWith(parts + [p], sep) == JoinWith(parts, sep) + sep + p
    decreases |parts|
  {
    if |parts| == 1 {
      assert (parts + [p])[1..] == [p];
    } else {
      assert (parts + [p])[1..] == parts[1..] + [p];
      JoinWithAppend(parts[1..], p, sep);
    }
  }
}
