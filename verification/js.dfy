/** The few pieces of JavaScript value and string semantics the routes and
    pages depend on: truthiness, `||` defaulting, template interpolation of
    `undefined`, `replace(/\/$/, "")`, `includes`, `toLowerCase` and `split`. */
module Js {
  import opened Results

  /** `!!v` for a value that is `undefined`/`null` (None) or a string: the
      empty string is falsy like the absent value. */
  predicate Truthy(v: Option<string>) {
    v.Some? && v.value != ""
  }

  /** `v || fallback` for an optional string. */
  function Or(v: Option<string>, fallback: string): string {
    if Truthy(v) then v.value else fallback
  }

  /** `${v}` inside a template literal: an absent value prints as "undefined". */
  function Interpolate(v: Option<string>): string {
    if v.Some? then v.value else "undefined"
  }

  predicate EndsWithSlash(s: string) {
    |s| > 0 && s[|s| - 1] == '/'
  }

  /** `s.replace(/\/$/, "")`: the pattern has no `g` or `m` flag, so at most
      the one `/` that ends the string is removed. */
  function StripTrailingSlash(s: string): (r: string)
    ensures r <= s
    ensures |s| - 1 <= |r|
    ensures r == s <==> !EndsWithSlash(s)
  {
    if EndsWithSlash(s) then s[..|s| - 1] else s
  }

  predicate StartsWith(s: string, prefix: string) {
    |prefix| <= |s| && s[..|prefix|] == prefix
  }

  /** `s.includes(sub)`: `sub` occurs somewhere in `s`. */
  predicate Contains(s: string, sub: string) {
    exists i | 0 <= i <= |s| - |sub| :: OccursAt(s, sub, i)
  }

  /** `sub` occurs in `s` starting at index `i`. */
  predicate OccursAt(s: string, sub: string, i: int) {
    0 <= i && i + |sub| <= |s| && s[i..i + |sub|] == sub
  }

  /** A string cannot contain a piece with a character the string lacks. */
  lemma AbsentChar(s: string, sub: string, c: char)
    requires c in sub && c !in s
    ensures !Contains(s, sub)
  {
    forall i | 0 <= i <= |s| - |sub|
      ensures !OccursAt(s, sub, i)
    {
      var j :| 0 <= j < |sub| && sub[j] == c;
      assert s[i..i + |sub|][j] == s[i + j];
    }
  }

  /** An occurrence at a known index is a containment. */
  lemma OccursContains(s: string, sub: string, i: int)
    requires OccursAt(s, sub, i)
    ensures Contains(s, sub)
  {
  }

  /** Containment in a string with a known first character: at the front,
      or in the rest. */
  lemma ContainsCons(c: char, rest: string, sub: string)
    ensures Contains([c] + rest, sub) <==> StartsWith([c] + rest, sub) || Contains(rest, sub)
  {
    var s := [c] + rest;
    if StartsWith(s, sub) {
      assert OccursAt(s, sub, 0);
    }
    if Contains(s, sub) && !StartsWith(s, sub) {
      var i :| 0 <= i <= |s| - |sub| && OccursAt(s, sub, i);
      assert s[i..i + |sub|] == rest[i - 1..i - 1 + |sub|];
      assert OccursAt(rest, sub, i - 1);
    }
    if Contains(rest, sub) {
      var i :| 0 <= i <= |rest| - |sub| && OccursAt(rest, sub, i);
      assert s[i + 1..i + 1 + |sub|] == rest[i..i + |sub|];
      assert OccursAt(s, sub, i + 1);
    }
  }

  /** `toLowerCase` on one character, for the ASCII letters. */
  function LowerChar(c: char): char {
    if 'A' <= c <= 'Z' then (c as int + 32) as char else c
  }

  /** `toUpperCase` on one character, for the ASCII letters. */
  function UpperChar(c: char): char {
    if 'a' <= c <= 'z' then (c as int - 32) as char else c
  }

  function ToLower(s: string): (r: string)
    ensures |r| == |s|
  {
    seq(|s|, i requires 0 <= i < |s| => LowerChar(s[i]))
  }

  function ToUpper(s: string): (r: string)
    ensures |r| == |s|
  {
    seq(|s|, i requires 0 <= i < |s| => UpperChar(s[i]))
  }

  /** Lower-casing loses nothing further when repeated, and upper-casing first
      makes no difference: the two strings differ only in ASCII letter case. */
  lemma LowerOfCaseVariants(s: string)
    ensures ToLower(ToLower(s)) == ToLower(s)
    ensures ToLower(ToUpper(s)) == ToLower(s)
  {
  }

  /** `s.split(sep)` for a one-character separator: the pieces between
      separators, in order; a string without `sep` splits into itself. */
  function Split(s: string, sep: char): (parts: seq<string>)
    ensures |parts| >= 1
    decreases |s|
  {
    if |s| == 0 then [""]
    else
      var rest := Split(s[1..], sep);
      if s[0] == sep then [""] + rest
      else [[s[0]] + rest[0]] + rest[1..]
  }

  /** A prefix free of the separator is glued onto the first piece. */
  lemma {:induction false} SplitPrefix(a: string, t: string, sep: char)
    requires sep !in a
    ensures Split(a + t, sep) == [a + Split(t, sep)[0]] + Split(t, sep)[1..]
    decreases |a|
  {
    var parts := Split(t, sep);
    if |a| == 0 {
      assert a + t == t && a + parts[0] == parts[0];
      assert parts == [parts[0]] + parts[1..];
    } else {
      var s := a + t;
      assert s[0] == a[0] != sep;
      assert s[1..] == a[1..] + t;
      SplitPrefix(a[1..], t, sep);
      var rest := Split(s[1..], sep);
      assert rest[0] == a[1..] + parts[0] && rest[1..] == parts[1..];
      assert [s[0]] + rest[0] == a + parts[0] by {
        assert [a[0]] + a[1..] == a;
      }
    }
  }

  /** Joining two separator-free strings with one separator and splitting
      again gives back exactly the two strings. */
  lemma SplitTwo(a: string, b: string, sep: char)
    requires sep !in a && sep !in b
    ensures Split(a + [sep] + b, sep) == [a, b]
  {
    var tail := [sep] + b;
    assert a + [sep] + b == a + tail;
    SplitPrefix(b, "", sep);
    assert b + "" == b;
    assert Split("", sep) == [""];
    assert Split(b, sep) == [b];
    assert tail[0] == sep && tail[1..] == b;
    assert Split(tail, sep) == ["", b];
    SplitPrefix(a, tail, sep);
    assert a + "" == a;
  }

  predicate IsDigit(c: char) {
    '0' <= c <= '9'
  }

  /** The number a string of decimal digits stands for. */
  function DigitsValue(s: string): nat
    requires forall i :: 0 <= i < |s| ==> IsDigit(s[i])
  {
    if |s| == 0 then 0
    else
      assert IsDigit(s[|s| - 1]);
      DigitsValue(s[..|s| - 1]) * 10 + (s[|s| - 1] as int - '0' as int)
  }

  /** `${n}` for a non-negative integer: its decimal digits, without
      leading zeros, which read back as `n`. */
  function DecimalText(n: nat): (s: string)
    ensures 1 <= |s| && (|s| > 1 ==> s[0] != '0')
    ensures forall i :: 0 <= i < |s| ==> IsDigit(s[i])
    ensures DigitsValue(s) == n
    decreases n
  {
    var last := ('0' as int + n % 10) as char;
    if n < 10 then [last]
    else
      var front := DecimalText(n / 10);
      assert (front + [last])[..|front|] == front;
      front + [last]
  }
}
