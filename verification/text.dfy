/**
 String helpers shared by the model: JavaScript's `Array.prototype.join`,
 decimal rendering of integers, the `\w` character class and ASCII
 lower-casing. Strings are `seq<char>`; no Unicode case folding is modelled.
 */
module Text {

  /** The regular-expression class `\w`: ASCII letters, digits and underscore. */
  predicate IsWordChar(c: char) {
    ('a' <= c <= 'z') || ('A' <= c <= 'Z') || ('0' <= c <= '9') || c == '_'
  }

  predicate IsDigit(c: char) {
    '0' <= c <= '9'
  }

  predicate StartsWith(s: string, prefix: string) {
    |prefix| <= |s| && s[..|prefix|] == prefix
  }

  /** `parts.join(sep)` for an array of strings. */
  function Join(parts: seq<string>, sep: string): string
    decreases |parts|
  {
    if |parts| == 0 then ""
    else if |parts| == 1 then parts[0]
    else Join(parts[..|parts| - 1], sep) + sep + parts[|parts| - 1]
  }

  lemma {:induction false} JoinCons(x: string, rest: seq<string>, sep: string)
    requires |rest| > 0
    ensures Join([x] + rest, sep) == x + sep + Join(rest, sep)
    decreases |rest|
  {
    var xs := [x] + rest;
    var n := |rest|;
    assert xs[|xs| - 1] == rest[n - 1];
    if n == 1 {
      assert xs[..|xs| - 1] == [x];
      assert Join(xs, sep) == Join([x], sep) + sep + rest[0];
      assert Join(rest, sep) == rest[0];
    } else {
      var front := rest[..n - 1];
      assert xs[..|xs| - 1] == [x] + front;
      JoinCons(x, front, sep);
      var j := Join(front, sep);
      assert Join(xs, sep) == (x + sep + j) + sep + rest[n - 1];
      assert Join(rest, sep) == j + sep + rest[n - 1];
      assert (x + sep + j) + sep + rest[n - 1] == x + sep + (j + sep + rest[n - 1]);
    }
  }

  function DigitChar(d: nat): char
    requires d < 10
  {
    "0123456789"[d]
  }

  /** Decimal rendering of a natural number, as `String(n)` gives it. */
  function NatToString(n: nat): (r: string)
    ensures |r| > 0
    ensures forall i :: 0 <= i < |r| ==> IsDigit(r[i])
    decreases n
  {
    if n < 10 then [DigitChar(n)] else NatToString(n / 10) + [DigitChar(n % 10)]
  }

  function DigitValue(c: char): nat
    requires IsDigit(c)
  {
    c as int - '0' as int
  }

  predicate AllDigits(s: string) {
    forall i :: 0 <= i < |s| ==> IsDigit(s[i])
  }

  /** The number a string of decimal digits denotes. */
  function DigitsValue(s: string): nat
    requires AllDigits(s)
    decreases |s|
  {
    if |s| == 0 then 0 else DigitsValue(s[..|s| - 1]) * 10 + DigitValue(s[|s| - 1])
  }

  /** Reading back the decimal rendering of a number gives the number. */
  lemma {:induction false} DigitsValueOfNatToString(n: nat)
    ensures DigitsValue(NatToString(n)) == n
    decreases n
  {
    var s := NatToString(n);
    if n < 10 {
      assert DigitValue(DigitChar(n)) == n;
    } else {
      DigitsValueOfNatToString(n / 10);
      assert s[..|s| - 1] == NatToString(n / 10);
      assert DigitValue(DigitChar(n % 10)) == n % 10;
    }
  }

  /** Decimal rendering of an integer, with a leading '-' when negative. */
  function IntToString(i: int): string {
    if i < 0 then "-" + NatToString(-i) else NatToString(i)
  }

  /** `String.prototype.toLowerCase` restricted to ASCII letters. */
  function ToLower(s: string): (r: string)
    ensures |r| == |s|
  {
    seq(|s|, i requires 0 <= i < |s| => if 'A' <= s[i] <= 'Z' then (s[i] as int + 32) as char else s[i])
  }

  /** The length of the run of word characters at the start of `s`. */
  function WordLength(s: string): (n: nat)
    ensures n <= |s|
    ensures forall i :: 0 <= i < n ==> IsWordChar(s[i])
    ensures n < |s| ==> !IsWordChar(s[n])
  {
    if |s| == 0 || !IsWordChar(s[0]) then 0 else 1 + WordLength(s[1..])
  }

  /** Index of the first occurrence of `c` in `s`, or |s| when there is none. */
  function IndexOfChar(s: string, c: char): (k: nat)
    ensures k <= |s|
    ensures k < |s| ==> s[k] == c
    ensures forall j :: 0 <= j < k ==> s[j] != c
    decreases |s|
  {
    if |s| == 0 then 0
    else if s[0] == c then 0
    else 1 + IndexOfChar(s[1..], c)
  }

  /** `s.split(sep)` for a one-character separator. */
  function Split(s: string, c: char): (parts: seq<string>)
    ensures |parts| > 0
    ensures forall i :: 0 <= i < |parts| ==> c !in parts[i]
    decreases |s|
  {
    var k := IndexOfChar(s, c);
    if k == |s| then [s] else [s[..k]] + Split(s[k + 1..], c)
  }

  /** Splitting at a character and joining back with it gives the original string. */
  lemma {:induction false} SplitJoin(s: string, c: char)
    ensures Join(Split(s, c), [c]) == s
    decreases |s|
  {
    var k := IndexOfChar(s, c);
    if k < |s| {
      var tail := s[k + 1..];
      var rest := Split(tail, c);
      assert Split(s, c) == [s[..k]] + rest;
      SplitJoin(tail, c);
      JoinCons(s[..k], rest, [c]);
      calc {
        Join(Split(s, c), [c]);
        s[..k] + [c] + Join(rest, [c]);
        s[..k] + [c] + tail;
        { assert s == s[..k] + [s[k]] + tail; }
        s;
      }
    } else {
      assert Split(s, c) == [s];
    }
  }

  /** Joining parts that do not contain the separator and splitting again gives the parts back. */
  lemma {:induction false} JoinSplit(parts: seq<string>, c: char)
    requires |parts| > 0
    requires forall i :: 0 <= i < |parts| ==> c !in parts[i]
    ensures Split(Join(parts, [c]), c) == parts
    decreases |parts|
  {
    if |parts| == 1 {
      assert IndexOfChar(parts[0], c) == |parts[0]|;
    } else {
      var x := parts[0];
      var rest := parts[1..];
      assert parts == [x] + rest;
      JoinCons(x, rest, [c]);
      var s := x + [c] + Join(rest, [c]);
      JoinSplit(rest, c);
      assert IndexOfChar(x, c) == |x|;
      var tail := [c] + Join(rest, [c]);
      assert s == x + tail;
      IndexOfCharAppend(x, tail, c);
      assert IndexOfChar(tail, c) == 0;
      assert IndexOfChar(s, c) == |x|;
      assert s[|x| + 1..] == Join(rest, [c]);
      assert s[..|x|] == x;
      assert Split(s, c) == [x] + Split(Join(rest, [c]), c);
    }
  }

  lemma {:induction false} IndexOfCharAppend(x: string, y: string, c: char)
    requires c !in x
    ensures IndexOfChar(x + y, c) == |x| + IndexOfChar(y, c)
    decreases |x|
  {
    if |x| > 0 {
      assert (x + y)[1..] == x[1..] + y;
      IndexOfCharAppend(x[1..], y, c);
    } else {
      assert x + y == y;
    }
  }
}
