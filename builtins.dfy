/**
 * The few JavaScript built-ins the update-expression compiler relies on:
 * `Number.prototype.toString()` on a non-negative integer,
 * `Array.prototype.join(separator)` over strings and
 * `Array.prototype.reduce(callback, initial)`.
 */
module Builtins {

  predicate IsDigit(c: char) {
    '0' <= c <= '9'
  }

  predicate AllDigits(s: string) {
    forall k :: 0 <= k < |s| ==> IsDigit(s[k])
  }

  function DigitChar(d: nat): (c: char)
    requires d < 10
    ensures IsDigit(c) && DigitValue(c) == d
  {
    ('0' as int + d) as char
  }

  function DigitValue(c: char): (d: nat)
    requires IsDigit(c)
    ensures d < 10
  {
    c as int - '0' as int
  }

  /** The number a string of decimal digits denotes, most significant digit first. */
  function DecimalValue(s: string): nat
    requires AllDigits(s)
  {
    if s == [] then 0 else 10 * DecimalValue(s[..|s| - 1]) + DigitValue(s[|s| - 1])
  }

  /**
   * `n.toString()` for a non-negative integer `n`: a non-empty string of
   * decimal digits that denotes `n` and has no leading zero.
   */
  function DecimalString(n: nat): (s: string)
    ensures |s| >= 1 && AllDigits(s)
    ensures DecimalValue(s) == n
    ensures s[0] == '0' ==> s == "0"
    ensures n < 10 <==> |s| == 1
    decreases n
  {
    if n < 10 then
      [DigitChar(n)]
    else
      var prefix := DecimalString(n / 10);
      var s := prefix + [DigitChar(n % 10)];
      assert s[..|s| - 1] == prefix;
      s
  }

  /** `parts.join(sep)`: the parts in order with `sep` between neighbours. */
  function Join(parts: seq<string>, sep: string): string
  {
    if |parts| == 0 then ""
    else if |parts| == 1 then parts[0]
    else parts[0] + sep + Join(parts[1..], sep)
  }

  /**
   * Joining one-character strings with a one-character separator puts the
   * k-th part at position 2k and the separator at every odd position.
   */
  lemma {:induction false} JoinOfLetters(parts: seq<string>, sep: char)
    requires |parts| >= 1
    requires forall k :: 0 <= k < |parts| ==> |parts[k]| == 1
    ensures |Join(parts, [sep])| == 2 * |parts| - 1
    ensures forall j :: 0 <= j < |Join(parts, [sep])| ==>
              Join(parts, [sep])[j] == if j % 2 == 0 then parts[j / 2][0] else sep
  {
    if |parts| > 1 {
      var rest := parts[1..];
      JoinOfLetters(rest, sep);
      var r := Join(parts, [sep]);
      assert r == parts[0] + [sep] + Join(rest, [sep]);
      forall j | 2 <= j < |r|
        ensures r[j] == if j % 2 == 0 then parts[j / 2][0] else sep
      {
        assert r[j] == Join(rest, [sep])[j - 2];
        assert (j - 2) % 2 == j % 2 && (j - 2) / 2 == j / 2 - 1;
      }
    }
  }

  /** `s.reduce(f, init)`: a left fold over `s` in index order. */
  function Reduce<A, B>(s: seq<B>, f: (A, B) -> A, init: A): A
    decreases |s|
  {
    if s == [] then init else f(Reduce(s[..|s| - 1], f, init), s[|s| - 1])
  }
}
