/**
 * The small part of Python's run-time behaviour the dashboard relies on:
 * list indexing (negative indices count from the end), `list.index`,
 * `round` (ties to even), `int()` on a float (truncation toward zero),
 * `str()` of an integer, the `"{:02}"` format and `str.join`.
 */
module Builtins {

  datatype Option<+T> = None | Some(value: T)

  /** The exceptions the modelled code can raise on data it is given. */
  datatype Error = IndexError | KeyError(key: string)

  datatype Result<+T> = Ok(value: T) | Err(error: Error)

  // ---------------------------------------------------------------------
  // Sequences

  /** `s[i]` on a Python list: `-|s| <= i < |s|` is in range, and a
      negative index counts from the end. */
  function PyIndex<T>(s: seq<T>, i: int): (r: Result<T>)
    ensures r.Ok? <==> -|s| <= i < |s|
    ensures r.Err? ==> r.error == IndexError
  {
    if 0 <= i < |s| then Ok(s[i])
    else if -|s| <= i < 0 then Ok(s[|s| + i])
    else Err(IndexError)
  }

  /** An index in range selects the element at that index taken modulo the
      length, so `-1` is the last element. */
  lemma PyIndexModulo<T>(s: seq<T>, i: int)
    requires -|s| <= i < |s|
    ensures PyIndex(s, i) == Ok(s[i % |s|])
  {
    if i < 0 {
      assert (|s| + i) % |s| == i % |s|;
    }
  }

  /** `s.index(x)`: the position of the first occurrence of `x`, or `None`
      where Python raises `ValueError`. */
  function IndexOf<T(==)>(s: seq<T>, x: T): (r: Option<nat>)
    ensures r.None? <==> x !in s
    ensures r.Some? ==> r.value < |s| && s[r.value] == x && x !in s[..r.value]
  {
    if s == [] then None
    else if s[0] == x then Some(0)
    else match IndexOf(s[1..], x)
      case None => None
      case Some(k) =>
        assert s[1..][..k] == s[1..k + 1];
        Some(k + 1)
  }

  /** Past a first element other than `x`, the first occurrence of `x`
      is one further on. */
  lemma IndexOfPast<T>(s: seq<T>, x: T)
    requires x in s && s[0] != x
    ensures x in s[1..] && IndexOf(s, x).value == IndexOf(s[1..], x).value + 1
  {
  }

  ghost predicate Distinct<T>(s: seq<T>) {
    forall i, j :: 0 <= i < j < |s| ==> s[i] != s[j]
  }

  /** In a sequence without repetitions, `index` inverts indexing. */
  lemma IndexOfDistinct<T>(s: seq<T>, k: nat)
    requires Distinct(s) && k < |s|
    ensures IndexOf(s, s[k]) == Some(k)
  {
  }

  /** `sep.join(parts)`. */
  function Join(sep: string, parts: seq<string>): (r: string)
    ensures parts == [] ==> r == []
    ensures |r| == SumLengths(parts) + (if parts == [] then 0 else (|parts| - 1) * |sep|)
    ensures parts != [] ==> |parts[0]| <= |r| && r[..|parts[0]|] == parts[0]
  {
    if parts == [] then ""
    else if |parts| == 1 then parts[0]
    else parts[0] + sep + Join(sep, parts[1..])
  }

  function SumLengths(parts: seq<string>): nat {
    if parts == [] then 0 else |parts[0]| + SumLengths(parts[1..])
  }

  // ---------------------------------------------------------------------
  // Numbers

  /** Python's `round(x)`: the nearest integer, a tie going to the even
      neighbour. */
  function RoundHalfEven(x: real): (r: int)
    ensures x - 0.5 <= r as real <= x + 0.5
    ensures (r as real == x - 0.5 || r as real == x + 0.5) ==> r % 2 == 0
  {
    var f := x.Floor;
    var d := x - f as real;
    if d < 0.5 then f
    else if d > 0.5 then f + 1
    else if f % 2 == 0 then f
    else f + 1
  }

  /** The two properties of `RoundHalfEven` determine it: an integer
      strictly within one half of `x` is its rounding. */
  lemma RoundNearest(x: real, n: int)
    requires x - 0.5 < n as real < x + 0.5
    ensures RoundHalfEven(x) == n
  {
  }

  /** ... and so does an integer exactly one half away that is even. */
  lemma RoundTie(x: real, n: int)
    requires (n as real == x - 0.5 || n as real == x + 0.5) && n % 2 == 0
    ensures RoundHalfEven(x) == n
  {
  }

  lemma RoundMonotone(x: real, y: real)
    requires x <= y
    ensures RoundHalfEven(x) <= RoundHalfEven(y)
  {
  }

  /** Shifting by an even integer shifts the rounding by the same amount. */
  lemma RoundShiftEven(x: real, n: int)
    requires n % 2 == 0
    ensures RoundHalfEven(x + n as real) == RoundHalfEven(x) + n
  {
    var r := RoundHalfEven(x);
    var y := x + n as real;
    if (r + n) as real == y - 0.5 || (r + n) as real == y + 0.5 {
      assert r % 2 == 0;
      RoundTie(y, r + n);
    } else {
      RoundNearest(y, r + n);
    }
  }

  /** `int(x)` on a float: truncation toward zero. */
  function Trunc(x: real): (r: int)
    ensures 0.0 <= x ==> 0 <= r && r as real <= x < r as real + 1.0
    ensures x < 0.0 ==> r <= 0 && r as real - 1.0 < x <= r as real
  {
    if x >= 0.0 then x.Floor else -((-x).Floor)
  }

  // ---------------------------------------------------------------------
  // Decimal text

  predicate IsDigit(c: char) { '0' <= c <= '9' }

  function DigitChar(d: nat): (c: char)
    requires d < 10
    ensures IsDigit(c)
  {
    "0123456789"[d]
  }

  /** `str(n)` for a natural number: decimal digits, no leading zero. */
  function NatString(n: nat): (r: string)
    ensures |r| >= 1
    ensures forall i :: 0 <= i < |r| ==> IsDigit(r[i])
    ensures n < 10 <==> |r| == 1
    decreases n
  {
    if n < 10 then [DigitChar(n)] else NatString(n / 10) + [DigitChar(n % 10)]
  }

  /** The value of a string of decimal digits; the inverse of `NatString`. */
  function DigitsValue(s: string): nat
    requires forall i :: 0 <= i < |s| ==> IsDigit(s[i])
  {
    if s == [] then 0
    else
      assert IsDigit(s[|s| - 1]);
      10 * DigitsValue(s[..|s| - 1]) + (s[|s| - 1] as int - '0' as int)
  }

  lemma {:induction false} NatStringRoundTrip(n: nat)
    ensures DigitsValue(NatString(n)) == n
    decreases n
  {
    var s := NatString(n);
    if n >= 10 {
      NatStringRoundTrip(n / 10);
      assert s[..|s| - 1] == NatString(n / 10);
    }
  }

  /** `str(n)` for any integer. */
  function IntString(n: int): string {
    if n < 0 then "-" + NatString(-n) else NatString(n)
  }

  /** Different integers print differently. */
  lemma IntStringInjective(a: int, b: int)
    requires IntString(a) == IntString(b)
    ensures a == b
  {
    var s := IntString(a);
    assert s[0] == '-' <==> a < 0;
    assert IntString(b)[0] == '-' <==> b < 0;
    if a < 0 {
      assert s[1..] == NatString(-a);
      assert IntString(b)[1..] == NatString(-b);
      NatStringInjective(-a, -b);
    } else {
      assert 0 <= b;
      NatStringInjective(a, b);
    }
  }

  lemma NatStringInjective(a: nat, b: nat)
    requires NatString(a) == NatString(b)
    ensures a == b
  {
    NatStringRoundTrip(a);
    NatStringRoundTrip(b);
  }

  /** `"{:02}".format(n)` for a natural number: at least two digits,
      zero-padded on the left. */
  function Pad2(n: nat): (r: string)
    ensures |r| >= 2
    ensures forall i :: 0 <= i < |r| ==> IsDigit(r[i])
    ensures n < 100 ==> |r| == 2 && DigitsValue(r) == n
  {
    NatStringRoundTrip(n);
    if n < 10 then
      var r := "0" + NatString(n);
      assert r[..1] == "0";
      r
    else
      NatString(n)
  }
}
