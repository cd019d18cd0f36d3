/** Decimal printing of integers, as `to_string` prints an `i32` constant or a
    `usize` parameter index, together with a reader that inverts it. */
module Decimal {
  import opened Wrappers

  predicate IsDigit(c: char)
  {
    '0' <= c <= '9'
  }

  function DigitChar(d: nat): (c: char)
    requires d < 10
    ensures IsDigit(c) && c as int - '0' as int == d
  {
    (d + '0' as int) as char
  }

  function DigitValue(c: char): (d: nat)
    requires IsDigit(c)
    ensures d < 10 && DigitChar(d) == c
  {
    c as int - '0' as int
  }

  /** The decimal digits of `n`, most significant first, without leading zeros. */
  function NatToString(n: nat): (s: string)
    ensures |s| > 0
    ensures forall i :: 0 <= i < |s| ==> IsDigit(s[i])
    ensures |s| > 1 ==> s[0] != '0'
    decreases n
  {
    if n < 10 then [DigitChar(n)] else NatToString(n / 10) + [DigitChar(n % 10)]
  }

  /** The decimal text of a signed integer: a '-' for negative values, then the digits of its magnitude. */
  function IntToString(v: int): (s: string)
    ensures |s| > 0
    ensures s[0] == '-' <==> v < 0
    ensures forall i :: (if v < 0 then 1 else 0) <= i < |s| ==> IsDigit(s[i])
  {
    if v < 0 then "-" + NatToString(-v) else NatToString(v)
  }

  /** The number a string of digits denotes. */
  function DigitsValue(d: string): nat
    requires forall i :: 0 <= i < |d| ==> IsDigit(d[i])
  {
    if |d| == 0 then 0 else DigitsValue(d[..|d| - 1]) * 10 + DigitValue(d[|d| - 1])
  }

  /** The end of the run of digits that starts at position `i` of `s`. */
  function DigitRunEnd(s: string, i: nat): (e: nat)
    requires i <= |s|
    ensures i <= e <= |s|
    ensures forall k :: i <= k < e ==> IsDigit(s[k])
    ensures e < |s| ==> !IsDigit(s[e])
    decreases |s| - i
  {
    if i < |s| && IsDigit(s[i]) then DigitRunEnd(s, i + 1) else i
  }

  /** Reads the longest run of digits at the front of `s`; fails when there is none. */
  function ReadNat(s: string): (r: Option<(nat, string)>)
    ensures r.Some? ==> |r.value.1| < |s|
  {
    var e := DigitRunEnd(s, 0);
    if e == 0 then None else Some((DigitsValue(s[..e]), s[e..]))
  }

  /** Reads an optionally negated run of digits at the front of `s`. */
  function ReadInt(s: string): (r: Option<(int, string)>)
    ensures r.Some? ==> |r.value.1| < |s|
  {
    if |s| > 0 && s[0] == '-' then
      match ReadNat(s[1..])
      case None => None
      case Some((n, rest)) => Some((-(n as int), rest))
    else
      match ReadNat(s)
      case None => None
      case Some((n, rest)) => Some((n, rest))
  }

  lemma {:induction false} DigitsValueOfNatToString(n: nat)
    ensures DigitsValue(NatToString(n)) == n
    decreases n
  {
    var s := NatToString(n);
    if n >= 10 {
      assert s[..|s| - 1] == NatToString(n / 10);
      DigitsValueOfNatToString(n / 10);
    }
  }

  lemma {:induction false} DigitRunEndOfDigits(d: string, rest: string, i: nat)
    requires i <= |d|
    requires forall k :: 0 <= k < |d| ==> IsDigit(d[k])
    requires rest == [] || !IsDigit(rest[0])
    ensures DigitRunEnd(d + rest, i) == |d|
    decreases |d| - i
  {
    if i < |d| {
      assert (d + rest)[i] == d[i];
      DigitRunEndOfDigits(d, rest, i + 1);
    } else if rest != [] {
      assert (d + rest)[i] == rest[0];
    }
  }

  /** Reading back the digits of `n` yields `n`, and the reader stops exactly where they end. */
  lemma ReadNatRoundTrip(n: nat, rest: string)
    requires rest == [] || !IsDigit(rest[0])
    ensures ReadNat(NatToString(n) + rest) == Some((n, rest))
  {
    var d := NatToString(n);
    DigitRunEndOfDigits(d, rest, 0);
    assert (d + rest)[..|d|] == d;
    assert (d + rest)[|d|..] == rest;
    DigitsValueOfNatToString(n);
  }

  /** Reading back the decimal text of `v` yields `v`: distinct integers print differently. */
  lemma ReadIntRoundTrip(v: int, rest: string)
    requires rest == [] || !IsDigit(rest[0])
    ensures ReadInt(IntToString(v) + rest) == Some((v, rest))
  {
    var s := IntToString(v) + rest;
    if v < 0 {
      var d := NatToString(-v);
      assert s == "-" + (d + rest);
      assert s[0] == '-' && s[1..] == d + rest;
      ReadNatRoundTrip(-v, rest);
      assert ReadNat(s[1..]) == Some((-v, rest));
    } else {
      var d := NatToString(v);
      assert s == d + rest && s[0] == d[0] && IsDigit(d[0]);
      ReadNatRoundTrip(v, rest);
      assert ReadNat(s) == Some((v, rest));
    }
  }
}
