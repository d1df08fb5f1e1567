/**
  strconv.FormatInt(v, 10): the decimal text of an integer, with a leading
  '-' for negative values and no leading zeros; and its inverse, the
  strconv.ParseInt(s, 10, _) reading of such text (bit width not modelled).
 */
module Decimal {
  import opened Wrappers
  import opened ByteStrings

  predicate IsDigit(c: byte)
  {
    '0' <= c <= '9'
  }

  function DigitChar(d: nat): (c: byte)
    requires d < 10
    ensures IsDigit(c) && DigitValue(c) == d
  {
    Chr(Ord('0') + d)
  }

  function DigitValue(c: byte): nat
    requires IsDigit(c)
  {
    Ord(c) - Ord('0')
  }

  /** The decimal digits of `n`, most significant first. */
  function FormatNat(n: nat): (r: Bytes)
    ensures |r| >= 1
    ensures forall i :: 0 <= i < |r| ==> IsDigit(r[i])
    ensures n > 0 ==> r[0] != '0'
  {
    if n < 10 then [DigitChar(n)] else FormatNat(n / 10) + [DigitChar(n % 10)]
  }

  function Pow10(k: nat): (p: nat)
    ensures p >= 1
  {
    if k == 0 then 1 else 10 * Pow10(k - 1)
  }

  /** Multiplying by a power of ten appends that many '0' digits. */
  lemma {:induction false} FormatNatTimesPow10(a: nat, k: nat)
    requires a > 0
    ensures FormatNat(a * Pow10(k)) == FormatNat(a) + seq(k, _ => '0')
  {
    if k > 0 {
      var b := a * Pow10(k - 1);
      assert a * Pow10(k) == b * 10;
      FormatNatTimesPow10(a, k - 1);
      assert FormatNat(b * 10) == FormatNat(b) + [DigitChar(0)];
      assert seq(k - 1, _ => '0') + ['0'] == seq(k, _ => '0');
    }
  }

  function FormatInt(n: int): (r: Bytes)
  {
    if n < 0 then "-" + FormatNat(-n) else FormatNat(n)
  }

  /** The value of a non-empty run of digits. */
  function ParseDigits(s: Bytes): (r: Option<nat>)
    ensures r.Some? <==> (|s| >= 1 && forall i :: 0 <= i < |s| ==> IsDigit(s[i]))
  {
    if s == [] then None
    else if !IsDigit(s[|s| - 1]) then None
    else if |s| == 1 then Some(DigitValue(s[0]))
    else
      match ParseDigits(s[..|s| - 1])
      case None => None
      case Some(high) => Some(high * 10 + DigitValue(s[|s| - 1]))
  }

  function ParseInt(s: Bytes): (r: Option<int>)
  {
    if |s| >= 1 && s[0] == '-' then
      match ParseDigits(s[1..])
      case None => None
      case Some(m) => Some(0 - m as int)
    else
      match ParseDigits(s)
      case None => None
      case Some(m) => Some(m)
  }

  lemma {:induction false} ParseFormatNat(n: nat)
    ensures ParseDigits(FormatNat(n)) == Some(n)
  {
    if n >= 10 {
      var r := FormatNat(n);
      assert r[..|r| - 1] == FormatNat(n / 10);
      ParseFormatNat(n / 10);
    }
  }

  /** Reading back the decimal text of an integer gives the integer. */
  lemma FormatIntRoundTrip(n: int)
    ensures ParseInt(FormatInt(n)) == Some(n)
  {
    var text := FormatInt(n);
    if n < 0 {
      assert text[0] == '-' && text[1..] == FormatNat(-n);
      ParseFormatNat(-n);
    } else {
      assert IsDigit(text[0]);
      ParseFormatNat(n);
    }
  }
}
