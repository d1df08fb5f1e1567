/**
  base64.StdEncoding: the standard alphabet with '=' padding of section 4
  of RFC 4648, and a decoder for its output.
 */
module Base64 {
  import opened Wrappers
  import opened ByteStrings

  /** The symbol for a 6-bit value: A-Z, a-z, 0-9, '+', '/'. */
  function Symbol(n: nat): (c: byte)
    requires n < 64
    ensures IsSymbol(c) && SymbolValue(c) == n
  {
    if n < 26 then Chr(Ord('A') + n)
    else if n < 52 then Chr(Ord('a') + n - 26)
    else if n < 62 then Chr(Ord('0') + n - 52)
    else if n == 62 then '+'
    else '/'
  }

  predicate IsSymbol(c: byte)
  {
    ('A' <= c <= 'Z') || ('a' <= c <= 'z') || ('0' <= c <= '9') || c == '+' || c == '/'
  }

  function SymbolValue(c: byte): (n: nat)
    requires IsSymbol(c)
    ensures n < 64
  {
    if 'A' <= c <= 'Z' then Ord(c) - Ord('A')
    else if 'a' <= c <= 'z' then Ord(c) - Ord('a') + 26
    else if '0' <= c <= '9' then Ord(c) - Ord('0') + 52
    else if c == '+' then 62
    else 63
  }

  /** Encoded text holds alphabet symbols and padding only. */
  predicate IsEncodedChar(c: byte)
  {
    IsSymbol(c) || c == '='
  }

  /** The 4 symbols for 1, 2 or 3 input bytes, padded with '='. */
  function EncodeGroup(g: Bytes): (r: Bytes)
    requires 1 <= |g| <= 3
    ensures |r| == 4
    ensures forall i :: 0 <= i < 4 ==> IsEncodedChar(r[i])
  {
    var x := Ord(g[0]);
    var y := if |g| > 1 then Ord(g[1]) else 0;
    var z := if |g| > 2 then Ord(g[2]) else 0;
    var c0, c1 := Symbol(x / 4), Symbol((x % 4) * 16 + y / 16);
    var c2 := if |g| > 1 then Symbol((y % 16) * 4 + z / 64) else '=';
    var c3 := if |g| > 2 then Symbol(z % 64) else '=';
    [c0, c1, c2, c3]
  }

  /**
    Every 3 input bytes give 4 symbols; a final 1 or 2 bytes give 2 or 3
    symbols followed by "==" or "=".
   */
  function Encode(b: Bytes): (r: Bytes)
    ensures |r| == 4 * ((|b| + 2) / 3)
    ensures forall i :: 0 <= i < |r| ==> IsEncodedChar(r[i])
  {
    if b == [] then []
    else if |b| <= 3 then EncodeGroup(b)
    else EncodeGroup(b[..3]) + Encode(b[3..])
  }

  /** One group of 4 symbols; padding is allowed only in the last group. */
  function DecodeGroup(g: Bytes, last: bool): Option<Bytes>
    requires |g| == 4
  {
    if !IsSymbol(g[0]) || !IsSymbol(g[1]) then None
    else
      var c0, c1 := SymbolValue(g[0]), SymbolValue(g[1]);
      var x := c0 * 4 + c1 / 16;
      if last && g[2] == '=' && g[3] == '=' then Some([Chr(x)])
      else if !IsSymbol(g[2]) then None
      else
        var c2 := SymbolValue(g[2]);
        var y := (c1 % 16) * 16 + c2 / 4;
        if last && g[3] == '=' then Some([Chr(x), Chr(y)])
        else if !IsSymbol(g[3]) then None
        else
          var c3 := SymbolValue(g[3]);
          Some([Chr(x), Chr(y), Chr((c2 % 4) * 64 + c3)])
  }

  function Decode(s: Bytes): Option<Bytes>
  {
    if s == [] then Some([])
    else if |s| < 4 then None
    else
      match DecodeGroup(s[..4], |s| == 4)
      case None => None
      case Some(head) =>
        match Decode(s[4..])
        case None => None
        case Some(tail) => Some(head + tail)
  }

  lemma GroupRoundTrip(g: Bytes, last: bool)
    requires 1 <= |g| <= 3
    requires |g| < 3 ==> last
    ensures DecodeGroup(EncodeGroup(g), last) == Some(g)
  {
    if |g| == 1 {
      OneByteRoundTrip(g);
    } else if |g| == 2 {
      TwoBytesRoundTrip(g);
    } else {
      ThreeBytesRoundTrip(g, last);
    }
  }

  /** The 6-bit pieces of three bytes put back together give the bytes. */
  lemma SplitBits(x: nat, y: nat, z: nat)
    requires x < 256 && y < 256 && z < 256
    ensures (x / 4) * 4 + ((x % 4) * 16 + y / 16) / 16 == x
    ensures (((x % 4) * 16 + y / 16) % 16) * 16 + ((y % 16) * 4 + z / 64) / 4 == y
    ensures (((y % 16) * 4 + z / 64) % 4) * 64 + z % 64 == z
  {
  }

  lemma OneByteRoundTrip(g: Bytes)
    requires |g| == 1
    ensures DecodeGroup(EncodeGroup(g), true) == Some(g)
  {
    var x := Ord(g[0]);
    assert EncodeGroup(g) == [Symbol(x / 4), Symbol((x % 4) * 16), '=', '='];
    assert Chr(x) == g[0];
    assert g == [g[0]];
  }

  lemma TwoBytesRoundTrip(g: Bytes)
    requires |g| == 2
    ensures DecodeGroup(EncodeGroup(g), true) == Some(g)
  {
    var x, y := Ord(g[0]), Ord(g[1]);
    SplitBits(x, y, 0);
    assert EncodeGroup(g) == [Symbol(x / 4), Symbol((x % 4) * 16 + y / 16), Symbol((y % 16) * 4), '='];
    assert Chr(x) == g[0] && Chr(y) == g[1];
    assert g == [g[0], g[1]];
  }

  lemma ThreeBytesRoundTrip(g: Bytes, last: bool)
    requires |g| == 3
    ensures DecodeGroup(EncodeGroup(g), last) == Some(g)
  {
    var x, y, z := Ord(g[0]), Ord(g[1]), Ord(g[2]);
    SplitBits(x, y, z);
    assert EncodeGroup(g) == [Symbol(x / 4), Symbol((x % 4) * 16 + y / 16), Symbol((y % 16) * 4 + z / 64), Symbol(z % 64)];
    assert Chr(x) == g[0] && Chr(y) == g[1] && Chr(z) == g[2];
    assert g == [g[0], g[1], g[2]];
  }

  /** Decoding undoes encoding for every byte string. */
  lemma {:induction false} EncodeRoundTrip(b: Bytes)
    ensures Decode(Encode(b)) == Some(b)
  {
    var r := Encode(b);
    if b == [] {
    } else if |b| <= 3 {
      GroupRoundTrip(b, true);
      assert |r| == 4 && r[..4] == r;
      assert Decode(r[4..]) == Some([]);
      assert b + [] == b;
    } else {
      var g := b[..3];
      GroupRoundTrip(g, |r| == 4);
      EncodeRoundTrip(b[3..]);
      assert r[..4] == EncodeGroup(g);
      assert r[4..] == Encode(b[3..]);
      assert b == g + b[3..];
    }
  }
}
