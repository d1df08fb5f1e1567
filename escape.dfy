/**
  Percent-encoding as Go's net/url does it: url.PathEscape (mode
  PathSegment) and url.QueryEscape (mode QueryComponent), with the
  unescaping that undoes each.
 */
module UrlEscape {
  import opened Wrappers
  import opened ByteStrings

  datatype Mode = PathSegment | QueryComponent

  /** The unreserved characters of section 2.3 of RFC 3986. */
  predicate Unreserved(c: byte)
  {
    ('a' <= c <= 'z') || ('A' <= c <= 'Z') || ('0' <= c <= '9')
    || c == '-' || c == '_' || c == '.' || c == '~'
  }

  /** The reserved characters of section 2.2 of RFC 3986 that Go treats per mode. */
  predicate Reserved(c: byte)
  {
    c == '$' || c == '&' || c == '+' || c == ',' || c == '/'
    || c == ':' || c == ';' || c == '=' || c == '?' || c == '@'
  }

  /**
    Whether `c` must be percent-encoded. A path segment keeps ':', '@', '&',
    '=', '+' and '$' but escapes '/', ';', ',' and '?'; a query component
    escapes every reserved character. Everything outside both classes is
    escaped.
   */
  predicate ShouldEscape(c: byte, mode: Mode)
  {
    if Unreserved(c) then false
    else if Reserved(c) then
      match mode
      case PathSegment => c == '/' || c == ';' || c == ',' || c == '?'
      case QueryComponent => true
    else true
  }

  /** An upper-case hexadecimal digit. */
  function UpperHex(n: nat): (c: byte)
    requires n < 16
  {
    if n < 10 then Chr(Ord('0') + n) else Chr(Ord('A') + n - 10)
  }

  predicate IsHex(c: byte)
  {
    ('0' <= c <= '9') || ('a' <= c <= 'f') || ('A' <= c <= 'F')
  }

  function HexValue(c: byte): (n: nat)
    requires IsHex(c)
    ensures n < 16
  {
    if '0' <= c <= '9' then Ord(c) - Ord('0')
    else if 'a' <= c <= 'f' then Ord(c) - Ord('a') + 10
    else Ord(c) - Ord('A') + 10
  }

  /** What one input byte becomes. */
  function EscapeByte(c: byte, mode: Mode): Bytes
  {
    if c == ' ' && mode == QueryComponent then "+"
    else if ShouldEscape(c, mode) then ['%', UpperHex(Ord(c) / 16), UpperHex(Ord(c) % 16)]
    else [c]
  }

  /** The bytes an escaped text may contain. */
  predicate Emitted(c: byte, mode: Mode)
  {
    c == '%' || (c == '+' && mode == QueryComponent) || !ShouldEscape(c, mode)
  }

  function Escape(s: Bytes, mode: Mode): Bytes
  {
    if s == [] then [] else EscapeByte(s[0], mode) + Escape(s[1..], mode)
  }

  /** url.PathEscape */
  function PathEscape(s: Bytes): Bytes
  {
    Escape(s, PathSegment)
  }

  /** url.QueryEscape */
  function QueryEscape(s: Bytes): Bytes
  {
    Escape(s, QueryComponent)
  }

  /**
    url.PathUnescape / url.QueryUnescape: every "%XY" becomes the byte with
    hexadecimal value XY (either case), in a query component '+' becomes a
    space; a '%' without two hexadecimal digits after it is an error.
   */
  function Unescape(s: Bytes, mode: Mode): Option<Bytes>
  {
    if s == [] then Some([])
    else if s[0] == '%' then
      if |s| < 3 || !IsHex(s[1]) || !IsHex(s[2]) then None
      else
        match Unescape(s[3..], mode)
        case None => None
        case Some(rest) => Some([Chr(HexValue(s[1]) * 16 + HexValue(s[2]))] + rest)
    else
      match Unescape(s[1..], mode)
      case None => None
      case Some(rest) =>
        Some([if s[0] == '+' && mode == QueryComponent then ' ' else s[0]] + rest)
  }

  lemma HexRoundTrip(n: nat)
    requires n < 16
    ensures IsHex(UpperHex(n)) && HexValue(UpperHex(n)) == n
  {
  }

  lemma UnescapeByte(c: byte, mode: Mode, t: Bytes)
    ensures Unescape(EscapeByte(c, mode) + t, mode) ==
      match Unescape(t, mode)
      case None => None
      case Some(rest) => Some([c] + rest)
  {
    var e := EscapeByte(c, mode);
    if c == ' ' && mode == QueryComponent {
    } else if ShouldEscape(c, mode) {
      var hi, lo := Ord(c) / 16, Ord(c) % 16;
      HexRoundTrip(hi);
      HexRoundTrip(lo);
      assert (e + t)[3..] == t;
      assert Chr(hi * 16 + lo) == c;
    } else {
      assert (e + t)[1..] == t;
    }
  }

  /** Unescaping undoes escaping, in either mode. */
  lemma {:induction false} EscapeRoundTrip(s: Bytes, mode: Mode)
    ensures Unescape(Escape(s, mode), mode) == Some(s)
  {
    if s != [] {
      EscapeRoundTrip(s[1..], mode);
      UnescapeByte(s[0], mode, Escape(s[1..], mode));
      assert s == [s[0]] + s[1..];
    }
  }

  /** Escaped text holds only bytes that need no escaping, '%', and in a query '+'. */
  lemma {:induction false} EscapeEmitted(s: Bytes, mode: Mode)
    ensures forall i :: 0 <= i < |Escape(s, mode)| ==> Emitted(Escape(s, mode)[i], mode)
  {
    if s != [] {
      EscapeEmitted(s[1..], mode);
      var head, tail := EscapeByte(s[0], mode), Escape(s[1..], mode);
      assert forall i :: 0 <= i < |head| ==> Emitted(head[i], mode);
      assert forall i :: |head| <= i < |head + tail| ==> (head + tail)[i] == tail[i - |head|];
    }
  }

  /** A path-escaped name holds no '/' (nor '?'): it is always exactly one path segment. */
  lemma PathEscapeIsOneSegment(s: Bytes)
    ensures '/' !in PathEscape(s) && '?' !in PathEscape(s)
  {
    EscapeEmitted(s, PathSegment);
  }

  /** A query-escaped value holds none of the bytes that delimit a query. */
  lemma QueryEscapeAvoidsDelimiters(s: Bytes)
    ensures '&' !in QueryEscape(s) && '=' !in QueryEscape(s) && '?' !in QueryEscape(s)
  {
    EscapeEmitted(s, QueryComponent);
  }

  /** url.PathEscape never maps two names to the same segment. */
  lemma PathEscapeInjective(a: Bytes, b: Bytes)
    requires PathEscape(a) == PathEscape(b)
    ensures a == b
  {
    EscapeRoundTrip(a, PathSegment);
    EscapeRoundTrip(b, PathSegment);
  }

  /** Text made of unreserved characters is left as it is. */
  lemma {:induction false} EscapeUnreserved(s: Bytes, mode: Mode)
    requires forall i :: 0 <= i < |s| ==> Unreserved(s[i])
    ensures Escape(s, mode) == s
  {
    if s != [] {
      EscapeUnreserved(s[1..], mode);
    }
  }

  /** An example name: its space and its '/' are percent-encoded, so it stays one segment. */
  lemma PathEscapeExample()
    ensures PathEscape("a b/c") == "a%20b%2Fc"
  {
  }
}
