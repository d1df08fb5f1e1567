/**
  Go strings are sequences of bytes. Here a byte is a `char` below 256, so
  that the constants of the modelled code ("expired_at", "/", ".") can be
  written as ordinary string literals.
 */
module ByteStrings {
  import opened Wrappers

  type byte = c: char | c as int < 256 witness 'A'
  type Bytes = seq<byte>

  /** The numeric value of a byte. */
  function Ord(c: byte): (n: nat)
    ensures n < 256
  {
    c as int
  }

  /** The byte with value `n`. */
  function Chr(n: nat): (c: byte)
    requires n < 256
    ensures Ord(c) == n
  {
    n as char
  }

  /**
    strings.Cut: the part before the FIRST `sep` and the part after it, or
    None when `sep` does not occur.
   */
  function Cut(s: Bytes, sep: byte): (r: Option<(Bytes, Bytes)>)
    ensures r.None? <==> sep !in s
    ensures r.Some? ==> sep !in r.value.0 && s == r.value.0 + [sep] + r.value.1
  {
    if s == [] then None
    else if s[0] == sep then Some(([], s[1..]))
    else
      match Cut(s[1..], sep)
      case None => None
      case Some((before, after)) =>
        assert s == [s[0]] + s[1..];
        Some(([s[0]] + before, after))
  }

  /** The part before the LAST `sep` and the part after it, or None. */
  function CutLast(s: Bytes, sep: byte): (r: Option<(Bytes, Bytes)>)
    ensures r.None? <==> sep !in s
    ensures r.Some? ==> sep !in r.value.1 && s == r.value.0 + [sep] + r.value.1
  {
    if s == [] then None
    else
      var init, last := s[..|s| - 1], s[|s| - 1];
      assert s == init + [last];
      if last == sep then Some((init, []))
      else
        match CutLast(init, sep)
        case None => None
        case Some((before, after)) => Some((before, after + [last]))
  }

  /** Cutting at the first `sep` splits exactly where `sep` was inserted when the left part has none. */
  lemma {:induction false} CutAt(a: Bytes, sep: byte, b: Bytes)
    requires sep !in a
    ensures Cut(a + [sep] + b, sep) == Some((a, b))
  {
    var s := a + [sep] + b;
    if a == [] {
      assert s == [sep] + b;
    } else {
      assert s[1..] == a[1..] + [sep] + b;
      CutAt(a[1..], sep, b);
      assert a == [a[0]] + a[1..];
    }
  }

  /** Cutting at the last `sep` splits exactly where `sep` was inserted when the right part has none. */
  lemma {:induction false} CutLastAt(a: Bytes, sep: byte, b: Bytes)
    requires sep !in b
    ensures CutLast(a + [sep] + b, sep) == Some((a, b))
  {
    var s := a + [sep] + b;
    if b == [] {
      assert s[..|s| - 1] == a;
    } else {
      var init := b[..|b| - 1];
      assert s[..|s| - 1] == a + [sep] + init;
      CutLastAt(a, sep, init);
      assert b == init + [b[|b| - 1]];
    }
  }

  /** strings.Split: the pieces between the occurrences of `sep`. */
  function Split(s: Bytes, sep: byte): (parts: seq<Bytes>)
    ensures |parts| >= 1
    ensures forall i :: 0 <= i < |parts| ==> sep !in parts[i]
    decreases |s|
  {
    match Cut(s, sep)
    case None => [s]
    case Some((before, after)) => [before] + Split(after, sep)
  }

  /** strings.Join: the pieces with `sep` between consecutive ones. */
  function Join(parts: seq<Bytes>, sep: byte): Bytes
  {
    if parts == [] then []
    else if |parts| == 1 then parts[0]
    else parts[0] + [sep] + Join(parts[1..], sep)
  }

  /** Splitting undoes joining when no piece holds the separator. */
  lemma {:induction false} SplitJoin(parts: seq<Bytes>, sep: byte)
    requires |parts| >= 1
    requires forall i :: 0 <= i < |parts| ==> sep !in parts[i]
    ensures Split(Join(parts, sep), sep) == parts
  {
    if |parts| == 1 {
    } else {
      var rest := Join(parts[1..], sep);
      assert Join(parts, sep) == parts[0] + [sep] + rest;
      CutAt(parts[0], sep, rest);
      SplitJoin(parts[1..], sep);
      assert parts == [parts[0]] + parts[1..];
    }
  }

  /** A joined text holds a byte other than the separator only if some piece does. */
  lemma {:induction false} JoinAvoids(parts: seq<Bytes>, sep: byte, c: byte)
    requires c != sep
    requires forall i :: 0 <= i < |parts| ==> c !in parts[i]
    ensures c !in Join(parts, sep)
  {
    if |parts| > 1 {
      JoinAvoids(parts[1..], sep, c);
    }
  }
}
