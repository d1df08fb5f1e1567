/**
  url.Values as the modelled code uses it: one value per key, encoded by
  Values.Encode as "k1=v1&k2=v2" with keys and values query-escaped and the
  keys in ascending byte order; and the reading of such a query back into
  its pairs.
 */
module UrlValues {
  import opened Wrappers
  import opened ByteStrings
  import opened UrlEscape

  type Pair = (Bytes, Bytes)

  const Equals: byte := '='
  const Ampersand: byte := '&'

  /** Byte-wise lexicographic order, the order of Go's sort.Strings. */
  predicate Less(a: Bytes, b: Bytes)
  {
    if a == [] then b != []
    else b != [] && (a[0] < b[0] || (a[0] == b[0] && Less(a[1..], b[1..])))
  }

  predicate SortedKeys(pairs: seq<Pair>)
  {
    forall i :: 0 <= i < |pairs| - 1 ==> Less(pairs[i].0, pairs[i + 1].0)
  }

  function EncodePair(p: Pair): (r: Bytes)
    ensures '&' !in r && '?' !in r && '=' in r
  {
    QueryEscapeAvoidsDelimiters(p.0);
    QueryEscapeAvoidsDelimiters(p.1);
    QueryEscape(p.0) + [Equals] + QueryEscape(p.1)
  }

  /**
    Values.Encode, given the pairs in the order its key sort puts them
    (callers pass them in ascending key order; see SortedKeys).
   */
  function Encode(pairs: seq<Pair>): Bytes
  {
    Join(EncodeAll(pairs), Ampersand)
  }

  function EncodeAll(pairs: seq<Pair>): (r: seq<Bytes>)
    ensures |r| == |pairs|
  {
    if pairs == [] then [] else [EncodePair(pairs[0])] + EncodeAll(pairs[1..])
  }

  /** One "key=value" part; a part with no '=' is a key with empty value. */
  function ParsePair(part: Bytes): Option<Pair>
  {
    var (k, v) := match Cut(part, '=') case None => (part, []) case Some(kv) => kv;
    match (Unescape(k, QueryComponent), Unescape(v, QueryComponent))
    case (Some(key), Some(value)) => Some((key, value))
    case _ => None
  }

  /** The pairs of '&'-separated parts, skipping empty parts as url.ParseQuery does. */
  function ParseParts(parts: seq<Bytes>): Option<seq<Pair>>
  {
    if parts == [] then Some([])
    else
      match ParseParts(parts[1..])
      case None => None
      case Some(rest) =>
        if parts[0] == [] then Some(rest)
        else
          match ParsePair(parts[0])
          case None => None
          case Some(p) => Some([p] + rest)
  }

  function ParseQuery(query: Bytes): Option<seq<Pair>>
  {
    ParseParts(Split(query, '&'))
  }

  lemma ParseEncodedPair(p: Pair)
    ensures ParsePair(EncodePair(p)) == Some(p)
  {
    QueryEscapeAvoidsDelimiters(p.0);
    CutAt(QueryEscape(p.0), '=', QueryEscape(p.1));
    EscapeRoundTrip(p.0, QueryComponent);
    EscapeRoundTrip(p.1, QueryComponent);
  }

  lemma {:induction false} ParseEncodedParts(pairs: seq<Pair>)
    ensures ParseParts(EncodeAll(pairs)) == Some(pairs)
  {
    if pairs != [] {
      var head, tail := EncodePair(pairs[0]), EncodeAll(pairs[1..]);
      assert EncodeAll(pairs) == [head] + tail;
      ParseEncodedParts(pairs[1..]);
      ParseEncodedPair(pairs[0]);
      assert ([head] + tail)[1..] == tail;
      assert pairs == [pairs[0]] + pairs[1..];
    }
  }

  lemma {:induction false} EncodedPartsAvoid(pairs: seq<Pair>)
    ensures forall i :: 0 <= i < |EncodeAll(pairs)| ==> '&' !in EncodeAll(pairs)[i] && '?' !in EncodeAll(pairs)[i]
  {
    if pairs != [] {
      EncodedPartsAvoid(pairs[1..]);
      assert EncodeAll(pairs) == [EncodePair(pairs[0])] + EncodeAll(pairs[1..]);
    }
  }

  /** An encoded query never holds '?', so it is always the text after a URL's last '?'. */
  lemma EncodeHasNoQuestionMark(pairs: seq<Pair>)
    ensures '?' !in Encode(pairs)
  {
    EncodedPartsAvoid(pairs);
    JoinAvoids(EncodeAll(pairs), '&', '?');
  }

  /** Reading an encoded query back gives exactly the pairs, in order. */
  lemma EncodeRoundTrip(pairs: seq<Pair>)
    ensures ParseQuery(Encode(pairs)) == Some(pairs)
  {
    if pairs == [] {
      assert Split([], '&') == [[]];
    } else {
      EncodedPartsAvoid(pairs);
      SplitJoin(EncodeAll(pairs), Ampersand);
      ParseEncodedParts(pairs);
    }
  }
}
