/**
  The signed URL wire format
    {prefix}/{PathEscape(app)}/{PathEscape(name)}?expired_at={unix seconds}&signature={base64 digest}.{extra}
  and a reference reader and checker for it: one way to read the format
  back, as a partner for the signing. The store itself never reads signed
  URLs back.
 */
module SignedUrl {
  import opened Wrappers
  import opened ByteStrings
  import opened Decimal
  import opened UrlEscape
  import UrlValues
  import Base64
  import Hmac

  const ExpiredAtKey: Bytes := "expired_at"
  const SignatureKey: Bytes := "signature"
  const QueryMark: byte := '?'
  const Dot: byte := '.'

  /** The HMAC message: the four fields back to back, with no separator. */
  function SigningMessage(appName: Bytes, name: Bytes, expiredAtText: Bytes, extra: Bytes): (m: Bytes)
    ensures |m| == |appName| + |name| + |expiredAtText| + |extra|
    ensures m[..|appName|] == appName
    ensures m[|appName|..|appName| + |name|] == name
    ensures m[|appName| + |name|..|m| - |extra|] == expiredAtText
    ensures m[|m| - |extra|..] == extra
  {
    appName + name + expiredAtText + extra
  }

  /**
    With no separator the message does not determine its fields: a tail of
    the asset name can be read as the head of the expiry text instead.
   */
  lemma SigningMessageShiftsName(appName: Bytes, name: Bytes, tail: Bytes, expiredAtText: Bytes, extra: Bytes)
    ensures SigningMessage(appName, name + tail, expiredAtText, extra)
         == SigningMessage(appName, name, tail + expiredAtText, extra)
  {
    assert appName + (name + tail) + expiredAtText + extra == appName + name + (tail + expiredAtText) + extra;
  }

  /**
    A concrete collision: asset "report2" expiring at 1700000000 and asset
    "report" expiring at 21700000000 share one signing message, so one
    digest signs both.
   */
  lemma SigningMessageCollision()
    ensures FormatInt(21700000000) == "2" + FormatInt(1700000000)
    ensures SigningMessage("app", "report2", FormatInt(1700000000), "E")
         == SigningMessage("app", "report", FormatInt(21700000000), "E")
  {
    var zeros: Bytes := seq(8, _ => '0');
    assert 1700000000 == 17 * Pow10(8) && 21700000000 == 217 * Pow10(8);
    FormatNatTimesPow10(17, 8);
    FormatNatTimesPow10(217, 8);
    var n17, n217 := FormatNat(17), FormatNat(217);
    assert n217 == [DigitChar(2)] + n17;
    var two: Bytes := [DigitChar(2)];
    assert FormatInt(21700000000) == two + FormatInt(1700000000) by {
      assert n217 + zeros == two + (n17 + zeros);
    }
    var r: Bytes := "report";
    assert r + two == "report2";
    SigningMessageShiftsName("app", r, two, FormatInt(1700000000), "E");
  }

  /** The parts a signed URL carries. */
  datatype SignedParts = SignedParts(target: Bytes, expiredAt: int, digest: Bytes, extra: Bytes)

  /** The prefix, application name and asset name of a path ending in two escaped segments. */
  function PathNames(target: Bytes): Option<(Bytes, Bytes, Bytes)>
  {
    match CutLast(target, '/')
    case None => None
    case Some((rest, nameSegment)) =>
      match CutLast(rest, '/')
      case None => None
      case Some((prefix, appSegment)) =>
        match (Unescape(appSegment, PathSegment), Unescape(nameSegment, PathSegment))
        case (Some(appName), Some(name)) => Some((prefix, appName, name))
        case _ => None
  }

  lemma JoinThree(a: Bytes, b: Bytes, c: Bytes, sep: byte)
    ensures Join([a, b, c], sep) == (a + [sep] + b) + [sep] + c
  {
    assert [a, b, c][1..] == [b, c] && [b, c][1..] == [c];
    assert Join([b, c], sep) == b + [sep] + c;
  }

  lemma PathNamesOfJoin(prefix: Bytes, appName: Bytes, name: Bytes)
    ensures PathNames(Join([prefix, PathEscape(appName), PathEscape(name)], '/'))
         == Some((prefix, appName, name))
  {
    var a, n := PathEscape(appName), PathEscape(name);
    PathEscapeIsOneSegment(appName);
    PathEscapeIsOneSegment(name);
    JoinThree(prefix, a, n, '/');
    CutLastAt(prefix + ['/'] + a, '/', n);
    CutLastAt(prefix, '/', a);
    EscapeRoundTrip(appName, PathSegment);
    EscapeRoundTrip(name, PathSegment);
  }

  /**
    Split at the last '?', read the query, expect exactly the keys
    expired_at and signature in that order, read the decimal expiry, split
    the signature at its first '.' (base64 text has none) and decode the
    digest.
   */
  function ParseSignedURL(url: Bytes): Option<SignedParts>
  {
    match CutLast(url, '?')
    case None => None
    case Some((target, query)) =>
      match UrlValues.ParseQuery(query)
      case None => None
      case Some(pairs) =>
        if |pairs| != 2 || pairs[0].0 != ExpiredAtKey || pairs[1].0 != SignatureKey then None
        else
          match (ParseInt(pairs[0].1), Cut(pairs[1].1, '.'))
          case (Some(expiredAt), Some((encoded, extra))) =>
            (match Base64.Decode(encoded)
             case None => None
             case Some(digest) => Some(SignedParts(target, expiredAt, digest, extra)))
          case _ => None
  }

  /**
    A signed URL is good at time `now` for the holder of `token` when its
    expiry has not passed and its digest is the HMAC of the application
    name and asset name in its path, its expiry text and its extra value.
   */
  function VerifySignedURL(hash: Bytes -> Bytes, token: Bytes, now: int, url: Bytes): bool
  {
    match ParseSignedURL(url)
    case None => false
    case Some(p) =>
      match PathNames(p.target)
      case None => false
      case Some((_, appName, name)) =>
        now <= p.expiredAt
        && p.digest == Hmac.Digest(hash, token, SigningMessage(appName, name, FormatInt(p.expiredAt), p.extra))
  }

  /** The query part as Values.Encode emits it for the two keys. */
  function SignedQuery(expiredAtText: Bytes, signature: Bytes): Bytes
  {
    UrlValues.Encode([(ExpiredAtKey, expiredAtText), (SignatureKey, signature)])
  }

  lemma KeysUnreserved()
    ensures forall i :: 0 <= i < |ExpiredAtKey| ==> Unreserved(ExpiredAtKey[i])
    ensures forall i :: 0 <= i < |SignatureKey| ==> Unreserved(SignatureKey[i])
  {
  }

  /** The query text: expired_at first, then signature, each value query-escaped. */
  lemma SignedQueryText(expiredAtText: Bytes, signature: Bytes)
    ensures SignedQuery(expiredAtText, signature)
         == (ExpiredAtKey + [UrlValues.Equals] + QueryEscape(expiredAtText))
            + [UrlValues.Ampersand]
            + (SignatureKey + [UrlValues.Equals] + QueryEscape(signature))
  {
    KeysUnreserved();
    EscapeUnreserved(ExpiredAtKey, QueryComponent);
    EscapeUnreserved(SignatureKey, QueryComponent);
    var p0 := UrlValues.EncodePair((ExpiredAtKey, expiredAtText));
    var p1 := UrlValues.EncodePair((SignatureKey, signature));
    assert p0 == ExpiredAtKey + [UrlValues.Equals] + QueryEscape(expiredAtText);
    assert p1 == SignatureKey + [UrlValues.Equals] + QueryEscape(signature);
    assert UrlValues.EncodeAll([(ExpiredAtKey, expiredAtText), (SignatureKey, signature)]) == [p0, p1];
    assert [p0, p1][1..] == [p1];
    assert Join([p0, p1], UrlValues.Ampersand) == p0 + [UrlValues.Ampersand] + p1;
  }

  /** The two keys are given to Values.Encode in the order its key sort produces. */
  lemma SignedQueryKeysSorted()
    ensures UrlValues.Less(ExpiredAtKey, SignatureKey)
    ensures UrlValues.SortedKeys([(ExpiredAtKey, []), (SignatureKey, [])])
  {
  }

  lemma ParseSignedSteps(url: Bytes, target: Bytes, query: Bytes, expiredAtText: Bytes, signature: Bytes,
                         expiredAt: int, encoded: Bytes, extra: Bytes, digest: Bytes)
    requires CutLast(url, '?') == Some((target, query))
    requires UrlValues.ParseQuery(query) == Some([(ExpiredAtKey, expiredAtText), (SignatureKey, signature)])
    requires ParseInt(expiredAtText) == Some(expiredAt)
    requires Cut(signature, '.') == Some((encoded, extra))
    requires Base64.Decode(encoded) == Some(digest)
    ensures ParseSignedURL(url) == Some(SignedParts(target, expiredAt, digest, extra))
  {
  }

  /** The signature value splits at its first '.' into the base64 digest and the extra value. */
  lemma CutSignature(digest: Bytes, extra: Bytes)
    ensures Cut(Base64.Encode(digest) + [Dot] + extra, '.') == Some((Base64.Encode(digest), extra))
  {
    var encoded := Base64.Encode(digest);
    assert '.' !in encoded by {
      forall i | 0 <= i < |encoded| ensures encoded[i] != '.' {
        assert Base64.IsEncodedChar(encoded[i]);
      }
    }
    CutAt(encoded, '.', extra);
  }

  /**
    Splitting the signature value at its LAST '.' instead loses part of an
    extra value that itself holds a '.'.
   */
  lemma LastDotSplitMisreadsDottedExtra(digest: Bytes, extra: Bytes)
    requires Dot in extra
    ensures CutLast(Base64.Encode(digest) + [Dot] + extra, Dot).Some?
    ensures CutLast(Base64.Encode(digest) + [Dot] + extra, Dot).value.1 != extra
  {
  }

  /** What ParseSignedURL recovers from a URL built in the signed format. */
  lemma ParseSigned(target: Bytes, expiredAt: int, digest: Bytes, extra: Bytes)
    ensures ParseSignedURL(target + [QueryMark] + SignedQuery(FormatInt(expiredAt), Base64.Encode(digest) + [Dot] + extra))
         == Some(SignedParts(target, expiredAt, digest, extra))
  {
    var expiredAtText := FormatInt(expiredAt);
    var encoded := Base64.Encode(digest);
    var signature: Bytes := encoded + [Dot] + extra;
    var pairs: seq<UrlValues.Pair> := [(ExpiredAtKey, expiredAtText), (SignatureKey, signature)];
    var query := SignedQuery(expiredAtText, signature);
    var url: Bytes := target + [QueryMark] + query;
    UrlValues.EncodeHasNoQuestionMark(pairs);
    CutLastAt(target, '?', query);
    UrlValues.EncodeRoundTrip(pairs);
    FormatIntRoundTrip(expiredAt);
    CutSignature(digest, extra);
    Base64.EncodeRoundTrip(digest);
    ParseSignedSteps(url, target, query, expiredAtText, signature, expiredAt, encoded, extra, digest);
  }
}
