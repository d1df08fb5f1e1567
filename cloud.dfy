/**
  The cloud asset store: a store whose assets live with a remote asset
  service. It checks its configuration when created, keeps a signer token
  that a refresh replaces, and turns asset names into URLs, signed with
  that token when the store is private.
 */
module Cloud {
  import opened Wrappers
  import opened ByteStrings
  import opened Decimal
  import opened UrlEscape
  import Base64
  import Hmac
  import opened Signer
  import opened SignedUrl

  /** Lifetime of one signed URL, in seconds (15 minutes). */
  const URLExpiryInterval: int := 15 * 60
  /** Period of the signer token refresh, in seconds (30 minutes). */
  const SignerTokenRefreshInterval: int := 30 * 60
  /** Lifetime asked of the service for a new signer token, in seconds (2 hours). */
  const SignerTokenExpiryInterval: int := 2 * 60 * 60
  /** Timeout of the requests to the service, in seconds. */
  const RequestTimeout: int := 10

  const Slash: byte := '/'
  const AssetSegment: Bytes := "asset"
  const TokenSegment: Bytes := "token"

  /** What a store keeps of its construction arguments. */
  datatype Config = Config(
    appName: Bytes,
    host: Bytes,
    authToken: Bytes,
    urlPrefix: Bytes,
    public: bool)

  datatype Error =
    | MissingAppName
    | MissingHost
    | MissingAuthToken
    | MissingPublicURLPrefix
    | MissingPrivateURLPrefix
    | SignerNotReady
    | DirectGetUnavailable
    | DirectPutUnavailable
    | SignatureParsingUnavailable

  /** The text of each error. */
  function Message(e: Error): string
  {
    match e
    case MissingAppName => "Missing app name for cloud asset"
    case MissingHost => "Missing host for cloud asset"
    case MissingAuthToken => "Missing auth token for cloud asset"
    case MissingPublicURLPrefix => "Missing public URL prefix for cloud asset"
    case MissingPrivateURLPrefix => "Missing private URL prefix for cloud asset"
    case SignerNotReady => "Cloud Asset Signer Token is not yet ready"
    case DirectGetUnavailable => "Directly getting files is not available for cloud-based asset store"
    case DirectPutUnavailable => "Directly uploading files is not available for cloud-based asset store"
    case SignatureParsingUnavailable => "Asset signature parsing for cloud-based asset store is not available"
  }

  // ---------------------------------------------------------------------------
  // Construction

  /** The construction checks, in the order they are made, each with the error it reports. */
  function ConstructionChecks(
    appName: Bytes, host: Bytes, authToken: Bytes,
    publicURLPrefix: Bytes, privateURLPrefix: Bytes, public: bool
  ): seq<(bool, Error)>
  {
    [ (appName != [], MissingAppName),
      (host != [], MissingHost),
      (authToken != [], MissingAuthToken),
      (!public || publicURLPrefix != [], MissingPublicURLPrefix),
      (public || privateURLPrefix != [], MissingPrivateURLPrefix) ]
  }

  /** The error of the first check that fails, if any. */
  function FirstFailed(checks: seq<(bool, Error)>): (r: Option<Error>)
    ensures r.None? <==> forall i :: 0 <= i < |checks| ==> checks[i].0
  {
    if checks == [] then None
    else if !checks[0].0 then Some(checks[0].1)
    else FirstFailed(checks[1..])
  }

  /**
    The validation part of NewAssetStore: it fails with the first missing
    argument, and otherwise keeps the public prefix for a public store and
    the private prefix for a private one.
   */
  function NewConfig(
    appName: Bytes, host: Bytes, authToken: Bytes,
    publicURLPrefix: Bytes, privateURLPrefix: Bytes, public: bool
  ): (r: Result<Config, Error>)
    ensures r.Success? ==> r.value.appName == appName && r.value.host == host && r.value.authToken == authToken
    ensures r.Success? ==> r.value.public == public
    ensures r.Success? ==> r.value.urlPrefix == (if public then publicURLPrefix else privateURLPrefix)
    ensures r.Success? ==> r.value.urlPrefix != []
  {
    if appName == [] then Failure(MissingAppName)
    else if host == [] then Failure(MissingHost)
    else if authToken == [] then Failure(MissingAuthToken)
    else if public && publicURLPrefix == [] then Failure(MissingPublicURLPrefix)
    else if !public && privateURLPrefix == [] then Failure(MissingPrivateURLPrefix)
    else
      var urlPrefix := if public then publicURLPrefix else privateURLPrefix;
      Success(Config(appName, host, authToken, urlPrefix, public))
  }

  /** NewConfig fails exactly when a check fails, and then with the error of the first failing check. */
  lemma NewConfigReportsFirstFailedCheck(
    appName: Bytes, host: Bytes, authToken: Bytes,
    publicURLPrefix: Bytes, privateURLPrefix: Bytes, public: bool)
    ensures var r := NewConfig(appName, host, authToken, publicURLPrefix, privateURLPrefix, public);
      var first := FirstFailed(ConstructionChecks(appName, host, authToken, publicURLPrefix, privateURLPrefix, public));
      && (r.Failure? <==> first.Some?)
      && (r.Failure? ==> first == Some(r.error))
  {
    var checks := ConstructionChecks(appName, host, authToken, publicURLPrefix, privateURLPrefix, public);
    if appName == [] {
      assert FirstFailed(checks) == Some(MissingAppName);
    } else if host == [] {
      assert FirstFailed(checks) == FirstFailed(checks[1..]) == Some(MissingHost);
    } else if authToken == [] {
      assert FirstFailed(checks) == FirstFailed(checks[1..]) == FirstFailed(checks[2..]) == Some(MissingAuthToken);
    } else if public && publicURLPrefix == [] {
      assert FirstFailed(checks) == FirstFailed(checks[1..]) == FirstFailed(checks[2..])
          == FirstFailed(checks[3..]) == Some(MissingPublicURLPrefix);
    } else if !public && privateURLPrefix == [] {
      assert FirstFailed(checks) == FirstFailed(checks[1..]) == FirstFailed(checks[2..])
          == FirstFailed(checks[3..]) == FirstFailed(checks[4..]) == Some(MissingPrivateURLPrefix);
    }
  }

  /** A store can be made exactly when every required argument is there. */
  lemma NewConfigSucceedsIff(
    appName: Bytes, host: Bytes, authToken: Bytes,
    publicURLPrefix: Bytes, privateURLPrefix: Bytes, public: bool)
    ensures NewConfig(appName, host, authToken, publicURLPrefix, privateURLPrefix, public).Success?
        <==> appName != [] && host != [] && authToken != []
             && (if public then publicURLPrefix != [] else privateURLPrefix != [])
  {
  }

  // ---------------------------------------------------------------------------
  // URLs

  /** The asset's URL before signing: prefix, application name and asset name as path segments. */
  function TargetURL(config: Config, name: Bytes): Bytes
  {
    Join([config.urlPrefix, PathEscape(config.appName), PathEscape(name)], Slash)
  }

  /** The URL of the service's upload endpoint for an asset (GeneratePostFileRequest). */
  function PostFileRequestURL(config: Config, name: Bytes): Bytes
  {
    Join([config.host, AssetSegment, PathEscape(config.appName), PathEscape(name)], Slash)
  }

  /**
    SignedURL at time `now` (Unix seconds) with signer triple `cred`, where
    `hash` is SHA-256. A public store returns the plain URL. A private store
    needs both the token and the extra value; it then signs the application
    name, the asset name, the decimal expiry `now` + 15 minutes and the
    extra value, and appends the expiry and the signature as the query.
   */
  function SignedURLFor(config: Config, name: Bytes, now: int, cred: Credential, hash: Bytes -> Bytes)
    : (r: Result<Bytes, Error>)
    ensures config.public ==> r == Success(TargetURL(config, name))
    ensures !config.public && !Ready(cred) ==> r == Failure(SignerNotReady)
    ensures r.Success? <==> config.public || Ready(cred)
  {
    var target := TargetURL(config, name);
    if config.public then Success(target)
    else if cred.token == [] || cred.extra == [] then Failure(SignerNotReady)
    else
      var expiredAtText := FormatInt(now + URLExpiryInterval);
      var digest := Hmac.Digest(hash, cred.token, SigningMessage(config.appName, name, expiredAtText, cred.extra));
      var signature := Base64.Encode(digest) + [Dot] + cred.extra;
      Success(target + [QueryMark] + SignedQuery(expiredAtText, signature))
  }

  /** The signed URL's path names the application and the asset, each as one whole segment. */
  lemma TargetURLNamesAsset(config: Config, name: Bytes)
    ensures PathNames(TargetURL(config, name)) == Some((config.urlPrefix, config.appName, name))
  {
    PathNamesOfJoin(config.urlPrefix, config.appName, name);
  }

  /** The upload endpoint's path ends in the application name and the asset name, one segment each. */
  lemma PostFileRequestURLNamesAsset(config: Config, name: Bytes)
    ensures PathNames(PostFileRequestURL(config, name)) == Some((config.host + [Slash] + AssetSegment, config.appName, name))
  {
    var h, s, a, n := config.host, AssetSegment, PathEscape(config.appName), PathEscape(name);
    assert [h, s, a, n][1..] == [s, a, n];
    assert Join([h, s, a, n], Slash) == h + [Slash] + Join([s, a, n], Slash);
    JoinThree(s, a, n, Slash);
    JoinThree(h + [Slash] + s, a, n, Slash);
    assert h + [Slash] + ((s + [Slash] + a) + [Slash] + n) == ((h + [Slash] + s) + [Slash] + a) + [Slash] + n;
    PathNamesOfJoin(h + [Slash] + s, config.appName, name);
  }

  /** Two different asset names never share a URL. */
  lemma TargetURLInjective(config: Config, a: Bytes, b: Bytes)
    requires TargetURL(config, a) == TargetURL(config, b)
    ensures a == b
  {
    TargetURLNamesAsset(config, a);
    TargetURLNamesAsset(config, b);
  }

  /**
    For a private store with a ready signer, the URL carries the expiry
    `now` + 900 and, under the key `signature`, the base64 HMAC-SHA256
    keyed with the signer token over appName ++ name ++ decimal expiry ++
    extra, followed by '.' and the extra value.
   */
  lemma SignedURLCarriesSignature(config: Config, name: Bytes, now: int, cred: Credential, hash: Bytes -> Bytes)
    requires !config.public && Ready(cred)
    ensures SignedURLFor(config, name, now, cred, hash).Success?
    ensures ParseSignedURL(SignedURLFor(config, name, now, cred, hash).value)
         == Some(SignedParts(
              TargetURL(config, name),
              now + URLExpiryInterval,
              Hmac.Digest(hash, cred.token,
                config.appName + name + FormatInt(now + URLExpiryInterval) + cred.extra),
              cred.extra))
  {
    var expiredAtText := FormatInt(now + URLExpiryInterval);
    var digest := Hmac.Digest(hash, cred.token, SigningMessage(config.appName, name, expiredAtText, cred.extra));
    ParseSigned(TargetURL(config, name), now + URLExpiryInterval, digest, cred.extra);
  }

  /**
    The signed URL byte for byte: the unsigned URL, '?', then
    expired_at={expiry}&signature={base64 digest}.{extra} with both values
    query-escaped.
   */
  lemma SignedURLText(config: Config, name: Bytes, now: int, cred: Credential, hash: Bytes -> Bytes)
    requires !config.public && Ready(cred)
    ensures SignedURLFor(config, name, now, cred, hash).Success?
    ensures var expiredAtText := FormatInt(now + URLExpiryInterval);
      var digest := Hmac.Digest(hash, cred.token, SigningMessage(config.appName, name, expiredAtText, cred.extra));
      SignedURLFor(config, name, now, cred, hash).value
        == TargetURL(config, name) + [QueryMark]
           + ((ExpiredAtKey + [UrlValues.Equals] + QueryEscape(expiredAtText))
              + [UrlValues.Ampersand]
              + (SignatureKey + [UrlValues.Equals] + QueryEscape(Base64.Encode(digest) + [Dot] + cred.extra)))
  {
    var expiredAtText := FormatInt(now + URLExpiryInterval);
    var digest := Hmac.Digest(hash, cred.token, SigningMessage(config.appName, name, expiredAtText, cred.extra));
    SignedQueryText(expiredAtText, Base64.Encode(digest) + [Dot] + cred.extra);
  }

  /**
    A URL signed at `now` passes the reference check with the signer token
    exactly until its expiry, 15 minutes later.
   */
  lemma SignedURLVerifies(config: Config, name: Bytes, now: int, cred: Credential, hash: Bytes -> Bytes, t: int)
    requires !config.public && Ready(cred)
    ensures SignedURLFor(config, name, now, cred, hash).Success?
    ensures VerifySignedURL(hash, cred.token, t, SignedURLFor(config, name, now, cred, hash).value)
        <==> t <= now + URLExpiryInterval
  {
    SignedURLCarriesSignature(config, name, now, cred, hash);
    TargetURLNamesAsset(config, name);
  }

  /** The token's own expiry plays no part in signing: the store never checks it. */
  lemma SignedURLIgnoresTokenExpiry(config: Config, name: Bytes, now: int, token: Bytes, extra: Bytes,
                                    e1: int, e2: int, hash: Bytes -> Bytes)
    ensures SignedURLFor(config, name, now, Credential(token, extra, e1), hash)
         == SignedURLFor(config, name, now, Credential(token, extra, e2), hash)
  {
  }

  // ---------------------------------------------------------------------------
  // Signer token refresh

  /** The request a refresh sends to the service. */
  datatype TokenRequest = TokenRequest(uri: Bytes, expiredAt: int, authorization: Bytes, timeout: int)

  /** The service's answer to a successful request. */
  datatype TokenResponse = TokenResponse(value: Bytes, extra: Bytes, expiredAt: int)

  /** How a refresh request ends: the request fails, its body does not parse, or it yields a response. */
  datatype RefreshOutcome = RequestFailed | ResponseUnparsable | Fetched(response: TokenResponse)

  /** The refresh request at time `now`: {host}/token/{app}?expired_at={now + 2 hours}, bearer auth token. */
  function TokenRequestFor(config: Config, now: int): (req: TokenRequest)
    ensures req.expiredAt == now + SignerTokenExpiryInterval
    ensures req.expiredAt >= now + SignerTokenRefreshInterval
    ensures req.authorization == "Bearer " + config.authToken
    ensures req.timeout == RequestTimeout
  {
    TokenRequest(
      Join([config.host, TokenSegment, PathEscape(config.appName)], Slash),
      now + SignerTokenExpiryInterval,
      "Bearer " + config.authToken,
      RequestTimeout)
  }

  /** The token request's path ends in the application name, as one segment. */
  lemma TokenRequestNamesApp(config: Config, now: int)
    ensures var uri := TokenRequestFor(config, now).uri;
      && CutLast(uri, Slash) == Some((config.host + [Slash] + TokenSegment, PathEscape(config.appName)))
      && Unescape(PathEscape(config.appName), PathSegment) == Some(config.appName)
  {
    var token := TokenSegment;
    var a := PathEscape(config.appName);
    JoinThree(config.host, token, a, Slash);
    PathEscapeIsOneSegment(config.appName);
    CutLastAt(config.host + [Slash] + token, Slash, a);
    EscapeRoundTrip(config.appName, PathSegment);
  }

  /** The triple after one refresh: replaced as a whole on success, untouched otherwise. */
  function Refreshed(cred: Credential, outcome: RefreshOutcome): (c: Credential)
    ensures outcome.Fetched? ==>
      c == Credential(outcome.response.value, outcome.response.extra, outcome.response.expiredAt)
    ensures !outcome.Fetched? ==> c == cred
  {
    match outcome
    case RequestFailed => cred
    case ResponseUnparsable => cred
    case Fetched(response) => Credential(response.value, response.extra, response.expiredAt)
  }

  /**
    The refresh never looks at the HTTP status: an error answer whose JSON
    body has none of the three fields decodes to the empty triple, and that
    replaces a ready triple, after which a private store cannot sign.
   */
  lemma ErrorStatusBodyClearsSigner(config: Config, name: Bytes, now: int, cred: Credential, hash: Bytes -> Bytes)
    requires !config.public && Ready(cred)
    ensures SignedURLFor(config, name, now, cred, hash).Success?
    ensures var c := Refreshed(cred, Fetched(TokenResponse([], [], ZeroTime)));
      && !Ready(c)
      && SignedURLFor(config, name, now, c, hash) == Failure(SignerNotReady)
  {
  }

  /** The triple after a run of refreshes, in order. */
  function RefreshedAll(cred: Credential, outcomes: seq<RefreshOutcome>): Credential
    decreases |outcomes|
  {
    if outcomes == [] then cred
    else RefreshedAll(Refreshed(cred, outcomes[0]), outcomes[1..])
  }

  /** The response of the last refresh in the run that succeeded. */
  function LastFetched(outcomes: seq<RefreshOutcome>): Option<TokenResponse>
  {
    if outcomes == [] then None
    else if outcomes[|outcomes| - 1].Fetched? then Some(outcomes[|outcomes| - 1].response)
    else LastFetched(outcomes[..|outcomes| - 1])
  }

  /**
    After any run of refreshes the signer holds the triple of the last
    successful one, all three fields from the same response, or, when none
    succeeded, the triple it held before: failures never clear it.
   */
  lemma {:induction false} RefreshedAllKeepsLastFetched(cred: Credential, outcomes: seq<RefreshOutcome>)
    ensures RefreshedAll(cred, outcomes) ==
      match LastFetched(outcomes)
      case None => cred
      case Some(response) => Credential(response.value, response.extra, response.expiredAt)
  {
    if outcomes != [] {
      var init, last := outcomes[..|outcomes| - 1], outcomes[|outcomes| - 1];
      assert outcomes == init + [last];
      RefreshedAllAppend(cred, init, last);
      RefreshedAllKeepsLastFetched(cred, init);
    }
  }

  lemma {:induction false} RefreshedAllAppend(cred: Credential, outcomes: seq<RefreshOutcome>, last: RefreshOutcome)
    ensures RefreshedAll(cred, outcomes + [last]) == Refreshed(RefreshedAll(cred, outcomes), last)
    decreases |outcomes|
  {
    if outcomes != [] {
      assert (outcomes + [last])[1..] == outcomes[1..] + [last];
      RefreshedAllAppend(Refreshed(cred, outcomes[0]), outcomes[1..], last);
    }
  }

  // ---------------------------------------------------------------------------
  // The store

  class AssetStore {
    const config: Config
    const signer: CloudStoreSigner

    /** A store over a checked configuration, with a signer that holds no token yet. */
    constructor (config: Config)
      ensures this.config == config
      ensures fresh(signer) && signer.Get() == EmptyCredential
    {
      this.config := config;
      signer := new CloudStoreSigner();
    }

    /**
      refreshSignerToken at time `now`, where `fetch` stands for the
      request to the service and the decoding of its answer.
     */
    method RefreshSignerToken(now: int, fetch: TokenRequest -> RefreshOutcome)
      modifies signer
      ensures signer.Get() == Refreshed(old(signer.Get()), fetch(TokenRequestFor(config, now)))
    {
      var request := TokenRequestFor(config, now);
      var outcome := fetch(request);
      match outcome
      case RequestFailed =>
        return;
      case ResponseUnparsable =>
        return;
      case Fetched(response) =>
        signer.Update(response.value, response.extra, response.expiredAt);
    }

    /** SignedURL at time `now`, reading the signer's current triple. */
    method SignedURL(name: Bytes, now: int, hash: Bytes -> Bytes) returns (r: Result<Bytes, Error>)
      ensures r == SignedURLFor(config, name, now, signer.Get(), hash)
    {
      var cred := signer.Get();
      r := SignedURLFor(config, name, now, cred, hash);
    }

    function IsSignatureRequired(): (required: bool)
      ensures required <==> !config.public
    {
      !config.public
    }

    /** Reading asset bytes directly is refused; the reader is modelled by the bytes it would yield. */
    function GetFileReader(name: Bytes): (r: Result<Bytes, Error>)
      ensures r == Failure(DirectGetUnavailable)
      ensures Message(r.error) == "Directly getting files is not available for cloud-based asset store"
    {
      Failure(DirectGetUnavailable)
    }

    /** Writing asset bytes directly is refused. */
    function PutFileReader(name: Bytes, src: Bytes, length: int, contentType: Bytes): (err: Option<Error>)
      ensures err == Some(DirectPutUnavailable)
      ensures Message(err.value) == "Directly uploading files is not available for cloud-based asset store"
    {
      Some(DirectPutUnavailable)
    }

    /** Checking a signature is refused, with the verdict false. */
    function ParseSignature(signed: Bytes, name: Bytes, expiredAt: int): (r: (bool, Option<Error>))
      ensures r == (false, Some(SignatureParsingUnavailable))
      ensures Message(r.1.value) == "Asset signature parsing for cloud-based asset store is not available"
    {
      (false, Some(SignatureParsingUnavailable))
    }
  }

  /** NewAssetStore: a store when the arguments pass the checks, else the first check's error. */
  method NewAssetStore(
    appName: Bytes, host: Bytes, authToken: Bytes,
    publicURLPrefix: Bytes, privateURLPrefix: Bytes, public: bool
  ) returns (r: Result<AssetStore, Error>)
    ensures var c := NewConfig(appName, host, authToken, publicURLPrefix, privateURLPrefix, public);
      && (r.Success? <==> c.Success?)
      && (r.Failure? ==> r.error == c.error)
      && (r.Success? ==> r.value.config == c.value && fresh(r.value) && fresh(r.value.signer))
      && (r.Success? ==> r.value.signer.Get() == EmptyCredential)
  {
    var c := NewConfig(appName, host, authToken, publicURLPrefix, privateURLPrefix, public);
    match c
    case Failure(e) =>
      r := Failure(e);
    case Success(config) =>
      var store := new AssetStore(config);
      r := Success(store);
  }
}
