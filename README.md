# Cloud asset store: URL signing and signer refresh

This project models the cloud-backed asset store of the skygear server
(`pkg/core/asset/cloud/cloud.go`). The store keeps its assets with a remote
asset service. It covers four things:

- **Construction.** `NewAssetStore` checks its arguments in a fixed order:
  app name, host, auth token, then the URL prefix that the `public` flag
  selects. It keeps the public prefix for a public store and the private
  prefix for a private one.
- **Signed URLs.** `SignedURL` turns an asset name into
  `{prefix}/{PathEscape(app)}/{PathEscape(name)}`. A public store adds
  nothing. A private store needs both a signer token and the signer's extra
  value. It then appends `?expired_at={now+900}&signature={base64(HMAC-SHA256(token, app ++ name ++ expiry ++ extra))}.{extra}`.
- **Signer refresh.** `refreshSignerToken` asks the service for a new signer
  triple (token, extra, expiry). It replaces the signer's triple as a whole,
  and only when the request and the decoding of the response both succeed.
- **Refused operations.** `GetFileReader`, `PutFileReader` and
  `ParseSignature` always fail.

The store's configuration is a value (`Cloud.Config`). The signer's triple is
mutable state: the class `Signer.CloudStoreSigner` holds it, and its `Update`
method replaces it. `Cloud.AssetStore` is a class that holds the
configuration and a reference to its signer. Inputs from outside the program
are parameters:

- the current time `now`, in Unix seconds;
- SHA-256, as `hash: Bytes -> Bytes`;
- the outcome of the network request and the JSON decoding, as
  `fetch: TokenRequest -> RefreshOutcome`.

Go strings are byte strings. Here a byte is a `char` below 256.

The Go library functions the code calls are modelled concretely, each in its
own module:

- `strconv.FormatInt` (`Decimal`);
- `url.PathEscape` and `url.QueryEscape`, using net/url's escaping tables
  (`UrlEscape`);
- `url.Values.Encode` for one value per key (`UrlValues`);
- `base64.StdEncoding`, section 4 of RFC 4648 (`Base64`);
- HMAC as in RFC 2104 (`Hmac`).

Each of these except `Hmac` comes with its inverse and a round-trip lemma.
HMAC has no inverse: `Hmac.Digest` is a definition that follows RFC 2104,
and no lemma is stated about it. `SignedUrl` holds the signed-URL wire
format and a reference reader and checker for it. That reference check is
this model's own: the service that checks signed URLs is not part of this
model. Its choices are to accept up to and including the expiry second and
to split the signature value at its first `.`. The store itself never reads
a signed URL back, because its `ParseSignature` always fails. The reference
reader is the independent definition against which `SignedURLFor` is proved.

Files: `wrappers.dfy`, `bytestrings.dfy`, `decimal.dfy`, `escape.dfy`,
`values.dfy`, `base64.dfy`, `hmac.dfy`, `signer.dfy`, `signed_url.dfy`,
`cloud.dfy`.

Four points where the code's behaviour is easy to misread:

- A private store refuses to sign when the token OR the extra value is empty
  (`cloud.go:278`), not only when the token is empty.
- A verifier might split the signature value at its last `.`. Base64 text
  contains no `.`, but an extra value may. So the reference reader splits
  at the first `.`.
  `SignedUrl.LastDotSplitMisreadsDottedExtra` shows that splitting at the
  last `.` misreads any extra value that contains a `.`.
- The refresh never looks at the HTTP status (`cloud.go:138-164`).
  `GeneratePostFileRequest` does check it (`cloud.go:226`), since `req.Do()`
  returns no error on a non-OK status. So an error answer such as a 401 whose
  JSON body holds none of the three fields decodes without error
  (`cloud.go:150`). It then replaces the triple with the empty one
  (`cloud.go:164`). A ready signer is cleared this way, and every private
  `SignedURL` after that fails with "not yet ready". In the model that answer
  is `Fetched(TokenResponse([], [], ZeroTime))`, and
  `Cloud.ErrorStatusBodyClearsSigner` states the consequence. Only a failed
  request or an undecodable body leaves the cached triple in place.
- The signing message has no separators, so it does not determine its
  fields. A tail of the asset name can be read as the head of the expiry
  text instead (`SignedUrl.SigningMessageShiftsName`). Concretely, asset
  `report2` expiring at 1700000000 and asset `report` expiring at
  21700000000 share one message (`SignedUrl.SigningMessageCollision`). So a
  digest issued for the first also signs the second, with an expiry in the
  year 2657.

## Model

| member | source | states |
|---|---|---|
| `Cloud.NewConfig` | pkg/core/asset/cloud/cloud.go:67-97 | On success the store keeps the given app name, host, auth token and flag. Its prefix is the public prefix when `public` holds and the private one otherwise, and it is never empty. |
| `Cloud.NewConfigReportsFirstFailedCheck` | pkg/core/asset/cloud/cloud.go:67-85 | Construction fails exactly when one of the five checks fails. It then reports the error of the first failing check, in the order app name, host, auth token, public prefix, private prefix. |
| `Cloud.NewConfigSucceedsIff` | pkg/core/asset/cloud/cloud.go:67-85 | Construction succeeds if and only if the app name, host and auth token are non-empty, and so is the prefix the `public` flag selects. |
| `Cloud.NewAssetStore` | pkg/core/asset/cloud/cloud.go:58-113 | Returns a fresh store exactly when validation succeeds, with the validated configuration and a signer holding the empty triple. Otherwise it returns the validation error and no store. |
| `Cloud.AssetStore.constructor` | pkg/core/asset/cloud/cloud.go:92-105 | The new store keeps the configuration and owns a fresh signer that holds no token yet. |
| `Signer.CloudStoreSigner.constructor` | pkg/core/asset/cloud/cloud.go:101-105 | A new signer holds the empty triple: no token, no extra, Go's zero time. |
| `Signer.CloudStoreSigner.Update` | pkg/core/asset/cloud/cloud.go:164 | The triple is replaced as a whole by the three given values. |
| `Cloud.AssetStore.RefreshSignerToken` | pkg/core/asset/cloud/cloud.go:115-165 | The signer's new triple is the old one after applying the outcome of the request this store sends at `now`. |
| `Cloud.Refreshed` | pkg/core/asset/cloud/cloud.go:138-164 | A failed request or an unparsable response leaves the triple unchanged. A fetched response replaces it with exactly its `Value`, `Extra` and `ExpiredAt`. |
| `Cloud.RefreshedAllKeepsLastFetched` | pkg/core/asset/cloud/cloud.go:138-164 | After any run of refreshes the triple is the whole triple of the last successful response, or the original triple if none succeeded. A failed request or an undecodable body never clears it, and the fields are never mixed across responses. |
| `Cloud.ErrorStatusBodyClearsSigner` | pkg/core/asset/cloud/cloud.go:138-164 | Take a private store whose signer is ready. One fetched response holding the empty triple, which is what an error status with no token fields decodes to, leaves the signer not ready, and signing then fails with "not yet ready". |
| `Cloud.TokenRequestFor` | pkg/core/asset/cloud/cloud.go:118-136 | The request asks for a token expiring at exactly `now` + 2 hours, which outlasts the 30-minute refresh period. It carries the header `Bearer ` ++ auth token and a 10-second timeout. |
| `Cloud.TokenRequestNamesApp` | pkg/core/asset/cloud/cloud.go:118-125 | The request path is `{host}/token/` followed by the escaped app name as a single final segment, which unescapes back to the app name. |
| `Cloud.SignedURLFor` | pkg/core/asset/cloud/cloud.go:252-308 | A public store returns exactly the unsigned URL, whatever the signer holds. A private store whose token or extra is empty fails with "not yet ready". The result is a URL exactly when the store is public or the signer is ready. |
| `Cloud.AssetStore.SignedURL` | pkg/core/asset/cloud/cloud.go:252-308 | The result is the signing function applied to the store's configuration and the signer's current triple. |
| `Cloud.Message` | pkg/core/asset/cloud/cloud.go:67-85 | The text of each error, as written at cloud.go:68-84, 170, 182, 284 and 323. No contract of its own; the refused-operation rows state their texts through it. |
| `Cloud.TargetURL` | pkg/core/asset/cloud/cloud.go:253-260 | Joins the prefix and the path-escaped app and asset names with `/`. No contract of its own; see `Cloud.TargetURLNamesAsset` and `Cloud.TargetURLInjective`. |
| `Cloud.PostFileRequestURL` | pkg/core/asset/cloud/cloud.go:192-200 | Joins the host, `asset` and the path-escaped app and asset names with `/`. No contract of its own; see `Cloud.PostFileRequestURLNamesAsset`. |
| `Cloud.SignedURLText` | pkg/core/asset/cloud/cloud.go:287-307 | For a private, ready store the signed URL is, byte for byte, the unsigned URL, `?`, `expired_at=` and the escaped decimal `now + 900`, `&signature=` and the escaped base64 HMAC digest followed by `.` and the extra value. |
| `Signer.CloudStoreSigner.Get` | pkg/core/asset/cloud/cloud.go:276 | Reads the current triple. No contract of its own; `Cloud.AssetStore.SignedURL` signs with what it returns, and `Update` and the constructor state what it returns afterwards. |
| `SignedUrl.SignedQuery` | pkg/core/asset/cloud/cloud.go:302-305 | `Values.Encode` of the two pairs `expired_at` and `signature`, in sorted key order. No contract of its own; see `SignedUrl.SignedQueryText`, `SignedUrl.SignedQueryKeysSorted` and `UrlValues.EncodeRoundTrip`. |
| `Hmac.Digest` | pkg/core/asset/cloud/cloud.go:290-296 | HMAC as RFC 2104 defines it over the hash parameter, with a 64-byte block, keyed by the signer token. A definition only, with no lemma about it. |
| `Cloud.SignedURLCarriesSignature` | pkg/core/asset/cloud/cloud.go:287-307 | For a private, ready store the URL reads back as four parts: the unsigned URL; expiry `now + 900`; the HMAC keyed by the token over `app ++ name ++ decimal(now+900) ++ extra`; and the extra value. |
| `Cloud.SignedURLVerifies` | pkg/core/asset/cloud/cloud.go:287-307 | A URL signed at `now` passes the reference check with the signer token at time `t` if and only if `t <= now + 900`. |
| `Cloud.SignedURLIgnoresTokenExpiry` | pkg/core/asset/cloud/cloud.go:276-285 | The signed URL does not depend on the token's own expiry. The store never checks it. |
| `Cloud.TargetURLNamesAsset` | pkg/core/asset/cloud/cloud.go:253-260 | The URL path ends in two segments that unescape to the app name and the asset name. A name holding `/` stays one segment. |
| `Cloud.TargetURLInjective` | pkg/core/asset/cloud/cloud.go:253-260 | Two different asset names of one store never get the same URL. |
| `Cloud.PostFileRequestURLNamesAsset` | pkg/core/asset/cloud/cloud.go:192-200 | The upload endpoint is `{host}/asset/` followed by the app name and the asset name, one escaped segment each. |
| `Cloud.AssetStore.IsSignatureRequired` | pkg/core/asset/cloud/cloud.go:311-313 | A signature is required if and only if the store is not public. |
| `Cloud.AssetStore.GetFileReader` | pkg/core/asset/cloud/cloud.go:168-172 | Always fails, with the error text "Directly getting files is not available for cloud-based asset store". |
| `Cloud.AssetStore.PutFileReader` | pkg/core/asset/cloud/cloud.go:175-184 | Always fails, with the error text "Directly uploading files is not available for cloud-based asset store". |
| `Cloud.AssetStore.ParseSignature` | pkg/core/asset/cloud/cloud.go:316-325 | Always returns `false` together with the error text "Asset signature parsing for cloud-based asset store is not available". |
| `SignedUrl.SigningMessage` | pkg/core/asset/cloud/cloud.go:290-294 | The HMAC message holds, in order and with no separator, the app name, the asset name, the expiry text and the extra value. Given the four field lengths, each field can be sliced back out at the offsets they determine. |
| `SignedUrl.SigningMessageShiftsName` | pkg/core/asset/cloud/cloud.go:290-294 | Moving a tail of the asset name to the front of the expiry text leaves the message unchanged, so the message alone does not determine its fields. |
| `SignedUrl.SigningMessageCollision` | pkg/core/asset/cloud/cloud.go:288-294 | Asset `report2` at expiry 1700000000 and asset `report` at expiry 21700000000 have the same signing message, since the decimal text of 21700000000 is `2` followed by that of 1700000000. |
| `SignedUrl.SignedQueryText` | pkg/core/asset/cloud/cloud.go:302-305 | The query is `expired_at=` ++ escaped expiry ++ `&signature=` ++ escaped signature, with `expired_at` first. |
| `SignedUrl.SignedQueryKeysSorted` | pkg/core/asset/cloud/cloud.go:302-305 | `expired_at` comes before `signature` in byte order, which is the order `Values.Encode` sorts its keys into. |
| `SignedUrl.ParseSigned` | pkg/core/asset/cloud/cloud.go:287-307 | From a URL in the signed format the reader recovers exactly the unsigned URL, the expiry, the raw digest and the extra value. |
| `SignedUrl.LastDotSplitMisreadsDottedExtra` | pkg/core/asset/cloud/cloud.go:297-300 | When the extra value contains a `.`, splitting the signature value at its last `.` does not give back the extra value. |
| `SignedUrl.PathNamesOfJoin` | pkg/core/asset/cloud/cloud.go:253-260 | Joining a prefix and two escaped names with `/` can be read back into the prefix and the two names. |
| `UrlEscape.PathEscapeIsOneSegment` | pkg/core/asset/cloud/cloud.go:256-257 | A path-escaped name holds no `/` and no `?`. |
| `UrlEscape.QueryEscapeAvoidsDelimiters` | pkg/core/asset/cloud/cloud.go:302-305 | A query-escaped value holds no `&`, `=` or `?`. |
| `UrlEscape.EscapeRoundTrip` | pkg/core/asset/cloud/cloud.go:256-257 | In both path-segment and query mode, unescaping the escaped text gives back exactly the original text. |
| `UrlEscape.PathEscapeInjective` | pkg/core/asset/cloud/cloud.go:256-257 | Different names never escape to the same segment. |
| `UrlEscape.PathEscapeExample` | pkg/core/asset/cloud/cloud.go:257 | The name `a b/c` becomes the single segment `a%20b%2Fc`. |
| `UrlValues.EncodeRoundTrip` | pkg/core/asset/cloud/cloud.go:302-305 | Reading an encoded query gives back exactly its key/value pairs, in order, for every list of pairs including the empty one. |
| `Base64.Encode` | pkg/core/asset/cloud/cloud.go:296 | The output has length 4·⌈n/3⌉ and holds only alphabet symbols and `=`. So it contains no `.`. |
| `Base64.EncodeRoundTrip` | pkg/core/asset/cloud/cloud.go:296 | Decoding gives back every byte string that was encoded. |
| `Decimal.FormatIntRoundTrip` | pkg/core/asset/cloud/cloud.go:288 | Reading the decimal text of an integer gives back the integer. |

## Left out

- Network I/O. `fetch` stands for the HTTP request and the JSON decoding of the refresh (`cloud.go:130-158`). The model keeps only the request's URI, its `expired_at`, its `Authorization` header and its timeout.
- The `GeneratePostFileRequest` exchange. Only its URL join is modelled (`Cloud.PostFileRequestURL`). The PUT request, the HTTP status check and the decoding of the response are not.
- Concurrency. The goroutine started by the constructor (`cloud.go:106`) is not modelled. Neither are the periodic timer and the mutex of `newCloudStoreSigner`, whose source is not part of this model. The signer is a plain triple with a blind-replace `Update`. So a new store starts with the empty triple and waits for an explicit `RefreshSignerToken`.
- `newCloudStoreSigner` is not part of this model. Its initial state is taken to be the empty triple, with Go's zero `time.Time`.
- SHA-256 is a parameter, not a definition. HMAC is built from it as RFC 2104 prescribes, with a 64-byte block, but no property of SHA-256 is used.
- `url.Parse` and `URL.String`. The model assumes that parsing the joined string succeeds and that `String()` gives it back, followed by `?` and the raw query when one is set. So the parse-error branch (`cloud.go:262-270`) is not modelled. Neither is the effect of a `?` or `#` inside the configured prefix.
- `Cloud.SignedURLFor`: does not model the 64-bit range of Go's Unix seconds. `now + 900` is computed on unbounded integers, because an overflow would need a clock near the year 292 billion.
- `Cloud.TokenResponse`: `ExpiredAt` is kept in whole seconds. Go's `time.Time` would also keep sub-second precision and a location.
- `UrlValues.Encode`: takes its pairs already in key order, where Go sorts the keys of a map. `SignedUrl.SignedQueryKeysSorted` shows that the order used, `expired_at` then `signature`, is the sorted one.
- `Decimal.ParseInt`: the bit-size limit of `strconv.ParseInt` is not modelled.
- `SignedUrl.ParseSignedURL`: the reference reader is lenient. It accepts base64 text whose discarded low bits are non-zero, and decimal expiries with leading zeros. So it fixes the four parts of a signed URL but not its bytes. The exact bytes are stated by `Cloud.SignedURLText` instead.
- Logging (`logrus`) has no functional content and is left out.
- The SSO login handler test is context only and holds no logic of this store.
