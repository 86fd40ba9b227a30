# Amazon Prime Gaming service of Lutris, modelled in Dafny

This project models the core of `lutris/services/amazon.py`: the logic by which Lutris
signs a user in to Amazon Prime Gaming, keeps the access token fresh, and imports the user's
game entitlements into the local library.

- **Device identity** (`client_id.dfy`). The client id is the lower-case hex encoding of the
  ASCII bytes of the device serial followed by `#A2UMVHOX7UP4V7`. It is proved to decode
  back to that string and to be injective.
- **Credentials** (`credentials.dfy`). The stored user document is a value. The expiry test
  fails open on a falsy obtain time or lifetime and compares strictly. The refresh replaces
  exactly the access token, its lifetime and the obtain time. Login stamps the registration
  result with the current time.
- **Entitlement sync** (`sync_protocol.dfy`). Request bodies and the cursor-paginated loop of
  `get_library` are modelled as a method with loop invariants (`FetchPages`). It is proved
  against a specification: the stopping page, the threaded cursors, the in-order
  concatenation, and what a failed page does.
- **Game records** (`games.dfy`). An entitlement maps to a game with `appid = str(id)` and
  `name = product.title`. The whole library maps in order, or not at all.
- **Login helpers** (`login.dfy`). `str.find` and the callback's test on the marker. The
  sign-in query arguments.
- **The service object** (`service.dfy`). A class whose fields are the login-attempt state,
  the `is_loading` guard, the credential file, the library cache file, and logs of the HTTP
  calls made, games saved and login events emitted. Each HTTP answer is a method parameter
  (`None` means a failed call; "## Left out" says, endpoint by endpoint, what that
  covers). The log makes "no request was made" a statable fact.

## Model

| member | source | states |
|---|---|---|
| `ClientIdentity.ClientId` | lutris/services/amazon.py:198-203 | the client id is twice as long as the serial plus 15 and consists of lower-case hex digits only |
| `ClientIdentity.ClientIdRoundTrip` | lutris/services/amazon.py:198-203 | hex-decoding the client id gives the ASCII bytes of serial + `#A2UMVHOX7UP4V7`, and ASCII-decoding those gives that string back |
| `ClientIdentity.ClientIdInjective` | lutris/services/amazon.py:198-203 | two serials with the same client id are equal |
| `ClientIdentity.HexEncode` | lutris/services/amazon.py:201 | `bytes.hex()` writes two lower-case hex digits per byte |
| `ClientIdentity.HexRoundTrip` | lutris/services/amazon.py:201 | hex-decoding the hex encoding of any byte string gives it back |
| `ClientIdentity.AsciiRoundTrip` | lutris/services/amazon.py:200 | ASCII-decoding the ASCII encoding of an ASCII string gives it back |
| `ClientIdentity.DeviceSerialClientId` | lutris/services/amazon.py:193-203 | a 32-digit upper-case hex device serial always encodes, and its client id is 94 characters long |
| `Credentials.IsTokenExpired` | lutris/services/amazon.py:248-257 | not expired when the obtain time or the lifetime is null or zero; otherwise expired iff now > obtain time + lifetime |
| `Credentials.ExpiryIsMonotonic` | lutris/services/amazon.py:257 | once expired, a token stays expired at every later time |
| `Credentials.ExpiryBoundary` | lutris/services/amazon.py:257 | at exactly obtain time + lifetime the token is still valid; one second later it is expired |
| `Credentials.Refreshed` | lutris/services/amazon.py:284-297 | on failure the document is unchanged; on success the access token and lifetime come from the answer, the obtain time is now, and putting those three back yields the old document |
| `Credentials.RefreshKeepsLongLivedState` | lutris/services/amazon.py:273-297 | a refresh never changes the refresh token, the `mac_dms` tokens or the extensions |
| `Credentials.RefreshIfExpired` | lutris/services/amazon.py:304-305 | the document changes only when the token was expired and the refresh answered; then the new access token is the answer's and the obtain time is now; the refresh token and extensions always stay |
| `Credentials.RefreshIfExpiredLeavesValidToken` | lutris/services/amazon.py:339-340 | after "refresh if expired" with a successful answer of non-negative lifetime, the token is not expired at that moment |
| `Credentials.Stamped` | lutris/services/amazon.py:136 | the saved document is the registration's tokens and extensions with `token_obtain_time = now` |
| `Credentials.StampedTokenValidUntilExpiry` | lutris/services/amazon.py:136 | right after login the token is valid until its whole lifetime has passed |
| `SyncProtocol.SyncRequestData` | lutris/services/amazon.py:376-388 | each body asks for GetEntitlementsV2 with client id `Sonic`, 50 results, the fixed key id, the given cursor and the given serial |
| `SyncProtocol.StopIndex` | lutris/services/amazon.py:349-366 | the loop leaves at the first page that is falsy, lacks `entitlements` or lacks the `nextToken` key; every earlier page continued |
| `SyncProtocol.StopIndexAt` | lutris/services/amazon.py:360-366 | any page that does not continue, after pages that all did, is the stopping page |
| `SyncProtocol.RequestBodies` | lutris/services/amazon.py:347-369 | one body per page up to the stopping one; the first with a null cursor, each later one with the previous page's `nextToken` |
| `SyncProtocol.CursorThreading` | lutris/services/amazon.py:347-369 | one request per page up to the stopping one; the first carries a null cursor and each later one the previous page's `nextToken`; all have 50 results and client id `Sonic` |
| `SyncProtocol.Gathered` | lutris/services/amazon.py:347-363 | the accumulated list holds exactly the pages' entitlements: every one of them, and nothing else |
| `SyncProtocol.GatheredAppend` | lutris/services/amazon.py:363 | accumulating two runs of pages gives the concatenation of their entitlements |
| `SyncProtocol.GatheredKeepsOrder` | lutris/services/amazon.py:363 | page j's entitlements follow the earlier pages' entitlements in the accumulated list |
| `SyncProtocol.PageOutcome` | lutris/services/amazon.py:347-374 | no library iff the stopping page is falsy; an exception iff it lacks `entitlements`; otherwise the stopping page lacks `nextToken` and the result is every page's entitlements up to it, in order |
| `SyncProtocol.FailedPageDiscards` | lutris/services/amazon.py:360-361 | a falsy page after continuing pages gives no library: earlier pages' entitlements are discarded |
| `SyncProtocol.CompleteListing` | lutris/services/amazon.py:363-374 | a page with entitlements and no `nextToken`, after continuing pages, completes the listing with all pages' entitlements in order |
| `SyncProtocol.ThreePageListing` | lutris/services/amazon.py:347-374 | three pages with cursors on the first two give one combined list in order, requested with cursors null, t1, t2 |
| `SyncProtocol.FetchPages` | lutris/services/amazon.py:347-370 | the loop ends with the outcome the stopping page decides and has sent exactly the request bodies of the cursor protocol |
| `Games.Digits` | lutris/services/amazon.py:43 | the decimal form of a number is digits only, with no leading zero unless it is "0", and starts with '0' only for zero |
| `Games.DigitsRoundTrip` | lutris/services/amazon.py:43 | reading back the decimal form of a number gives the number |
| `Games.IdString` | lutris/services/amazon.py:43 | `str(id)` is the text of a string id; for a numeric id it is a canonical decimal numeral (digits only, no leading zero), preceded by '-' when negative, that reads back as the number |
| `Games.NewFromAmazonGame` | lutris/services/amazon.py:40-47 | a record maps iff it has an id and a product title; then appid = str(id), name = title, slug = slugify(title), details = dumps(record) |
| `Games.MapGames` | lutris/services/amazon.py:162 | the library maps iff every record maps; then one game per entitlement, same order, with appid = str(id) and name = title |
| `Login.Find` | lutris/services/amazon.py:124 | `str.find` returns the first index where the pattern occurs, or -1 iff it occurs nowhere |
| `Login.AuthCodeTestMeaning` | lutris/services/amazon.py:124 | the callback proceeds iff the marker occurs at some positive index and not at index 0 |
| `Login.SigninArguments` | lutris/services/amazon.py:100-117 | sixteen arguments, with `openid.oa2.client_id` = `device:` + client id, `openid.oa2.code_challenge` = the challenge, and the fixed marketplace id |
| `Login.SigninNamesDevice` | lutris/services/amazon.py:109 | the sign-in arguments name the client as `device:` followed by the client id |
| `Login.SigninCarriesChallenge` | lutris/services/amazon.py:108-116 | the sign-in arguments carry the code challenge and the method S256 |
| `Service.RefreshCalls` | lutris/services/amazon.py:339-340 | "refresh if expired" calls the token endpoint, with the stored refresh token, iff the token is expired |
| `Service.SyncCalls` | lutris/services/amazon.py:352-358 | one sync call per body, in order, each authenticated by the same access token |
| `Service.FetchLibrary` | lutris/services/amazon.py:332-374 | a cached library is returned unchanged with no token check and no request; only a complete listing is cached, and exactly that listing; the credentials change only by "refresh if expired" |
| `Service.FailedSyncLeavesNoCache` | lutris/services/amazon.py:360-361 | without a cache, a failed page gives no library and writes no cache |
| `Service.SecondFetchServedFromCache` | lutris/services/amazon.py:334-337 | after a successful fetch, the next one returns the same list from the cache with no request |
| `Service.LoadedGames` | lutris/services/amazon.py:161-167 | no games unless the fetch gave a library; then games iff every entitlement maps, one game per entitlement |
| `Service.AmazonService.IsAuthenticated` | lutris/services/amazon.py:86-88 | authenticated iff the credential file (the only credential file) exists |
| `Service.AmazonService.constructor` | lutris/services/amazon.py:71-83 | no login attempt is in flight, the loading flag is down, and the files hold what was stored |
| `Service.AmazonService.LoginUrl` | lutris/services/amazon.py:90-119 | sets verifier, serial and client id = ClientId(serial) together, and returns the sign-in arguments for that client id and the verifier's challenge |
| `Service.AmazonService.RegisterDevice` | lutris/services/amazon.py:205-246 | sends the code with the attempt's client id, verifier and serial, and returns the registration answer |
| `Service.AmazonService.LoginCallback` | lutris/services/amazon.py:121-140 | nothing happens unless the marker is at a positive index and a code is present; then registration is requested; only a successful answer is saved, stamped with now, and emits a login event |
| `Service.AmazonService.RefreshToken` | lutris/services/amazon.py:259-299 | calls the token endpoint with the stored refresh token; the stored document becomes `Refreshed` of the old one |
| `Service.AmazonService.GetProfileData` | lutris/services/amazon.py:301-330 | refresh if expired, then one profile request with the current access token; returns the answer |
| `Service.AmazonService.IsConnected` | lutris/services/amazon.py:142-150 | connected iff credentials exist and the profile answers; without credentials no request is made |
| `Service.AmazonService.GetLibrary` | lutris/services/amazon.py:332-374 | the result, credentials, cache and calls made are those of `FetchLibrary` |
| `Service.AmazonService.SaveGames` | lutris/services/amazon.py:163-164 | every game is saved, in order |
| `Service.AmazonService.Load` | lutris/services/amazon.py:152-170 | while already loading, or without credentials, returns None and changes nothing; otherwise fetches the library, returns its mapping (None on any failure), saves exactly the returned games, and leaves the flag down |

## Left out

- HTTP transport: request headers, endpoint URLs, JSON encoding of bodies and `HTTPError`
  are not modelled. Each call is a `Call` value in the request log. Its answer is a
  parameter, and what `None` stands for depends on the endpoint:
  - token endpoint (`RefreshToken`): a transport failure only;
  - device registration (`RegisterDevice`): a transport failure, or a falsy
    `response.success` object;
  - profile and entitlement sync: a transport failure, or a falsy (empty) body.
- `Service.AmazonService.RefreshToken`: an answer without `access_token` or `expires_in`,
  an empty body included, raises `KeyError` in the source. The model does not capture this
  raise; every `Some` answer carries both fields.
- `Service.AmazonService.RegisterDevice`: an answer without `response.success`, an empty
  body included, raises `KeyError` in the source. The model does not capture this raise.
- File I/O (`open`, `json.load`, `json.dump`, `system.path_exists`) is not modelled. The
  credential file and the library cache are optional fields. Saving and loading a document
  is the identity on its value, so the serialisation round trip holds by construction.
- A credential file or server answer that lacks a key the code indexes (`tokens`,
  `extensions`, `token_obtain_time`) raises `KeyError` in the source. The model's records always carry those keys. The one exception is a sync
  page without `entitlements`, which is modelled as the outcome `Raised`.
- Randomness, hashing and encodings are not modelled: `secrets.token_bytes`,
  `base64.urlsafe_b64encode`, `hashlib.sha256`, `uuid.getnode`. The verifier, the challenge
  function and the device serial are parameters of `LoginUrl`. The sync body's
  `hardwareHash` is represented by the serial it is computed from.
- `urlencode`, `urlparse` and `parse_qs` are not modelled. `LoginUrl` returns the query
  arguments, not the encoded URL. `LoginCallback` takes the parsed code as a parameter
  (`None` when the query lacks it, where the source raises `KeyError`).
- `slugify` and `json.dumps` are function parameters of `Load`.
- Time: `time.time()` returns a float. The model uses whole seconds as an integer `now`.
  `int(expires_in)` of a string is not modelled either: lifetimes are integers or null.
- `Service.AmazonService.Load`: an exception raised by `game.save()` is not modelled; saving
  always succeeds.
- `SyncProtocol.FetchPages`: a server that never ends the listing is not modelled (the
  source would loop forever). The callers require `EndsListing`, which says that some page
  stops the loop.
- `ClientIdentity.ClientId`: requires an ASCII serial, because `encode("ascii")` raises on
  any other. Serials from `generate_device_serial` are always ASCII (`DeviceSerialClientId`).
- `Service.AmazonService.LoginCallback`: requires that a login attempt is in flight when a
  code arrives, because `self.verifier.decode` raises on `None`.
- Entitlement ids other than JSON strings and integers (floats, booleans) are not modelled.
- `is_authenticated` lives in the base class, which is not part of this model. It is taken
  to mean that the credential file (`credential_files`, lines 86-88) exists.
- `AmazonBanner`, the cookie path, logging and the multi-threaded use of `is_loading` are
  not modelled. `is_loading` is a sequential re-entrancy guard, and `emit("service-login")`
  is a counter.

Three behaviours of the code a reader may not expect; the model keeps each:

- Expiry: a missing `token_obtain_time` or `expires_in` key raises. The expiry test fails
  open only when a value is null or zero.
- Pagination continues whenever the `nextToken` key is present, even with a null value. The
  next request then carries a null cursor.
- The callback also aborts when the marker stands at index 0 of the URL (`find(...) > 0`).
