/** The stored credentials (`.amazon.user`) and the rules that read and update them:
    `is_token_expired`, the in-place update of `refresh_token`, and the time stamp
    `login_callback` adds to a registration result. */
module Credentials {
  import opened Wrappers

  /** A JSON number that may be null (`None`). Times are whole epoch seconds. */
  type Num = Option<int>

  /** Python truthiness of such a value: null and zero are false. */
  predicate Falsy(x: Num)
  {
    x.None? || x.value == 0
  }

  /** `tokens.bearer` */
  datatype Bearer = Bearer(accessToken: string, refreshToken: string, expiresIn: Num)

  /** `tokens`; the `mac_dms` token bundle is carried along untouched. */
  datatype Tokens = Tokens(bearer: Bearer, macDms: map<string, string>)

  /** `extensions`: `device_info.device_serial_number` and the rest, carried along untouched. */
  datatype Extensions = Extensions(deviceSerialNumber: string, customerInfo: map<string, string>)

  /** `response.success` of a device registration. */
  datatype Registration = Registration(tokens: Tokens, extensions: Extensions)

  /** The stored credential document. */
  datatype UserData = UserData(tokens: Tokens, extensions: Extensions, tokenObtainTime: Num)

  /** Body of a successful answer from the token endpoint. */
  datatype TokenResponse = TokenResponse(accessToken: string, expiresIn: Num)

  /** `is_token_expired`: fails open when either the obtain time or the lifetime is falsy;
      otherwise expired only strictly after `token_obtain_time + expires_in`. */
  function IsTokenExpired(u: UserData, now: int): (expired: bool)
    ensures Falsy(u.tokenObtainTime) || Falsy(u.tokens.bearer.expiresIn) ==> !expired
    ensures !Falsy(u.tokenObtainTime) && !Falsy(u.tokens.bearer.expiresIn) ==>
              (expired <==> now > u.tokenObtainTime.value + u.tokens.bearer.expiresIn.value)
  {
    var obtained := u.tokenObtainTime;
    var lifetime := u.tokens.bearer.expiresIn;
    if Falsy(obtained) || Falsy(lifetime) then false
    else now > obtained.value + lifetime.value
  }

  /** Once expired, a token stays expired as time goes on. */
  lemma ExpiryIsMonotonic(u: UserData, now: int, later: int)
    requires now <= later
    requires IsTokenExpired(u, now)
    ensures IsTokenExpired(u, later)
  {
  }

  /** The last second of the window still counts as valid; the next one does not. */
  lemma ExpiryBoundary(u: UserData)
    requires !Falsy(u.tokenObtainTime) && !Falsy(u.tokens.bearer.expiresIn)
    ensures !IsTokenExpired(u, u.tokenObtainTime.value + u.tokens.bearer.expiresIn.value)
    ensures IsTokenExpired(u, u.tokenObtainTime.value + u.tokens.bearer.expiresIn.value + 1)
  {
  }

  /** The in-place update `refresh_token` makes before saving: on a successful answer the
      access token and its lifetime are replaced and the obtain time becomes `now`; on a
      transport failure nothing changes. */
  function Refreshed(u: UserData, response: Option<TokenResponse>, now: int): (r: UserData)
    ensures response.None? ==> r == u
    ensures response.Some? ==>
              r.tokens.bearer.accessToken == response.value.accessToken &&
              r.tokens.bearer.expiresIn == response.value.expiresIn &&
              r.tokenObtainTime == Some(now)
    // putting the three refreshed fields back gives the old document: nothing else changed
    ensures r.(tokens := r.tokens.(bearer := r.tokens.bearer.(accessToken := u.tokens.bearer.accessToken,
                                                            expiresIn := u.tokens.bearer.expiresIn)),
               tokenObtainTime := u.tokenObtainTime) == u
  {
    match response
    case None => u
    case Some(answer) =>
      var bearer := u.tokens.bearer.(accessToken := answer.accessToken, expiresIn := answer.expiresIn);
      u.(tokens := u.tokens.(bearer := bearer), tokenObtainTime := Some(now))
  }

  /** The refresh credential is never rotated, and the extensions are kept. */
  lemma RefreshKeepsLongLivedState(u: UserData, response: Option<TokenResponse>, now: int)
    ensures Refreshed(u, response, now).tokens.bearer.refreshToken == u.tokens.bearer.refreshToken
    ensures Refreshed(u, response, now).extensions == u.extensions
    ensures Refreshed(u, response, now).tokens.macDms == u.tokens.macDms
  {
    var r := Refreshed(u, response, now);
    assert r.(tokens := r.tokens.(bearer := r.tokens.bearer.(accessToken := u.tokens.bearer.accessToken,
                                                           expiresIn := u.tokens.bearer.expiresIn)),
              tokenObtainTime := u.tokenObtainTime) == u;
  }

  /** The "refresh if expired" step every authenticated call makes first. */
  function RefreshIfExpired(u: UserData, response: Option<TokenResponse>, now: int): (r: UserData)
    // the document changes only when the token was expired and the refresh answered
    ensures r != u ==> IsTokenExpired(u, now) && response.Some? && r.tokenObtainTime == Some(now)
    ensures IsTokenExpired(u, now) && response.Some? ==> r.tokens.bearer.accessToken == response.value.accessToken
    ensures r.tokens.bearer.refreshToken == u.tokens.bearer.refreshToken && r.extensions == u.extensions
  {
    if IsTokenExpired(u, now) then Refreshed(u, response, now) else u
  }

  /** After "refresh if expired" with a successful answer whose lifetime is not negative,
      the token is not expired at that moment (time zero is falsy, hence `now != 0`). */
  lemma RefreshIfExpiredLeavesValidToken(u: UserData, answer: TokenResponse, now: int)
    requires now != 0
    requires answer.expiresIn.None? || answer.expiresIn.value >= 0
    ensures !IsTokenExpired(RefreshIfExpired(u, Some(answer), now), now)
  {
    if IsTokenExpired(u, now) {
      var r := Refreshed(u, Some(answer), now);
      assert r.tokenObtainTime == Some(now) && r.tokens.bearer.expiresIn == answer.expiresIn;
    }
  }

  /** `login_callback`'s stamp: the registration result plus `token_obtain_time = now`. */
  function Stamped(registration: Registration, now: int): (u: UserData)
    ensures u.tokens == registration.tokens && u.extensions == registration.extensions
    ensures u.tokenObtainTime == Some(now)
  {
    UserData(registration.tokens, registration.extensions, Some(now))
  }

  /** Right after login the new token is valid for its whole lifetime. */
  lemma StampedTokenValidUntilExpiry(registration: Registration, now: int, later: int)
    requires now != 0
    requires registration.tokens.bearer.expiresIn.Some?
    requires now <= later <= now + registration.tokens.bearer.expiresIn.value
    ensures !IsTokenExpired(Stamped(registration, now), later)
  {
  }
}
