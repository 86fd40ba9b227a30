/** `AmazonService`: the service object whose methods sequence the login flow, the token
    lifecycle and the library sync. The credential file and the library cache file are the
    fields `userData` and `libraryCache`; every HTTP call the service makes is appended to
    `requestLog`, and each call's answer comes in as a parameter. */
module Service {
  import opened Wrappers
  import opened ClientIdentity
  import opened Credentials
  import opened SyncProtocol
  import opened Games
  import opened Login

  /** The HTTP calls of the service, with what they send. */
  datatype Call =
    | Register(code: string, clientId: Option<string>, verifier: string, serial: Option<string>)
    | RefreshAccess(refreshToken: string)
    | FetchProfile(accessToken: string)
    | SyncEntitlements(accessToken: string, body: SyncRequest)

  /** A non-empty profile document. */
  datatype Profile = Profile(fields: map<string, string>)

  /** The token-endpoint call "refresh if expired" makes, if any. */
  function RefreshCalls(u: UserData, now: int): (calls: seq<Call>)
    ensures calls == [] <==> !IsTokenExpired(u, now)
    ensures calls != [] ==> calls == [RefreshAccess(u.tokens.bearer.refreshToken)]
  {
    if IsTokenExpired(u, now) then [RefreshAccess(u.tokens.bearer.refreshToken)] else []
  }

  /** The sync calls carrying the given bodies, all authenticated by one access token. */
  function SyncCalls(accessToken: string, bodies: seq<SyncRequest>): (calls: seq<Call>)
    ensures |calls| == |bodies|
    ensures forall j :: 0 <= j < |bodies| ==> calls[j] == SyncEntitlements(accessToken, bodies[j])
  {
    seq(|bodies|, j requires 0 <= j < |bodies| => SyncEntitlements(accessToken, bodies[j]))
  }

  /** What one `get_library` call returns and leaves behind. */
  datatype LibraryStep = LibraryStep(
    outcome: LibraryOutcome,
    user: Option<UserData>,
    cache: Option<seq<Entitlement>>,
    calls: seq<Call>)

  /** `get_library` on values: the cache first; otherwise refresh if expired, then paginate
      with the (possibly refreshed) access token and the device serial of the credentials. */
  function FetchLibrary(cache: Option<seq<Entitlement>>, user: Option<UserData>,
                        refresh: Option<TokenResponse>, pages: seq<Option<SdsResponse>>, now: int)
    : (step: LibraryStep)
    requires cache.None? && user.Some? ==> EndsListing(pages)
    // a cached library is returned as it is: no token check, no refresh, no request
    ensures cache.Some? ==> step == LibraryStep(Library(cache.value), user, cache, [])
    // only a complete listing is written to the cache, and exactly that listing
    ensures step.cache != cache ==> step.outcome.Library? && step.cache == Some(step.outcome.entitlements)
    ensures cache.None? && step.outcome.Library? ==> step.cache == Some(step.outcome.entitlements)
    // the credentials change only by "refresh if expired"
    ensures step.user == if cache.None? && user.Some? then Some(RefreshIfExpired(user.value, refresh, now)) else user
  {
    if cache.Some? then LibraryStep(Library(cache.value), user, cache, [])
    else if user.None? then LibraryStep(Raised, user, cache, [])
    else
      var u := RefreshIfExpired(user.value, refresh, now);
      var outcome := PageOutcome(pages);
      var bodies := RequestBodies(u.extensions.deviceSerialNumber, pages);
      LibraryStep(outcome, Some(u),
                  if outcome.Library? then Some(outcome.entitlements) else cache,
                  RefreshCalls(user.value, now) + SyncCalls(u.tokens.bearer.accessToken, bodies))
  }

  /** Without a cache, a listing that fails on a page is not cached and returns nothing. */
  lemma FailedSyncLeavesNoCache(user: UserData, refresh: Option<TokenResponse>,
                                pages: seq<Option<SdsResponse>>, j: nat, now: int)
    requires j < |pages| && pages[j].None?
    requires forall i :: 0 <= i < j ==> Continues(pages[i])
    ensures EndsListing(pages)
    ensures FetchLibrary(None, Some(user), refresh, pages, now).outcome == NoLibrary
    ensures FetchLibrary(None, Some(user), refresh, pages, now).cache == None
  {
    FailedPageDiscards(pages, j);
  }

  /** A completed sync is served from the cache next time, with no request at all. */
  lemma SecondFetchServedFromCache(cache: Option<seq<Entitlement>>, user: Option<UserData>,
                                   refresh: Option<TokenResponse>, pages: seq<Option<SdsResponse>>,
                                   now: int, refresh': Option<TokenResponse>,
                                   pages': seq<Option<SdsResponse>>, now': int)
    requires cache.None? && user.Some? ==> EndsListing(pages)
    requires FetchLibrary(cache, user, refresh, pages, now).outcome.Library?
    ensures var step := FetchLibrary(cache, user, refresh, pages, now);
            FetchLibrary(step.cache, step.user, refresh', pages', now') ==
              LibraryStep(step.outcome, step.user, step.cache, [])
  {
  }

  /** The games `load` returns for what `get_library` gave: the mapped library, or `None`
      when there is no library or one of its records cannot be mapped. */
  function LoadedGames(library: LibraryOutcome, slugify: string -> string, dumps: Entitlement -> string)
    : (games: Option<seq<Game>>)
    ensures !library.Library? ==> games.None?
    ensures library.Library? ==>
              (games.Some? <==> forall i :: 0 <= i < |library.entitlements| ==> Mappable(library.entitlements[i]))
    ensures games.Some? ==> library.Library? && |games.value| == |library.entitlements|
  {
    if library.Library? then MapGames(library.entitlements, slugify, dumps) else None
  }

  class AmazonService {
    /** The login attempt in flight (`verifier`, `serial`, `client_id`). */
    var verifier: Option<string>
    var serial: Option<string>
    var clientId: Option<string>
    /** The re-entrancy guard of `load`. */
    var isLoading: bool
    /** The credential file; `None` when it does not exist. */
    var userData: Option<UserData>
    /** The library cache file; `None` when it does not exist. */
    var libraryCache: Option<seq<Entitlement>>
    /** Every HTTP call made so far, in order. */
    var requestLog: seq<Call>
    /** Every game record saved to the local library so far, in order. */
    var savedGames: seq<Game>
    /** How many times `service-login` was emitted. */
    var loginEvents: nat

    /** The three login-attempt fields are set together, and the client id is derived from
        the serial. */
    ghost predicate Valid()
      reads this`verifier, this`serial, this`clientId
    {
      verifier.Some? == serial.Some? && serial.Some? == clientId.Some? &&
      (serial.Some? ==> IsDeviceSerial(serial.value) && clientId.value == ClientId(serial.value))
    }

    /** `is_authenticated` of the base service: every credential file exists, and the only
        one is the user document. */
    predicate IsAuthenticated(): (authenticated: bool)
      reads this`userData
      ensures authenticated <==> userData.Some?
    {
      userData.Some?
    }

    constructor (storedUser: Option<UserData>, storedLibrary: Option<seq<Entitlement>>)
      ensures Valid()
      ensures verifier.None? && serial.None? && clientId.None? && !isLoading
      ensures userData == storedUser && libraryCache == storedLibrary
      ensures requestLog == [] && savedGames == [] && loginEvents == 0
    {
      verifier, serial, clientId := None, None, None;
      isLoading := false;
      userData, libraryCache := storedUser, storedLibrary;
      requestLog, savedGames, loginEvents := [], [], 0;
    }

    /** `login_url`: starts a new login attempt from a fresh verifier and the device serial,
        and returns the sign-in query arguments. The challenge is the digest of the verifier. */
    method LoginUrl(freshVerifier: string, challengeOf: string -> string, deviceSerial: string)
      returns (args: seq<(string, string)>)
      requires IsDeviceSerial(deviceSerial)
      modifies this`verifier, this`serial, this`clientId
      ensures Valid()
      ensures verifier == Some(freshVerifier) && serial == Some(deviceSerial)
      ensures clientId == Some(ClientId(deviceSerial))
      ensures args == SigninArguments(ClientId(deviceSerial), challengeOf(freshVerifier))
    {
      verifier := Some(freshVerifier);
      var challenge := challengeOf(verifier.value);
      serial := Some(deviceSerial);
      DeviceSerialClientId(deviceSerial);
      clientId := Some(ClientId(deviceSerial));
      args := SigninArguments(clientId.value, challenge);
    }

    /** `register_device`: exchanges the authorization code, sending the attempt's client id,
        verifier and serial. `registration` is the answer's `response.success` object, `None`
        on a transport failure or when that object is falsy. */
    method RegisterDevice(code: string, registration: Option<Registration>) returns (result: Option<Registration>)
      requires verifier.Some?
      modifies this`requestLog
      ensures requestLog == old(requestLog) + [Register(code, clientId, verifier.value, serial)]
      ensures result == registration
    {
      requestLog := requestLog + [Register(code, clientId, verifier.value, serial)];
      result := registration;
    }

    /** `login_callback`. `authCode` is the first value of the authorization-code query
        parameter of `url`, `None` when its query has none (the lookup then raises). */
    method LoginCallback(url: string, authCode: Option<string>, registration: Option<Registration>, now: int)
      requires Valid()
      requires Find(url, AuthCodeMarker) > 0 && authCode.Some? ==> verifier.Some?
      modifies this`userData, this`requestLog, this`loginEvents
      ensures Find(url, AuthCodeMarker) <= 0 || authCode.None? ==> unchanged(this)
      ensures Find(url, AuthCodeMarker) > 0 && authCode.Some? ==>
                requestLog == old(requestLog) +
                  [Register(authCode.value, Some(ClientId(serial.value)), verifier.value, serial)]
      ensures registration.None? ==> userData == old(userData) && loginEvents == old(loginEvents)
      ensures Find(url, AuthCodeMarker) > 0 && authCode.Some? && registration.Some? ==>
                userData == Some(Stamped(registration.value, now)) && loginEvents == old(loginEvents) + 1
    {
      if Find(url, AuthCodeMarker) > 0 {
        if authCode.None? {
          return;
        }
        var result := RegisterDevice(authCode.value, registration);
        if result.None? {
          return;
        }
        userData := Some(Stamped(result.value, now));
        loginEvents := loginEvents + 1;
      }
    }

    /** `refresh_token`: asks the token endpoint for a new access token with the stored
        refresh token, and stores the answer (or nothing, on a transport failure). */
    method RefreshToken(response: Option<TokenResponse>, now: int)
      requires userData.Some?
      modifies this`userData, this`requestLog
      ensures userData == Some(Refreshed(old(userData).value, response, now))
      ensures requestLog == old(requestLog) + [RefreshAccess(old(userData).value.tokens.bearer.refreshToken)]
    {
      var user := userData.value;
      requestLog := requestLog + [RefreshAccess(user.tokens.bearer.refreshToken)];
      userData := Some(Refreshed(user, response, now));
    }

    /** `get_profile_data`: refresh if expired, then fetch the profile with the access token. */
    method GetProfileData(refresh: Option<TokenResponse>, profile: Option<Profile>, now: int)
      returns (data: Option<Profile>)
      requires userData.Some?
      modifies this`userData, this`requestLog
      ensures data == profile
      ensures userData == Some(RefreshIfExpired(old(userData).value, refresh, now))
      ensures requestLog == old(requestLog) + RefreshCalls(old(userData).value, now) +
                [FetchProfile(userData.value.tokens.bearer.accessToken)]
    {
      if IsTokenExpired(userData.value, now) {
        RefreshToken(refresh, now);
      }
      requestLog := requestLog + [FetchProfile(userData.value.tokens.bearer.accessToken)];
      data := profile;
    }

    /** `is_connected`: authenticated, and the profile fetch answers. */
    method IsConnected(refresh: Option<TokenResponse>, profile: Option<Profile>, now: int)
      returns (connected: bool)
      modifies this`userData, this`requestLog
      ensures connected <==> old(userData).Some? && profile.Some?
      ensures old(userData).None? ==> userData == old(userData) && requestLog == old(requestLog)
      ensures old(userData).Some? ==>
                userData == Some(RefreshIfExpired(old(userData).value, refresh, now)) &&
                requestLog == old(requestLog) + RefreshCalls(old(userData).value, now) +
                  [FetchProfile(userData.value.tokens.bearer.accessToken)]
    {
      if !IsAuthenticated() {
        return false;
      }
      var data := GetProfileData(refresh, profile, now);
      if data.None? {
        return false;
      }
      return true;
    }

    /** `get_library`: see `FetchLibrary` for what it returns and leaves behind. */
    method GetLibrary(refresh: Option<TokenResponse>, pages: seq<Option<SdsResponse>>, now: int)
      returns (result: LibraryOutcome)
      requires libraryCache.None? && userData.Some? ==> EndsListing(pages)
      modifies this`userData, this`libraryCache, this`requestLog
      ensures var step := FetchLibrary(old(libraryCache), old(userData), refresh, pages, now);
              result == step.outcome && userData == step.user && libraryCache == step.cache &&
              requestLog == old(requestLog) + step.calls
    {
      if libraryCache.Some? {
        return Library(libraryCache.value);
      }
      if userData.None? {
        return Raised;
      }
      ghost var stored := userData.value;
      ghost var step := FetchLibrary(None, userData, refresh, pages, now);
      if IsTokenExpired(userData.value, now) {
        RefreshToken(refresh, now);
      }
      assert requestLog == old(requestLog) + RefreshCalls(stored, now);
      var user := userData.value;
      assert user == RefreshIfExpired(stored, refresh, now);
      var accessToken := user.tokens.bearer.accessToken;
      var deviceSerial := user.extensions.deviceSerialNumber;
      var outcome, bodies := FetchPages(deviceSerial, pages);
      assert step.calls == RefreshCalls(stored, now) + SyncCalls(accessToken, bodies);
      assert step.outcome == outcome && step.user == userData;
      assert step.cache == if outcome.Library? then Some(outcome.entitlements) else None;
      requestLog := requestLog + SyncCalls(accessToken, bodies);
      if outcome.Library? {
        libraryCache := Some(outcome.entitlements);
      }
      result := outcome;
    }

    /** The `for game in games: game.save()` loop of `load`: saves each record, in order. */
    method SaveGames(games: seq<Game>)
      modifies this`savedGames
      ensures savedGames == old(savedGames) + games
    {
      var i := 0;
      while i < |games|
        invariant 0 <= i <= |games|
        invariant savedGames == old(savedGames) + games[..i]
      {
        savedGames := savedGames + [games[i]];
        i := i + 1;
      }
      assert games[..|games|] == games;
    }

    /** `load`: guarded against re-entry; maps the library to game records, saves each one
        in order, and turns every failure into `None`. The guard is cleared on the way out. */
    method Load(refresh: Option<TokenResponse>, pages: seq<Option<SdsResponse>>, now: int,
                slugify: string -> string, dumps: Entitlement -> string)
      returns (games: Option<seq<Game>>)
      requires !isLoading && userData.Some? && libraryCache.None? ==> EndsListing(pages)
      modifies this`isLoading, this`userData, this`libraryCache, this`requestLog, this`savedGames
      ensures old(isLoading) || old(userData).None? ==> games.None? && unchanged(this)
      ensures !old(isLoading) && old(userData).Some? ==>
                var step := FetchLibrary(old(libraryCache), old(userData), refresh, pages, now);
                !isLoading &&
                userData == step.user && libraryCache == step.cache &&
                requestLog == old(requestLog) + step.calls &&
                games == LoadedGames(step.outcome, slugify, dumps)
      ensures savedGames == old(savedGames) + (if games.Some? then games.value else [])
    {
      if isLoading {
        return None;
      }
      if !IsAuthenticated() {
        return None;
      }
      isLoading := true;
      var library := GetLibrary(refresh, pages, now);
      games := LoadedGames(library, slugify, dumps);
      if games.Some? {
        SaveGames(games.value);
      }
      isLoading := false;
    }
  }
}
