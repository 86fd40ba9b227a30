/** The pieces of the login flow that are plain values: the query arguments of the sign-in
    URL built by `login_url`, and the test `login_callback` applies to the redirect URL. */
module Login {
  import opened Wrappers

  const MarketplaceId: string := "ATVPDKIKX0DER"

  /** The query parameter whose presence marks a completed sign-in. */
  const AuthCodeMarker: string := "openid.oa2.authorization_code"

  predicate OccursAt(s: string, pattern: string, j: int)
  {
    0 <= j && j + |pattern| <= |s| && s[j..j + |pattern|] == pattern
  }

  function FindFrom(s: string, pattern: string, k: nat): (i: int)
    requires k <= |s|
    requires forall j :: 0 <= j < k ==> !OccursAt(s, pattern, j)
    ensures i == -1 || (k <= i && OccursAt(s, pattern, i))
    ensures forall j :: 0 <= j < (if i == -1 then |s| + 1 else i) ==> !OccursAt(s, pattern, j)
    decreases |s| - k
  {
    if OccursAt(s, pattern, k) then k
    else if k == |s| then -1
    else FindFrom(s, pattern, k + 1)
  }

  /** `str.find`: the index of the first occurrence of `pattern` in `s`, or -1. */
  function Find(s: string, pattern: string): (i: int)
    ensures i == -1 || OccursAt(s, pattern, i)
    ensures forall j :: 0 <= j < i ==> !OccursAt(s, pattern, j)
    ensures i == -1 <==> forall j :: 0 <= j <= |s| ==> !OccursAt(s, pattern, j)
  {
    FindFrom(s, pattern, 0)
  }

  /** `url.find(marker) > 0`: the marker occurs somewhere after the first character and not
      at the very start (a URL that begins with it is rejected). */
  lemma AuthCodeTestMeaning(url: string)
    ensures Find(url, AuthCodeMarker) > 0 <==>
              !OccursAt(url, AuthCodeMarker, 0) && exists j :: 0 < j && OccursAt(url, AuthCodeMarker, j)
  {
    var i := Find(url, AuthCodeMarker);
    if !OccursAt(url, AuthCodeMarker, 0) && exists j :: 0 < j && OccursAt(url, AuthCodeMarker, j) {
      var j :| 0 < j && OccursAt(url, AuthCodeMarker, j);
      assert j <= |url|;
      assert i != -1;
      assert i != 0;
    }
  }

  /** The sign-in query arguments of `login_url`, in order, before URL encoding. */
  function SigninArguments(clientId: string, challenge: string): (args: seq<(string, string)>)
    ensures |args| == 16
    ensures args[8] == ("openid.oa2.client_id", "device:" + clientId)
    ensures args[15] == ("openid.oa2.code_challenge", challenge)
    ensures args[10] == ("marketPlaceId", MarketplaceId)
  {
    [ ("openid.ns", "http://specs.openid.net/auth/2.0"),
      ("openid.claimed_id", "http://specs.openid.net/auth/2.0/identifier_select"),
      ("openid.identity", "http://specs.openid.net/auth/2.0/identifier_select"),
      ("openid.mode", "checkid_setup"),
      ("openid.oa2.scope", "device_auth_access"),
      ("openid.ns.oa2", "http://www.amazon.com/ap/ext/oauth/2"),
      ("openid.oa2.response_type", "code"),
      ("openid.oa2.code_challenge_method", "S256"),
      ("openid.oa2.client_id", "device:" + clientId),
      ("language", "en_US"),
      ("marketPlaceId", MarketplaceId),
      ("openid.return_to", "https://www.amazon.com"),
      ("openid.pape.max_auth_age", "0"),
      ("openid.assoc_handle", "amzn_sonic_games_launcher"),
      ("pageId", "amzn_sonic_games_launcher"),
      ("openid.oa2.code_challenge", challenge) ]
  }

  /** The value of the first argument named `key`. */
  function Lookup(args: seq<(string, string)>, key: string): (r: Option<string>)
    ensures r.None? <==> forall i :: 0 <= i < |args| ==> args[i].0 != key
    ensures r.Some? ==> (key, r.value) in args
  {
    if args == [] then None
    else if args[0].0 == key then Some(args[0].1)
    else Lookup(args[1..], key)
  }

  /** A key that no earlier argument has is looked up to its own value. */
  lemma {:induction false} LookupFirstKey(args: seq<(string, string)>, i: nat)
    requires i < |args|
    requires forall j :: 0 <= j < i ==> args[j].0 != args[i].0
    ensures Lookup(args, args[i].0) == Some(args[i].1)
  {
    if i > 0 {
      LookupFirstKey(args[1..], i - 1);
    }
  }

  /** The sign-in URL names the device by `device:` followed by its client id. */
  lemma SigninNamesDevice(clientId: string, challenge: string)
    ensures Lookup(SigninArguments(clientId, challenge), "openid.oa2.client_id") == Some("device:" + clientId)
  {
    LookupFirstKey(SigninArguments(clientId, challenge), 8);
  }

  /** The sign-in URL carries the challenge, to be checked by S256 at code exchange. */
  lemma SigninCarriesChallenge(clientId: string, challenge: string)
    ensures Lookup(SigninArguments(clientId, challenge), "openid.oa2.code_challenge") == Some(challenge)
    ensures Lookup(SigninArguments(clientId, challenge), "openid.oa2.code_challenge_method") == Some("S256")
  {
    var args := SigninArguments(clientId, challenge);
    LookupFirstKey(args, 15);
    LookupFirstKey(args, 7);
  }
}
