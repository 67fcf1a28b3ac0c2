/** The OAuth2 client-credentials credential monitor: token-endpoint
    resolution (a static TOKEN_URL, a cached endpoint with a jittered
    lifetime, or OpenID Connect Discovery 1.0 section 4) and one refresh
    attempt (the client-credentials grant of section 4.4 of RFC 6749 and the
    response checks of its section 5.1). The network, the clock, the random
    jitter and the token writer are inputs. */
module ClientCredmon {
  import opened Text

  /** Configuration values; "" stands for a key that is unset (Python's
      None and "" are both false in the source's tests). The endpoint
      lifetime is taken as an integer already parsed from
      TOKEN_ENDPOINT_LIFETIME (default "3600"); the ValueError int() raises
      on a malformed setting is not modelled. */
  datatype Config = Config(
    tokenEndpointLifetime: int,  // TOKEN_ENDPOINT_LIFETIME, already parsed
    clientId: string,            // CLIENT_ID
    clientSecretFile: string,    // CLIENT_SECRET_FILE
    tokenUrl: string)            // TOKEN_URL

  /** Why construction raises RuntimeError (or the OSError of open()). */
  datatype ConfigError = MissingClientId | MissingSecretFile | SecretFileUnreadable | EmptySecret

  /** The body of the discovery answer: not JSON (resp.json() raises
      ValueError), or a JSON object that may carry `token_endpoint`. */
  datatype DiscoveryBody = DiscoveryNotJson | DiscoveryJson(tokenEndpoint: Option<string>)
  datatype DiscoveryResponse = DiscoveryResponse(status: int, body: DiscoveryBody)

  /** What `token_endpoint` raises when no endpoint can be used:
      RuntimeError for a status or a missing key, the re-raised ValueError
      for a body that is not JSON. */
  datatype DiscoveryError = BadDiscoveryStatus(status: int) | NonJsonDiscovery | MissingTokenEndpoint

  /** One evaluation of the `token_endpoint` property: the clock reading and
      the discovery answer it gets if it asks. */
  datatype Probe = Probe(now: int, discovery: DiscoveryResponse)

  /** The two cache fields `_token_endpoint` and `_token_endpoint_resolved`. */
  datatype EndpointCache = EndpointCache(endpoint: string, resolvedAt: int)

  /** The answer of one `token_endpoint` evaluation, the cache it leaves and
      whether it sent a discovery request. */
  datatype Resolution = Resolution(result: Result<string, DiscoveryError>, cache: EndpointCache, discovered: bool)

  /** The answer of the token endpoint. */
  datatype TokenBody = TokenNotJson | TokenJson(accessToken: Option<string>, expiresIn: Option<int>)
  datatype TokenResponse = TokenResponse(status: int, body: TokenBody)

  /** How the grant response is judged. */
  datatype GrantResult = Rejected(status: int) | Malformed | MissingAccessToken
                       | Granted(accessToken: string, lifetime: Option<int>)

  /** A form payload: a Python dict, in insertion order. */
  type Payload = seq<(string, string)>

  /** What one refresh attempt returns, or the exception it raises. */
  datatype RefreshOutcome = Returned(ok: bool) | Raised(error: DiscoveryError)

  /** A call of write_access_token(username, token_name, lifetime, access_token). */
  datatype SinkCall = SinkCall(lifetime: Option<int>, accessToken: string)

  /** What one refresh attempt did: its outcome, the payload it logged
      before sending, the endpoint and payload it posted, the payload it kept
      afterwards and the token it handed to the writer. */
  datatype RefreshTrace = RefreshTrace(
    outcome: RefreshOutcome,
    logged: Option<Payload>,
    posted: Option<(string, Payload)>,
    retained: Option<Payload>,
    written: Option<SinkCall>)

  const ClientSecretKey := "client_secret"

  // ---------------------------------------------------------------------
  // Construction: configuration and secret checks

  /** The checks of ClientCredmon.__init__ in order: CLIENT_ID set,
      CLIENT_SECRET_FILE set, the file opens, and its stripped text is not
      empty. secretFileText is None when open() fails. */
  function CheckCredentials(cfg: Config, secretFileText: Option<string>): (r: Result<string, ConfigError>)
    ensures cfg.clientId == "" ==> r == Failure(MissingClientId)
    ensures cfg.clientId != "" && cfg.clientSecretFile == "" ==> r == Failure(MissingSecretFile)
    ensures r.Success? <==> cfg.clientId != "" && cfg.clientSecretFile != "" && secretFileText.Some?
                             && exists i :: 0 <= i < |secretFileText.value| && !IsSpace(secretFileText.value[i])
    ensures r.Success? ==> r.value == Strip(secretFileText.value) && r.value != ""
    ensures r.Success? ==> !IsSpace(r.value[0]) && !IsSpace(r.value[|r.value| - 1])
  {
    if cfg.clientId == "" then Failure(MissingClientId)
    else if cfg.clientSecretFile == "" then Failure(MissingSecretFile)
    else if secretFileText.None? then Failure(SecretFileUnreadable)
    else
      var secret := Strip(secretFileText.value);
      StripEmptyIffAllSpace(secretFileText.value);
      if secret == "" then Failure(EmptySecret) else Success(secret)
  }

  /** A secret file holding only whitespace is refused exactly as an empty
      one is. */
  lemma BlankSecretRejectedLikeEmpty(cfg: Config, blank: string)
    requires cfg.clientId != "" && cfg.clientSecretFile != ""
    requires forall i :: 0 <= i < |blank| ==> IsSpace(blank[i])
    ensures CheckCredentials(cfg, Some(blank)) == CheckCredentials(cfg, Some("")) == Failure(EmptySecret)
  {
    StripEmptyIffAllSpace(blank);
  }

  // ---------------------------------------------------------------------
  // Token-endpoint resolution

  /** The cache test of line 52: a non-empty endpoint whose lifetime has
      not yet run out. */
  predicate IsFresh(cache: EndpointCache, lifetime: int, now: int)
  {
    cache.endpoint != "" && cache.resolvedAt + lifetime > now
  }

  /** What a discovery answer yields: the endpoint, or why it is unusable. */
  function DiscoveredEndpoint(resp: DiscoveryResponse): (r: Result<string, DiscoveryError>)
    ensures resp.status != 200 ==> r == Failure(BadDiscoveryStatus(resp.status))
    ensures r.Success? <==> resp.status == 200 && resp.body.DiscoveryJson? && resp.body.tokenEndpoint.Some?
    ensures r.Success? ==> r.value == resp.body.tokenEndpoint.value
    ensures r == Failure(NonJsonDiscovery) <==> resp.status == 200 && resp.body.DiscoveryNotJson?
  {
    if resp.status != 200 then Failure(BadDiscoveryStatus(resp.status))
    else match resp.body
      case DiscoveryNotJson => Failure(NonJsonDiscovery)
      case DiscoveryJson(te) => if te.None? then Failure(MissingTokenEndpoint) else Success(te.value)
  }

  /** One evaluation of the `token_endpoint` property, as a function of the
      configuration, the cache, the clock and the discovery answer. */
  function Resolve(tokenUrl: string, lifetime: int, cache: EndpointCache, probe: Probe): (r: Resolution)
    // A static TOKEN_URL wins, whatever the cache holds, with no request.
    ensures tokenUrl != "" ==> r == Resolution(Success(tokenUrl), cache, false)
    // A fresh cache answers with no request.
    ensures tokenUrl == "" && IsFresh(cache, lifetime, probe.now) ==>
              r == Resolution(Success(cache.endpoint), cache, false)
    // Otherwise discovery runs.
    ensures r.discovered <==> tokenUrl == "" && !IsFresh(cache, lifetime, probe.now)
    // A usable answer replaces the endpoint and stamps it with the clock.
    ensures r.discovered && DiscoveredEndpoint(probe.discovery).Success? ==>
              var e := DiscoveredEndpoint(probe.discovery).value;
                  r.result == Success(e) && r.cache == EndpointCache(e, probe.now)
    // An unusable one falls back to the stale endpoint, or fails without one.
    ensures r.discovered && DiscoveredEndpoint(probe.discovery).Failure? ==>
              r.cache == cache
                  && r.result == (if cache.endpoint != "" then Success(cache.endpoint)
                                  else Failure(DiscoveredEndpoint(probe.discovery).error))
    // Only the two cache fields can change, and only together with a request.
    ensures !r.discovered ==> r.cache == cache
    ensures r.result.Failure? ==> cache.endpoint == "" && r.discovered
  {
    if tokenUrl != "" then Resolution(Success(tokenUrl), cache, false)
    else if IsFresh(cache, lifetime, probe.now) then Resolution(Success(cache.endpoint), cache, false)
    else match DiscoveredEndpoint(probe.discovery)
      case Success(e) => Resolution(Success(e), EndpointCache(e, probe.now), true)
      case Failure(err) =>
        Resolution(if cache.endpoint != "" then Success(cache.endpoint) else Failure(err), cache, true)
  }

  /** After a discovery that yields a non-empty endpoint at time t, every
      later evaluation before t + lifetime answers from the cache without a
      request (the jittered lifetime is fixed, so this holds for any clock
      reading in that window). */
  lemma NoRediscoveryWithinLifetime(lifetime: int, cache: EndpointCache, p1: Probe, p2: Probe)
    requires lifetime >= 0
    requires DiscoveredEndpoint(p1.discovery).Success? && DiscoveredEndpoint(p1.discovery).value != ""
    requires !IsFresh(cache, lifetime, p1.now)
    requires p1.now <= p2.now < p1.now + lifetime
    ensures var r1 := Resolve("", lifetime, cache, p1);
            var r2 := Resolve("", lifetime, r1.cache, p2);
            r1.discovered && !r2.discovered && r2.result == r1.result && r2.cache == r1.cache
  {
  }

  // ---------------------------------------------------------------------
  // The grant request

  function IsUnreserved(c: char): bool
  {
    ('A' <= c <= 'Z') || ('a' <= c <= 'z') || ('0' <= c <= '9') || c == '_' || c == '.' || c == '-' || c == '~'
  }

  /** The characters urllib.parse.quote leaves alone with its default safe="/". */
  predicate QuoteSafe(c: char)
  {
    IsUnreserved(c) || c == '/'
  }

  /** The UTF-8 encoding of one Unicode scalar value. */
  function Utf8(c: char): (bytes: seq<int>)
    ensures 1 <= |bytes| <= 4
    ensures forall i :: 0 <= i < |bytes| ==> 0 <= bytes[i] < 256
    ensures |bytes| == 1 <==> (c as int) < 0x80
    ensures |bytes| == 1 ==> bytes[0] == c as int
  {
    var n := c as int;
    if n < 0x80 then [n]
    else if n < 0x800 then [0xC0 + n / 64, 0x80 + n % 64]
    else if n < 0x10000 then [0xE0 + n / 4096, 0x80 + (n / 64) % 64, 0x80 + n % 64]
    else [0xF0 + n / 262144, 0x80 + (n / 4096) % 64, 0x80 + (n / 64) % 64, 0x80 + n % 64]
  }

  function PercentEncode(bytes: seq<int>): (r: string)
    requires forall i :: 0 <= i < |bytes| ==> 0 <= bytes[i] < 256
    ensures |r| == 3 * |bytes|
  {
    if bytes == [] then ""
    else ['%', HexDigit(bytes[0] / 16, true), HexDigit(bytes[0] % 16, true)] + PercentEncode(bytes[1..])
  }

  /** urllib.parse.quote(s): safe characters are kept, every other one
      becomes the %XX escapes of its UTF-8 bytes. */
  function Quote(s: string): (r: string)
    ensures |r| >= |s|
  {
    if s == [] then ""
    else (if QuoteSafe(s[0]) then [s[0]] else PercentEncode(Utf8(s[0]))) + Quote(s[1..])
  }

  /** quote() leaves a string unchanged exactly when every character is safe. */
  lemma {:induction false} QuoteIdentityIffSafe(s: string)
    ensures Quote(s) == s <==> forall i :: 0 <= i < |s| ==> QuoteSafe(s[i])
    ensures |Quote(s)| == |s| <==> forall i :: 0 <= i < |s| ==> QuoteSafe(s[i])
  {
    if s != [] {
      QuoteIdentityIffSafe(s[1..]);
      if QuoteSafe(s[0]) {
        assert Quote(s) == [s[0]] + Quote(s[1..]);
        if forall i :: 0 <= i < |s[1..]| ==> QuoteSafe(s[1..][i]) {
          assert s == [s[0]] + s[1..];
        }
        if Quote(s) == s {
          assert Quote(s[1..]) == s[1..];
        }
        forall i | 1 <= i < |s| && !QuoteSafe(s[i]) ensures |Quote(s)| > |s| {
          assert !QuoteSafe(s[1..][i - 1]);
        }
      } else {
        assert |Quote(s)| >= 3 + |s| - 1;
      }
    }
  }

  /** The characters of a quoted string are safe characters, '%' or hex digits. */
  lemma {:induction false} QuoteAlphabet(s: string)
    ensures forall i :: 0 <= i < |Quote(s)| ==>
              QuoteSafe(Quote(s)[i]) || Quote(s)[i] == '%'
  {
    if s != [] {
      QuoteAlphabet(s[1..]);
      var head := if QuoteSafe(s[0]) then [s[0]] else PercentEncode(Utf8(s[0]));
      PercentAlphabet(Utf8(s[0]));
      assert Quote(s) == head + Quote(s[1..]);
      forall i | 0 <= i < |Quote(s)| ensures QuoteSafe(Quote(s)[i]) || Quote(s)[i] == '%' {
        if i >= |head| { assert Quote(s)[i] == Quote(s[1..])[i - |head|]; }
      }
    }
  }

  lemma {:induction false} PercentAlphabet(bytes: seq<int>)
    requires forall i :: 0 <= i < |bytes| ==> 0 <= bytes[i] < 256
    ensures forall i :: 0 <= i < |PercentEncode(bytes)| ==>
              QuoteSafe(PercentEncode(bytes)[i]) || PercentEncode(bytes)[i] == '%'
  {
    if bytes != [] {
      PercentAlphabet(bytes[1..]);
      var r := PercentEncode(bytes);
      var head := ['%', HexDigit(bytes[0] / 16, true), HexDigit(bytes[0] % 16, true)];
      assert r == head + PercentEncode(bytes[1..]);
      forall i | 0 <= i < |r| ensures QuoteSafe(r[i]) || r[i] == '%' {
        if i >= 3 { assert r[i] == PercentEncode(bytes[1..])[i - 3]; }
      }
    }
  }

  /** The scopes refresh_access_token appends to token_info.scopes: "wlcg"
      for the WLCG profiles, then condor.user:<quoted subject> when there is
      a subject. */
  function DerivedScopes(profile: string, sub: string): (extra: seq<string>)
    ensures "wlcg" in extra <==> profile == "wlcg" || profile == "wlcg:1.0"
    ensures |extra| == (if profile == "wlcg" || profile == "wlcg:1.0" then 1 else 0) + (if sub != "" then 1 else 0)
    ensures sub != "" ==> extra[|extra| - 1] == "condor.user:" + Quote(sub)
    ensures sub == "" ==> forall i :: 0 <= i < |extra| ==> extra[i] == "wlcg"
  {
    (if profile == "wlcg" || profile == "wlcg:1.0" then ["wlcg"] else [])
    + (if sub != "" then ["condor.user:" + Quote(sub)] else [])
  }

  /** Python's `d[key] = value`: a new key goes last, an existing key keeps
      its place and takes the new value. */
  function PutKey(d: Payload, key: string, value: string): (r: Payload)
    ensures (key, value) in r
    ensures forall k, v :: (k, v) in d && k != key ==> (k, v) in r
    ensures forall k, v :: (k, v) in r ==> k == key || (k, v) in d
    ensures (forall i :: 0 <= i < |d| ==> d[i].0 != key) ==> r == d + [(key, value)]
  {
    if d == [] then [(key, value)]
    else if d[0].0 == key then [(key, value)] + d[1..]
    else [d[0]] + PutKey(d[1..], key, value)
  }

  /** Python's `del d[key]` for a key that is present (and a no-op otherwise). */
  function DeleteKey(d: Payload, key: string): (r: Payload)
    ensures forall k, v :: (k, v) in r <==> (k, v) in d && k != key
  {
    if d == [] then []
    else if d[0].0 == key then DeleteKey(d[1..], key)
    else [d[0]] + DeleteKey(d[1..], key)
  }

  ghost predicate HasKey(d: Payload, key: string)
  {
    exists v :: (key, v) in d
  }

  /** The payload before the secret is added: client_id and grant_type
      always, scopes and audience (space-joined) only when not empty. */
  function GrantPayload(clientId: string, scopes: seq<string>, audience: seq<string>): (p: Payload)
    ensures ("client_id", clientId) in p && ("grant_type", "client_credentials") in p
    ensures HasKey(p, "scopes") <==> scopes != []
    ensures HasKey(p, "audience") <==> audience != []
    ensures scopes != [] ==> ("scopes", Join(" ", scopes)) in p
    ensures audience != [] ==> ("audience", Join(" ", audience)) in p
    ensures !HasKey(p, ClientSecretKey)
  {
    var base := [("client_id", clientId), ("grant_type", "client_credentials")];
    var withScopes := if scopes != [] then base + [("scopes", Join(" ", scopes))] else base;
    var p := if audience != [] then withScopes + [("audience", Join(" ", audience))] else withScopes;
    assert p[0] == ("client_id", clientId) && p[1] == ("grant_type", "client_credentials");
    p
  }

  /** The checks of lines 116-135 on the token endpoint's answer. */
  function ClassifyGrant(resp: TokenResponse): (r: GrantResult)
    ensures resp.status != 200 ==> r == Rejected(resp.status)
    ensures r.Granted? <==> resp.status == 200 && resp.body.TokenJson?
                            && resp.body.accessToken.Some? && resp.body.accessToken.value != ""
    ensures r.Granted? ==> r.accessToken == resp.body.accessToken.value && r.accessToken != ""
                           && r.lifetime == resp.body.expiresIn
    ensures r == Malformed <==> resp.status == 200 && resp.body.TokenNotJson?
  {
    if resp.status != 200 then Rejected(resp.status)
    else match resp.body
      case TokenNotJson => Malformed
      case TokenJson(token, expires) =>
        if token.None? || token.value == "" then MissingAccessToken
        else Granted(token.value, expires)
  }

  // ---------------------------------------------------------------------
  // The monitor

  /** The token description LocalCredmon hands to refresh_access_token; its
      scope list is extended in place. */
  class TokenInfo {
    var scopes: seq<string>
    const profile: string
    const sub: string
    const audience: seq<string>

    constructor (scopes: seq<string>, profile: string, sub: string, audience: seq<string>)
      ensures this.scopes == scopes && this.profile == profile && this.sub == sub && this.audience == audience
    {
      this.scopes := scopes;
      this.profile := profile;
      this.sub := sub;
      this.audience := audience;
    }
  }

  class ClientCredmon {
    const clientId: string
    const secret: string
    const tokenUrl: string
    /** `_token_endpoint_lifetime`: fixed once, at construction. */
    const lifetime: int
    /** `_token_endpoint`: "" until discovery first succeeds. */
    var tokenEndpoint: string
    /** `_token_endpoint_resolved`. */
    var resolvedAt: int
    /** How many discovery requests this monitor has sent. */
    ghost var discoveryCalls: nat

    function Cache(): EndpointCache
      reads this
    {
      EndpointCache(tokenEndpoint, resolvedAt)
    }

    /** Lines 24-26 and the state left after the checks of lines 28-39
        succeed: an empty cache and base + jitter as the lifetime. */
    constructor (cfg: Config, jitter: int, secret: string)
      requires 0 <= jitter <= 60
      ensures lifetime == cfg.tokenEndpointLifetime + jitter
      ensures cfg.tokenEndpointLifetime <= lifetime <= cfg.tokenEndpointLifetime + 60
      ensures Cache() == EndpointCache("", 0) && discoveryCalls == 0
      ensures clientId == cfg.clientId && this.secret == secret && tokenUrl == cfg.tokenUrl
    {
      tokenEndpoint := "";
      resolvedAt := 0;
      lifetime := cfg.tokenEndpointLifetime + jitter;
      clientId := cfg.clientId;
      this.secret := secret;
      tokenUrl := cfg.tokenUrl;
      discoveryCalls := 0;
    }

    /** The `token_endpoint` property. */
    method TokenEndpoint(probe: Probe) returns (r: Result<string, DiscoveryError>)
      modifies this`tokenEndpoint, this`resolvedAt, this`discoveryCalls
      ensures var res := Resolve(tokenUrl, lifetime, old(Cache()), probe);
              r == res.result && Cache() == res.cache
              && discoveryCalls == old(discoveryCalls) + (if res.discovered then 1 else 0)
    {
      var endpoint := tokenUrl;
      if endpoint != "" {
        return Success(endpoint);
      }
      if tokenEndpoint != "" && resolvedAt + lifetime > probe.now {
        return Success(tokenEndpoint);
      }
      discoveryCalls := discoveryCalls + 1;
      var resp := probe.discovery;
      if resp.status != 200 {
        if tokenEndpoint != "" {
          return Success(tokenEndpoint);
        }
        return Failure(BadDiscoveryStatus(resp.status));
      }
      if resp.body.DiscoveryNotJson? {
        if tokenEndpoint != "" {
          return Success(tokenEndpoint);
        }
        return Failure(NonJsonDiscovery);
      }
      if resp.body.tokenEndpoint.None? {
        if tokenEndpoint != "" {
          return Success(tokenEndpoint);
        }
        return Failure(MissingTokenEndpoint);
      }
      tokenEndpoint := resp.body.tokenEndpoint.value;
      resolvedAt := probe.now;
      return Success(tokenEndpoint);
    }

    /** refresh_access_token: extend the scopes, build the payload, resolve
        the endpoint (for the log line, for the POST and, on a non-200
        answer, for the error line), send the grant with the secret, drop
        the secret, judge the answer and hand a token to the writer.
        sinkResult is what write_access_token returns. */
    method RefreshAccessToken(info: TokenInfo, atLog: Probe, atPost: Probe, atError: Probe,
                              grant: TokenResponse, sinkResult: bool)
      returns (t: RefreshTrace)
      modifies this`tokenEndpoint, this`resolvedAt, this`discoveryCalls, info`scopes
      ensures info.scopes == old(info.scopes) + DerivedScopes(info.profile, info.sub)
      // The log line's evaluation (line 110): when it fails, the method
      // raises before anything is logged or sent.
      ensures var r1 := Resolve(tokenUrl, lifetime, old(Cache()), atLog);
              r1.result.Failure? ==>
                && t == RefreshTrace(Raised(r1.result.error), None, None, None, None)
                && Cache() == r1.cache
                && discoveryCalls == old(discoveryCalls) + (if r1.discovered then 1 else 0)
      // The POST's evaluation (line 113), from the cache the first one left:
      // when it fails, the payload was logged but nothing is sent.
      ensures var r1 := Resolve(tokenUrl, lifetime, old(Cache()), atLog);
              var r2 := Resolve(tokenUrl, lifetime, r1.cache, atPost);
              r1.result.Success? && r2.result.Failure? ==>
                && t == RefreshTrace(Raised(r2.result.error), Some(GrantPayload(clientId, info.scopes, info.audience)), None, None, None)
                && Cache() == r2.cache
                && discoveryCalls == old(discoveryCalls) + (if r1.discovered then 1 else 0) + (if r2.discovered then 1 else 0)
      // Both succeed: the grant goes to the second evaluation's endpoint,
      // and a non-200 answer evaluates the property a third time.
      ensures var r1 := Resolve(tokenUrl, lifetime, old(Cache()), atLog);
              var r2 := Resolve(tokenUrl, lifetime, r1.cache, atPost);
              var r3 := Resolve(tokenUrl, lifetime, r2.cache, atError);
              var sent := (if r1.discovered then 1 else 0) + (if r2.discovered then 1 else 0);
              r1.result.Success? && r2.result.Success? ==>
                && t.posted.Some? && t.posted.value.0 == r2.result.value
                && (grant.status == 200 ==>
                      && t.outcome == (if ClassifyGrant(grant).Granted? then Returned(sinkResult) else Returned(false))
                      && Cache() == r2.cache && discoveryCalls == old(discoveryCalls) + sent)
                && (grant.status != 200 ==>
                      && t.outcome == (if r3.result.Failure? then Raised(r3.result.error) else Returned(false))
                      && Cache() == r3.cache
                      && discoveryCalls == old(discoveryCalls) + sent + (if r3.discovered then 1 else 0))
      // The logged and the retained payloads never hold the secret; the
      // posted one is the logged one plus the secret.
      ensures t.logged.Some? ==> t.logged == Some(GrantPayload(clientId, info.scopes, info.audience))
      ensures t.posted.Some? ==>
                t.logged.Some?
                && t.posted.value.1 == GrantPayload(clientId, info.scopes, info.audience) + [(ClientSecretKey, secret)]
                && t.retained == Some(GrantPayload(clientId, info.scopes, info.audience))
      ensures t.retained.Some? ==> !HasKey(t.retained.value, ClientSecretKey)
      // The writer is called only for a granted token, with the token and
      // expires_in as received, and its answer is the result.
      ensures t.written.Some? <==> t.posted.Some? && ClassifyGrant(grant).Granted?
      ensures t.written.Some? ==> t.written.value == SinkCall(ClassifyGrant(grant).lifetime, ClassifyGrant(grant).accessToken)
                                  && t.outcome == Returned(sinkResult)
      ensures t.posted.Some? && !ClassifyGrant(grant).Granted? && t.outcome.Returned? ==> t.outcome == Returned(false)
      ensures t.outcome.Raised? ==> t.written.None?
      // With a static TOKEN_URL nothing is discovered and the POST goes there.
      ensures tokenUrl != "" ==> discoveryCalls == old(discoveryCalls) && t.outcome.Returned?
                                 && t.posted.Some? && t.posted.value.0 == tokenUrl
    {
      var payload := PrepareGrant(info);
      var logEndpoint := TokenEndpoint(atLog);
      if logEndpoint.Failure? {
        return RefreshTrace(Raised(logEndpoint.error), None, None, None, None);
      }
      t := RefreshTrace(Returned(false), Some(payload), None, None, None);

      DeleteAppended(payload, ClientSecretKey, secret);
      var withSecret := PutKey(payload, ClientSecretKey, secret);
      var postEndpoint := TokenEndpoint(atPost);
      if postEndpoint.Failure? {
        t := t.(outcome := Raised(postEndpoint.error));
        return;
      }
      var retained := DeleteKey(withSecret, ClientSecretKey);
      var outcome, written := JudgeGrant(grant, atError, sinkResult);
      t := RefreshTrace(outcome, Some(payload), Some((postEndpoint.value, withSecret)), Some(retained), written);
    }

    /** Lines 94-108: extend token_info.scopes in place and build the
        payload that is logged. */
    method PrepareGrant(info: TokenInfo) returns (payload: Payload)
      modifies info`scopes
      ensures info.scopes == old(info.scopes) + DerivedScopes(info.profile, info.sub)
      ensures payload == GrantPayload(clientId, info.scopes, info.audience)
    {
      var scopeList := info.scopes;
      ghost var extra: seq<string> := [];
      if info.profile == "wlcg" || info.profile == "wlcg:1.0" {
        scopeList := scopeList + ["wlcg"];
        extra := ["wlcg"];
      }
      if info.sub != "" {
        var userScope := "condor.user:" + Quote(info.sub);
        assert scopeList + [userScope] == info.scopes + (extra + [userScope]);
        scopeList := scopeList + [userScope];
        extra := extra + [userScope];
      }
      assert extra == DerivedScopes(info.profile, info.sub);
      info.scopes := scopeList;

      payload := [("client_id", clientId), ("grant_type", "client_credentials")];
      if scopeList != [] {
        payload := PutKey(payload, "scopes", Join(" ", scopeList));
      }
      if info.audience != [] {
        payload := PutKey(payload, "audience", Join(" ", info.audience));
      }
      GrantPayloadByPutKey(clientId, scopeList, info.audience);
    }

    /** Lines 116-135: judge the answer of the POST; the error line of a
        non-200 answer evaluates `token_endpoint` once more. */
    method JudgeGrant(grant: TokenResponse, atError: Probe, sinkResult: bool)
      returns (outcome: RefreshOutcome, written: Option<SinkCall>)
      modifies this`tokenEndpoint, this`resolvedAt, this`discoveryCalls
      ensures written.Some? <==> ClassifyGrant(grant).Granted?
      ensures written.Some? ==> written.value == SinkCall(ClassifyGrant(grant).lifetime, ClassifyGrant(grant).accessToken)
                                && outcome == Returned(sinkResult)
      ensures !ClassifyGrant(grant).Granted? && outcome.Returned? ==> outcome == Returned(false)
      ensures outcome.Raised? ==> grant.status != 200 && old(tokenEndpoint) == "" && tokenUrl == ""
      ensures grant.status == 200 ==> Cache() == old(Cache()) && discoveryCalls == old(discoveryCalls)
      // A non-200 answer evaluates `token_endpoint` for the error line: a
      // failing evaluation raises, otherwise the result is False.
      ensures grant.status != 200 ==>
                var r3 := Resolve(tokenUrl, lifetime, old(Cache()), atError);
                && outcome == (if r3.result.Failure? then Raised(r3.result.error) else Returned(false))
                && Cache() == r3.cache
                && discoveryCalls == old(discoveryCalls) + (if r3.discovered then 1 else 0)
      ensures tokenUrl != "" ==> discoveryCalls == old(discoveryCalls)
    {
      written := None;
      if grant.status != 200 {
        var errorEndpoint := TokenEndpoint(atError);
        if errorEndpoint.Failure? {
          return Raised(errorEndpoint.error), None;
        }
        return Returned(false), None;
      }
      if grant.body.TokenNotJson? {
        return Returned(false), None;
      }
      var accessToken := grant.body.accessToken;
      if accessToken.None? || accessToken.value == "" {
        return Returned(false), None;
      }
      var tokenLifetime := grant.body.expiresIn;
      return Returned(sinkResult), Some(SinkCall(tokenLifetime, accessToken.value));
    }
  }

  /** The payload assembled key by key, as lines 103-108 do, is the
      grant payload. */
  lemma GrantPayloadByPutKey(clientId: string, scopes: seq<string>, audience: seq<string>)
    ensures var base := [("client_id", clientId), ("grant_type", "client_credentials")];
      var withScopes := if scopes != [] then PutKey(base, "scopes", Join(" ", scopes)) else base;
      (if audience != [] then PutKey(withScopes, "audience", Join(" ", audience)) else withScopes)
        == GrantPayload(clientId, scopes, audience)
  {
    var base := [("client_id", clientId), ("grant_type", "client_credentials")];
    assert forall i :: 0 <= i < |base| ==> base[i].0 != "scopes" && base[i].0 != "audience";
    var withScopes := if scopes != [] then base + [("scopes", Join(" ", scopes))] else base;
    assert forall i :: 0 <= i < |withScopes| ==> withScopes[i].0 != "audience";
  }

  /** Deleting a key that was just appended to a payload without it gives
      the payload back. */
  lemma DeleteAppended(p: Payload, key: string, value: string)
    requires !HasKey(p, key)
    ensures PutKey(p, key, value) == p + [(key, value)]
    ensures DeleteKey(p + [(key, value)], key) == p
  {
    forall i | 0 <= i < |p|
      ensures p[i].0 != key
    {
      assert (p[i].0, p[i].1) in p;
    }
    DeleteLast(p, key, value);
  }

  lemma {:induction false} DeleteLast(p: Payload, key: string, value: string)
    requires forall i :: 0 <= i < |p| ==> p[i].0 != key
    ensures DeleteKey(p + [(key, value)], key) == p
  {
    if p != [] {
      DeleteLast(p[1..], key, value);
      assert p + [(key, value)] == [p[0]] + (p[1..] + [(key, value)]);
    } else {
      assert DeleteKey([(key, value)], key) == DeleteKey([], key);
    }
  }

  /** Construction as a whole: the checks of lines 28-39 decide whether a
      monitor exists, and the one that exists has an empty cache and a
      lifetime in [base, base + 60]. */
  method NewClientCredmon(cfg: Config, jitter: int, secretFileText: Option<string>)
    returns (r: Result<ClientCredmon, ConfigError>)
    requires 0 <= jitter <= 60
    ensures r.Failure? <==> CheckCredentials(cfg, secretFileText).Failure?
    ensures r.Failure? ==> r.error == CheckCredentials(cfg, secretFileText).error
    ensures r.Success? ==> fresh(r.value) && r.value.secret == CheckCredentials(cfg, secretFileText).value
                           && r.value.lifetime == cfg.tokenEndpointLifetime + jitter
                           && r.value.Cache() == EndpointCache("", 0)
  {
    var checked := CheckCredentials(cfg, secretFileText);
    if checked.Failure? {
      return Failure(checked.error);
    }
    var m := new ClientCredmon(cfg, jitter, checked.value);
    return Success(m);
  }
}
