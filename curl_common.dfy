/** What the two curl file-transfer plugins share: the libcurl result codes
    they test, the retry decision, the URL scheme handling and the parsing of
    HTTP cache headers. libcurl itself is abstract: the outcome of each
    attempt is an input. */
module CurlCommon {
  import opened Text

  const CurleOk: int := 0
  const CurleCouldntConnect: int := 7
  const CurlePartialFile: int := 18
  const CurleReadError: int := 26
  const CurleOperationTimedout: int := 28
  const CurleSendError: int := 55
  const CurleRecvError: int := 56

  const MaxRetryAttempts: nat := 20

  /** ShouldRetryTransfer: the six transient libcurl results. */
  predicate ShouldRetryTransfer(rval: int)
  {
    rval == CurleCouldntConnect || rval == CurlePartialFile || rval == CurleReadError
    || rval == CurleOperationTimedout || rval == CurleSendError || rval == CurleRecvError
  }

  lemma TransientCodesAreFailures(rval: int)
    requires ShouldRetryTransfer(rval)
    ensures rval != CurleOk && rval > 0
  {
  }

  /** Which value the retry test is applied to. The multi-file plugin hands
      it the attempt counter; the single-file plugin tests the curl result. */
  datatype RetryRule = RetryOnAttemptNumber | RetryOnResult

  /** Whether the loop goes round again after a failed attempt, where
      retryCount is the number of attempts made so far. */
  predicate Continues(rule: RetryRule, retryCount: nat, rval: int)
  {
    retryCount <= MaxRetryAttempts
    && ShouldRetryTransfer(if rule == RetryOnAttemptNumber then retryCount else rval)
  }

  /** The number of attempts a retry loop makes when attempt k (counting from
      0) ends with rvalOf(k), starting with i attempts made: it stops at the
      first success or the first failure the rule does not retry. */
  function Attempts(rule: RetryRule, rvalOf: nat -> int, i: nat): (n: nat)
    requires i <= MaxRetryAttempts
    decreases MaxRetryAttempts - i
    ensures i < n <= MaxRetryAttempts + 1
  {
    if rvalOf(i) == CurleOk || !Continues(rule, i + 1, rvalOf(i)) then i + 1
    else Attempts(rule, rvalOf, i + 1)
  }

  /** The loop as the multi-file plugin writes it: the counter is 1 after the
      first attempt, and 1 is not a transient code, so a failed first
      attempt is never retried. */
  lemma AttemptNumberRuleNeverRetries(rvalOf: nat -> int)
    ensures Attempts(RetryOnAttemptNumber, rvalOf, 0) == 1
  {
  }

  /** The input that shows it: every attempt fails to connect. Testing the
      counter gives up after one attempt; testing the result retries until
      the retry budget is spent. */
  lemma {:induction false} ConnectFailuresRetriedOnlyByResultRule()
    ensures Attempts(RetryOnAttemptNumber, _ => CurleCouldntConnect, 0) == 1
    ensures Attempts(RetryOnResult, _ => CurleCouldntConnect, 0) == MaxRetryAttempts + 1
  {
    AllTransientExhaustsRetries(_ => CurleCouldntConnect, 0);
  }

  /** With the corrected rule, a run of transient failures is retried until
      the first success, as long as that success comes within the budget. */
  lemma {:induction false} ResultRuleRetriesUntilSuccess(rvalOf: nat -> int, i: nat, m: nat)
    requires i <= m <= MaxRetryAttempts
    requires forall k :: i <= k < m ==> ShouldRetryTransfer(rvalOf(k))
    requires rvalOf(m) == CurleOk
    ensures Attempts(RetryOnResult, rvalOf, i) == m + 1
    decreases m - i
  {
    if i < m {
      assert ShouldRetryTransfer(rvalOf(i));
      ResultRuleRetriesUntilSuccess(rvalOf, i + 1, m);
    }
  }

  /** With the corrected rule, a result that is neither success nor
      transient ends the loop at once. */
  lemma ResultRuleStopsOnFatal(rvalOf: nat -> int, i: nat)
    requires i <= MaxRetryAttempts
    requires rvalOf(i) != CurleOk && !ShouldRetryTransfer(rvalOf(i))
    ensures Attempts(RetryOnResult, rvalOf, i) == i + 1
  {
  }

  /** With the corrected rule, transient failures throughout make exactly
      MaxRetryAttempts + 1 attempts: retries are bounded. */
  lemma {:induction false} AllTransientExhaustsRetries(rvalOf: nat -> int, i: nat)
    requires i <= MaxRetryAttempts
    requires forall k :: i <= k ==> ShouldRetryTransfer(rvalOf(k))
    ensures Attempts(RetryOnResult, rvalOf, i) == MaxRetryAttempts + 1
    decreases MaxRetryAttempts - i
  {
    assert ShouldRetryTransfer(rvalOf(i));
    if i < MaxRetryAttempts {
      AllTransientExhaustsRetries(rvalOf, i + 1);
    }
  }

  /** The curl-independent outcome of one call of the transfer routine: whether
      the local file opened (and, for an upload, could be stat'ed), what
      curl_easy_perform returned, what curl_easy_getinfo and ftell then
      report, and the header lines libcurl handed to a header callback, in
      order, while it performed. */
  datatype Attempt = Attempt(
    fileOpened: bool,
    statOk: bool,
    code: int,
    bytes: nat,
    responseCode: int,
    errorBuffer: string,
    position: nat,
    serverSupportsResume: bool,
    headers: seq<string>)

  // ---------------------------------------------------------------------
  // URLs

  /** The dav/davs rewrite of BuildTransferRequests (case-sensitive). */
  function DavRewrite(url: string): (r: string)
    ensures "davs://" <= url ==> r == "https://" + url[7..]
    ensures "dav://" <= url ==> r == "http://" + url[6..]
    ensures !("davs://" <= url) && !("dav://" <= url) ==> r == url
  {
    if "davs://" <= url then
      assert url[3] == 's';
      "https://" + url[7..]
    else if "dav://" <= url then "http://" + url[6..]
    else url
  }

  /** Rewriting never leaves a dav scheme behind, so a rewritten URL is not
      rewritten again. */
  lemma DavRewriteIdempotent(url: string)
    ensures !("davs://" <= DavRewrite(url)) && !("dav://" <= DavRewrite(url))
    ensures DavRewrite(DavRewrite(url)) == DavRewrite(url)
  {
    var r := DavRewrite(url);
    if "davs://" <= url || "dav://" <= url {
      assert r[0] == 'h';
    }
  }

  /** The TransferProtocol of the multi-file plugin: the first of http://,
      https://, ftp://, file:// that begins the URL, ignoring case; None
      leaves the statistic unset. */
  function MultiFileProtocol(url: string): (p: Option<string>)
  {
    if StartsWithIgnoreCase(url, "http://") then Some("http")
    else if StartsWithIgnoreCase(url, "https://") then Some("https")
    else if StartsWithIgnoreCase(url, "ftp://") then Some("ftp")
    else if StartsWithIgnoreCase(url, "file://") then Some("file")
    else None
  }

  /** Each protocol name is reported exactly when the URL has that scheme:
      the four prefixes exclude each other, so their order does not matter. */
  lemma MultiFileProtocolCases(url: string)
    ensures var p := MultiFileProtocol(url);
      && (p == Some("http") <==> StartsWithIgnoreCase(url, "http://"))
      && (p == Some("https") <==> StartsWithIgnoreCase(url, "https://"))
      && (p == Some("ftp") <==> StartsWithIgnoreCase(url, "ftp://"))
      && (p == Some("file") <==> StartsWithIgnoreCase(url, "file://"))
      && (p.None? <==> !StartsWithIgnoreCase(url, "http://") && !StartsWithIgnoreCase(url, "https://")
                       && !StartsWithIgnoreCase(url, "ftp://") && !StartsWithIgnoreCase(url, "file://"))
  {
    if StartsWithIgnoreCase(url, "https://") {
      assert LowerAscii(url[4]) == 's';
    }
    if StartsWithIgnoreCase(url, "ftp://") {
      assert LowerAscii(url[0]) == 'f';
    }
    if StartsWithIgnoreCase(url, "file://") {
      assert LowerAscii(url[1]) == 'i';
    }
  }

  /** The TransferHostName: strtok(url, ":/") takes the scheme, then
      strtok(NULL, "/") the next run of characters up to a '/'. None is the
      NULL token. */
  function HostOf(url: string): Option<string>
  {
    var first := StrTok(url, 0, {':', '/'});
    StrTok(url, first.1, {'/'}).0
  }

  /** A host is never empty and never holds a '/'. */
  lemma HostOfHasNoSlash(url: string)
    ensures var h := HostOf(url);
      h.Some? ==> h.value != [] && forall k :: 0 <= k < |h.value| ==> h.value[k] != '/'
  {
    StrTokTokens(url, StrTok(url, 0, {':', '/'}).1, {'/'});
  }

  /** For scheme://host/path (or scheme://host) with a scheme free of ':' and
      '/' and a host free of '/', HostOf gives the host. */
  lemma HostOfUrl(scheme: string, host: string, path: string)
    requires scheme != [] && forall k :: 0 <= k < |scheme| ==> scheme[k] != ':' && scheme[k] != '/'
    requires host != [] && forall k :: 0 <= k < |host| ==> host[k] != '/'
    requires path == [] || path[0] == '/'
    ensures HostOf(scheme + "://" + host + path) == Some(host)
  {
    var url := scheme + "://" + host + path;
    var d1: set<char> := {':', '/'};
    var n := |scheme|;
    assert url[0] == scheme[0] && url[0] !in d1;
    assert SkipDelims(url, 0, d1) == 0;
    TokenEndAt(url, 0, d1, n);
    assert StrTok(url, 0, d1).1 == n + 1;
    assert url[n + 1] == '/' && url[n + 2] == '/';
    SkipDelimsAt(url, n + 1, {'/'}, n + 3);
    TokenEndAt(url, n + 3, {'/'}, n + 3 + |host|);
    assert url[n + 3..n + 3 + |host|] == host;
  }

  lemma {:induction false} TokenEndAt(s: string, i: nat, delims: set<char>, j: nat)
    requires i <= j <= |s|
    requires forall k :: i <= k < j ==> s[k] !in delims
    requires j == |s| || s[j] in delims
    ensures TokenEnd(s, i, delims) == j
    decreases j - i
  {
    if i < j {
      TokenEndAt(s, i + 1, delims, j);
    }
  }

  lemma {:induction false} SkipDelimsAt(s: string, i: nat, delims: set<char>, j: nat)
    requires i <= j <= |s|
    requires forall k :: i <= k < j ==> s[k] in delims
    requires j == |s| || s[j] !in delims
    ensures SkipDelims(s, i, delims) == j
    decreases j - i
  {
    if i < j {
      SkipDelimsAt(s, i + 1, delims, j);
    }
  }

  // ---------------------------------------------------------------------
  // HTTP cache headers

  /** What one header line tells the statistics: an X-Cache value, or a Via
      cache host. A None token is the NULL strtok returned where a value was
      expected. */
  datatype HeaderEvent = CacheStatus(status: Option<string>) | CacheHost(host: Option<string>)

  /** The events of a header whose strtok tokens are ts: after "X-Cache:"
      the next token (if any) is the cache status; after "Via:" one token
      (the protocol version) is skipped and, if it was there, the next token
      is the cache host; every other token is passed over. A token consumed
      as a value is not examined as a header name. */
  function HeaderEvents(ts: seq<string>): (es: seq<HeaderEvent>)
    ensures |es| <= |ts|
  {
    if ts == [] then []
    else if ts[0] == "X-Cache:" then
      [CacheStatus(if |ts| > 1 then Some(ts[1]) else None)] + (if |ts| > 2 then HeaderEvents(ts[2..]) else [])
    else if ts[0] == "Via:" then
      if |ts| == 1 then []
      else [CacheHost(if |ts| > 2 then Some(ts[2]) else None)] + (if |ts| > 3 then HeaderEvents(ts[3..]) else [])
    else HeaderEvents(ts[1..])
  }

  /** "X-Cache: v ..." reports v as the cache status first. */
  lemma XCacheHeaderReportsStatus(v: string, rest: seq<string>)
    ensures HeaderEvents(["X-Cache:", v] + rest)[0] == CacheStatus(Some(v))
  {
  }

  /** "Via: version host ..." reports host as the cache host first. */
  lemma ViaHeaderReportsHost(version: string, host: string, rest: seq<string>)
    ensures HeaderEvents(["Via:", version, host] + rest)[0] == CacheHost(Some(host))
  {
    assert (["Via:", version, host] + rest)[0] == "Via:";
  }

  /** A header with neither name among its tokens reports nothing. */
  lemma {:induction false} OtherHeadersReportNothing(ts: seq<string>)
    requires forall k :: 0 <= k < |ts| ==> ts[k] != "X-Cache:" && ts[k] != "Via:"
    ensures HeaderEvents(ts) == []
  {
    if ts != [] {
      OtherHeadersReportNothing(ts[1..]);
    }
  }

  /** The tokens still to come when the current token is token and strtok's
      saved position is pos. */
  ghost function Pending(buffer: string, delims: set<char>, token: Option<string>, pos: nat): seq<string>
    requires pos <= |buffer|
  {
    if token.Some? then [token.value] + TokensFrom(buffer, pos, delims) else []
  }

  lemma FetchGivesPending(buffer: string, delims: set<char>, pos: nat)
    requires pos <= |buffer|
    ensures Pending(buffer, delims, StrTok(buffer, pos, delims).0, StrTok(buffer, pos, delims).1)
              == TokensFrom(buffer, pos, delims)
  {
  }

  lemma XCacheStep(buffer: string, delims: set<char>, pos: nat)
    requires pos <= |buffer|
    ensures var (value, p1) := StrTok(buffer, pos, delims);
      HeaderEvents(["X-Cache:"] + TokensFrom(buffer, pos, delims))
        == [CacheStatus(value)] + HeaderEvents(TokensFrom(buffer, p1, delims))
  {
    var (value, p1) := StrTok(buffer, pos, delims);
    var ts := ["X-Cache:"] + TokensFrom(buffer, pos, delims);
    if value.Some? {
      assert ts[2..] == TokensFrom(buffer, p1, delims);
    } else {
      assert TokensFrom(buffer, p1, delims) == [];
    }
  }

  lemma ViaStep(buffer: string, delims: set<char>, pos: nat)
    requires pos <= |buffer|
    ensures var (version, p1) := StrTok(buffer, pos, delims);
      var (host, p2) := StrTok(buffer, p1, delims);
      HeaderEvents(["Via:"] + TokensFrom(buffer, pos, delims))
        == if version.None? then HeaderEvents(TokensFrom(buffer, p1, delims))
           else [CacheHost(host)] + HeaderEvents(TokensFrom(buffer, p2, delims))
  {
    var (version, p1) := StrTok(buffer, pos, delims);
    var (host, p2) := StrTok(buffer, p1, delims);
    var ts := ["Via:"] + TokensFrom(buffer, pos, delims);
    if version.None? {
      assert TokensFrom(buffer, pos, delims) == [];
      assert TokensFrom(buffer, p1, delims) == [];
      assert ts == ["Via:"];
    } else {
      assert TokensFrom(buffer, pos, delims) == [version.value] + TokensFrom(buffer, p1, delims);
      if host.Some? {
        assert TokensFrom(buffer, p1, delims) == [host.value] + TokensFrom(buffer, p2, delims);
        assert ts == ["Via:", version.value, host.value] + TokensFrom(buffer, p2, delims);
        assert ts[3..] == TokensFrom(buffer, p2, delims);
      } else {
        assert TokensFrom(buffer, p1, delims) == [];
        assert TokensFrom(buffer, p2, delims) == [];
        assert ts == ["Via:", version.value];
      }
    }
  }

  /** One round of the callback's loop for the current token: the events it
      records and strtok's saved position before the loop fetches the next
      token. */
  method HandleToken(buffer: string, delims: set<char>, token: string, pos: nat)
    returns (recorded: seq<HeaderEvent>, p: nat)
    requires pos <= |buffer|
    ensures p <= |buffer| && pos <= p
    ensures HeaderEvents([token] + TokensFrom(buffer, pos, delims))
              == recorded + HeaderEvents(TokensFrom(buffer, p, delims))
  {
    p := pos;
    recorded := [];
    if token == "X-Cache:" {
      XCacheStep(buffer, delims, pos);
      var value := StrTok(buffer, pos, delims);
      recorded := [CacheStatus(value.0)];
      p := value.1;
    } else if token == "Via:" {
      ViaStep(buffer, delims, pos);
      var version := StrTok(buffer, pos, delims);
      p := version.1;
      if version.0.Some? {
        var host := StrTok(buffer, p, delims);
        recorded := [CacheHost(host.0)];
        p := host.1;
      }
    } else {
      assert ([token] + TokensFrom(buffer, pos, delims))[1..] == TokensFrom(buffer, pos, delims);
    }
  }

  /** The strtok loop both header callbacks run over the header text:
      fetch a token, act on X-Cache: or Via:, fetch the next. */
  method ScanHeader(buffer: string, delims: set<char>) returns (events: seq<HeaderEvent>)
    ensures events == HeaderEvents(TokensFrom(buffer, 0, delims))
  {
    events := [];
    var first := StrTok(buffer, 0, delims);
    var token, pos := first.0, first.1;
    FetchGivesPending(buffer, delims, 0);
    while token.Some?
      invariant pos <= |buffer|
      invariant events + HeaderEvents(Pending(buffer, delims, token, pos))
                  == HeaderEvents(TokensFrom(buffer, 0, delims))
      decreases |buffer| - pos, if token.Some? then 1 else 0
    {
      var recorded, p := HandleToken(buffer, delims, token.value, pos);
      assert events + HeaderEvents(Pending(buffer, delims, token, pos))
               == (events + recorded) + HeaderEvents(TokensFrom(buffer, p, delims));
      events := events + recorded;
      var next := StrTok(buffer, p, delims);
      FetchGivesPending(buffer, delims, p);
      token, pos := next.0, next.1;
    }
    assert events + [] == events;
  }
}
