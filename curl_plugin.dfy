/** The single-file curl transfer plugin: one process per transfer. Its
    statistics ClassAd and the static resume state of send_curl_request are
    the fields of one object; main's retry loop, the download and upload
    branches of a request, the header callback and the initial statistics
    are its methods. Each attempt's fopen, fstat and libcurl outcome is an
    input (CurlCommon.Attempt); the floating-point times, sleeping and the
    local host name are left out. */
module CurlPlugin {
  import opened Text
  import opened CurlCommon

  /** A ClassAd attribute value as the plugin assigns them. */
  datatype AdValue = IntValue(i: int) | StringValue(s: string) | BoolValue(b: bool)

  /** The attributes of the statistics ad the model follows. */
  datatype Attr =
    | TransferTotalBytes | TransferTries | TransferProtocol | TransferUrl | TransferHostName
    | TransferType | TransferReturnCode | TransferSuccess | TransferError | TransferFileBytes
    | HttpCacheHitOrMiss | HttpCacheHost | HttpUsedCache

  type Ad = map<Attr, AdValue>

  /** LookupInteger on an attribute the plugin always initialises first;
      an absent or non-integer attribute reads as 0. */
  function IntAttr(ad: Ad, name: Attr): int
  {
    if name in ad && ad[name].IntValue? then ad[name].i else 0
  }

  /** Assign(name, token) for a strtok token. What ClassAd::Assign does with
      a NULL char* is outside this model; it is taken as no assignment. */
  function AssignToken(ad: Ad, name: Attr, token: Option<string>): (r: Ad)
    ensures token.Some? ==> r == ad[name := StringValue(token.value)]
    ensures token.None? ==> r == ad
  {
    if token.Some? then ad[name := StringValue(token.value)] else ad
  }

  /** A URL argument is fetched (a download) when it begins with http://,
      ftp:// or file://, ignoring case; anything else is a local file to
      upload. */
  predicate IsDownload(url: string)
  {
    StartsWithIgnoreCase(url, "http://") || StartsWithIgnoreCase(url, "ftp://")
    || StartsWithIgnoreCase(url, "file://")
  }

  /** The TransferProtocol init_stats records: only http, ftp and file. */
  function PluginProtocol(url: string): (p: Option<string>)
  {
    if StartsWithIgnoreCase(url, "http://") then Some("http")
    else if StartsWithIgnoreCase(url, "ftp://") then Some("ftp")
    else if StartsWithIgnoreCase(url, "file://") then Some("file")
    else None
  }

  /** A protocol is recorded exactly for the URLs that are downloaded. An
      https:// URL is none of the three: it records no protocol and is
      taken for the name of a local file to upload. */
  lemma PluginProtocolOnlyForDownloads(url: string)
    ensures PluginProtocol(url).Some? <==> IsDownload(url)
    ensures PluginProtocol(url).Some? ==> PluginProtocol(url).value in {"http", "ftp", "file"}
    ensures "https://" <= url ==> !IsDownload(url) && PluginProtocol(url).None?
  {
    if "https://" <= url {
      StartsWithIgnoreCaseAt(url, "http://");
      assert LowerAscii(url[4]) == 's';
    }
  }

  /** The statistics init_stats adds to the ad. */
  function InitialStats(ad: Ad, url: string): (r: Ad)
  {
    var withCounters := ad[TransferTotalBytes := IntValue(0)][TransferTries := IntValue(0)];
    var p := PluginProtocol(url);
    var withProtocol := if p.Some? then withCounters[TransferProtocol := StringValue(p.value)] else withCounters;
    AssignToken(withProtocol[TransferUrl := StringValue(url)], TransferHostName, HostOf(url))
  }

  /** What one call of send_curl_request ends in: a curl result (-1 when
      the output file could not be opened), or exit(status) of the whole
      process. */
  datatype CallResult = Returned(rval: int) | Exited(status: int)

  /** The arguments of a transfer: argv[1] and argv[2]. */
  datatype Transfer = Transfer(source: string, destination: string)

  /** The result of one call for the attempt a. A download to "-" writes to
      stdout, which is always open; an upload from "-", or of a file that
      cannot be opened or stat'ed, exits with status 1. */
  function CallResultOf(t: Transfer, a: Attempt): (c: CallResult)
    ensures c.Exited? <==> !IsDownload(t.source) && (t.source == "-" || !a.fileOpened || !a.statOk)
    ensures c.Exited? ==> c.status == 1
  {
    if IsDownload(t.source) then
      Returned(if t.destination == "-" || a.fileOpened then a.code else -1)
    else if t.source == "-" || !a.fileOpened || !a.statOk then Exited(1)
    else Returned(a.code)
  }

  /** Whether the attempt reached curl_easy_perform. */
  predicate Performs(t: Transfer, a: Attempt)
  {
    if IsDownload(t.source) then t.destination == "-" || a.fileOpened
    else t.source != "-" && a.fileOpened && a.statOk
  }

  /** The ad after a performed attempt: the type and one more try, then
      the bytes, the response code, and success (dropping TransferError
      and recording the file position) or failure (recording curl's error
      buffer). */
  function AfterPerform(ad: Ad, transferType: string, a: Attempt): (r: Ad)
  {
    var counted := ad[TransferType := StringValue(transferType)]
                     [TransferTries := IntValue(IntAttr(ad, TransferTries) + 1)]
                     [TransferTotalBytes := IntValue(IntAttr(ad, TransferTotalBytes) + a.bytes)]
                     [TransferReturnCode := IntValue(a.responseCode)];
    if a.code == CurleOk then
      (counted - {TransferError})[TransferSuccess := BoolValue(true)][TransferFileBytes := IntValue(a.position)]
    else counted[TransferSuccess := BoolValue(false)][TransferError := StringValue(a.errorBuffer)]
  }

  /** Each performed attempt adds exactly one try and its bytes; success
      and TransferError exclude each other afterwards. */
  lemma AfterPerformCounts(ad: Ad, transferType: string, a: Attempt)
    ensures var r := AfterPerform(ad, transferType, a);
      && IntAttr(r, TransferTries) == IntAttr(ad, TransferTries) + 1
      && IntAttr(r, TransferTotalBytes) == IntAttr(ad, TransferTotalBytes) + a.bytes
      && r[TransferSuccess] == BoolValue(a.code == CurleOk)
      && (TransferError in r <==> a.code != CurleOk)
      && (a.code != CurleOk ==> r[TransferError] == StringValue(a.errorBuffer))
      && r[TransferType] == StringValue(transferType)
  {
  }

  /** Whether main installs header_callback: only for an http:// or
      file:// source. */
  predicate ReceivesHeaders(url: string)
  {
    StartsWithIgnoreCase(url, "http://") || StartsWithIgnoreCase(url, "file://")
  }

  /** The findings of header_callback in one header line. */
  function LineEvents(line: string): seq<HeaderEvent>
  {
    HeaderEvents(TokensFrom(line, 0, {' '}))
  }

  /** The ad after header_callback has run on each line, in order. */
  function ApplyHeaderLines(ad: Ad, lines: seq<string>): Ad
  {
    if lines == [] then ad
    else ApplyHeaderEvents(ApplyHeaderLines(ad, lines[..|lines| - 1]), LineEvents(lines[|lines| - 1]))
  }

  /** The ad after the header lines of a performed download: recorded for
      http and file sources, ignored (no callback) for ftp. */
  function AfterHeaders(ad: Ad, t: Transfer, a: Attempt): Ad
  {
    if ReceivesHeaders(t.source) then ApplyHeaderLines(ad, a.headers) else ad
  }

  /** The part of the process state the model follows. */
  datatype State = State(stats: Ad, partialFile: bool, partialBytes: nat)

  /** The state after one call for attempt a. A performed http or file
      download first records its header lines; a download that ends with
      PARTIAL_FILE from a server that supports resume marks the file partial
      and remembers the file position. */
  function Step(st: State, t: Transfer, a: Attempt): (r: State)
    ensures st.partialFile ==> r.partialFile
    ensures !Performs(t, a) ==> r == st
  {
    if !Performs(t, a) then st
    else if IsDownload(t.source) then
      var resumes := a.code == CurlePartialFile && a.serverSupportsResume;
      State(AfterPerform(AfterHeaders(st.stats, t, a), "download", a),
            st.partialFile || resumes,
            if resumes then a.position else st.partialBytes)
    else State(AfterPerform(st.stats, "upload", a), st.partialFile, st.partialBytes)
  }

  /** The retry loop of main over the call results res(0), res(1), ...,
      starting with i calls made: the number of calls and the last result.
      It stops on success, on an exit, or on a result the corrected rule
      does not retry. */
  function Loop(res: nat -> CallResult, i: nat): (r: (nat, CallResult))
    requires i <= MaxRetryAttempts
    decreases MaxRetryAttempts - i
    ensures i < r.0 <= MaxRetryAttempts + 1
  {
    var c := res(i);
    if c.Exited? || c.rval == CurleOk || !Continues(RetryOnResult, i + 1, c.rval) then (i + 1, c)
    else Loop(res, i + 1)
  }

  /** One round of the loop: after call i, either the loop is over with
      i + 1 calls and that result, or it goes on from i + 1 calls. */
  lemma LoopRound(res: nat -> CallResult, i: nat)
    requires i <= MaxRetryAttempts
    ensures var c := res(i);
      if c.Exited? || c.rval == CurleOk || !(i + 1 <= MaxRetryAttempts && ShouldRetryTransfer(c.rval))
      then Loop(res, i) == (i + 1, c)
      else i + 1 <= MaxRetryAttempts && Loop(res, i) == Loop(res, i + 1)
  {
  }

  /** While no call exits the process, main makes exactly the attempts the
      result-testing retry rule prescribes. */
  lemma {:induction false} LoopFollowsResultRule(res: nat -> CallResult, i: nat)
    requires i <= MaxRetryAttempts
    requires forall k :: i <= k ==> res(k).Returned?
    ensures Loop(res, i).0 == Attempts(RetryOnResult, (k: nat) => if res(k).Returned? then res(k).rval else 0, i)
    ensures Loop(res, i).1 == res(Loop(res, i).0 - 1)
    decreases MaxRetryAttempts - i
  {
    var rvalOf := (k: nat) => if res(k).Returned? then res(k).rval else 0;
    assert rvalOf(i) == res(i).rval;
    if !(res(i).rval == CurleOk || !Continues(RetryOnResult, i + 1, res(i).rval)) {
      LoopFollowsResultRule(res, i + 1);
    }
  }

  /** The state after the first n calls. */
  function StateAfter(st: State, t: Transfer, at: nat -> Attempt, n: nat): State
  {
    if n == 0 then st else Step(StateAfter(st, t, at, n - 1), t, at(n - 1))
  }

  function PerformedCount(t: Transfer, at: nat -> Attempt, n: nat): (c: nat)
    ensures c <= n
  {
    if n == 0 then 0 else PerformedCount(t, at, n - 1) + (if Performs(t, at(n - 1)) then 1 else 0)
  }

  function BytesMoved(t: Transfer, at: nat -> Attempt, n: nat): nat
  {
    if n == 0 then 0 else BytesMoved(t, at, n - 1) + (if Performs(t, at(n - 1)) then at(n - 1).bytes else 0)
  }

  /** TransferTries counts the calls that reached curl and TransferTotalBytes
      adds up what they moved; a resume, once set up, is never dropped. */
  lemma {:induction false} TriesAndBytesAccumulate(st: State, t: Transfer, at: nat -> Attempt, n: nat)
    ensures var r := StateAfter(st, t, at, n);
      && IntAttr(r.stats, TransferTries) == IntAttr(st.stats, TransferTries) + PerformedCount(t, at, n)
      && IntAttr(r.stats, TransferTotalBytes) == IntAttr(st.stats, TransferTotalBytes) + BytesMoved(t, at, n)
      && (st.partialFile ==> r.partialFile)
  {
    if n > 0 {
      var prev := StateAfter(st, t, at, n - 1);
      TriesAndBytesAccumulate(st, t, at, n - 1);
      StepCounts(prev, t, at(n - 1));
      assert StateAfter(st, t, at, n) == Step(prev, t, at(n - 1));
    }
  }

  /** One attempt adds a try and its bytes when it reaches curl. */
  lemma StepCounts(st: State, t: Transfer, a: Attempt)
    ensures var r := Step(st, t, a);
      && IntAttr(r.stats, TransferTries) == IntAttr(st.stats, TransferTries) + (if Performs(t, a) then 1 else 0)
      && IntAttr(r.stats, TransferTotalBytes) == IntAttr(st.stats, TransferTotalBytes) + (if Performs(t, a) then a.bytes else 0)
  {
    if Performs(t, a) {
      if IsDownload(t.source) {
        HeaderLinesKeep(st.stats, if ReceivesHeaders(t.source) then a.headers else []);
        AfterPerformCounts(AfterHeaders(st.stats, t, a), "download", a);
      } else {
        AfterPerformCounts(st.stats, "upload", a);
      }
    }
  }

  /** What main does with its arguments. */
  datatype Command = PrintClassAd | Reject | Run(diagnostic: bool)

  /** main's argument checks: a lone -classad prints the capability ad;
      a fourth argument "-diagnostic" turns on diagnostics (any further
      arguments are ignored); otherwise exactly two arguments are required. */
  function ParseArgs(argv: seq<string>): (c: Command)
    ensures c.Run? <==> |argv| == 3 || (|argv| > 3 && argv[3] == "-diagnostic")
    ensures c == PrintClassAd <==> |argv| == 2 && argv[1] == "-classad"
    ensures c.Run? ==> (c.diagnostic <==> |argv| > 3)
  {
    if |argv| == 2 && argv[1] == "-classad" then PrintClassAd
    else if |argv| > 3 && argv[3] == "-diagnostic" then Run(true)
    else if |argv| != 3 then Reject
    else Run(false)
  }

  class CurlPluginProcess {
    /** The statistics ClassAd (curl_stats points at it). */
    var stats: Ad
    /** The static resume state of send_curl_request. */
    var partialFile: bool
    var partialBytes: nat

    constructor ()
      ensures stats == map[] && !partialFile && partialBytes == 0
    {
      stats := map[];
      partialFile := false;
      partialBytes := 0;
    }

    function Current(): State
      reads this
    {
      State(stats, partialFile, partialBytes)
    }

    /** init_stats: the counters at zero, the protocol, the URL and, when
        strtok finds one, the host. */
    method InitStats(url: string)
      modifies this`stats
      ensures stats == InitialStats(old(stats), url)
    {
      stats := stats[TransferTotalBytes := IntValue(0)];
      stats := stats[TransferTries := IntValue(0)];
      if StartsWithIgnoreCase(url, "http://") {
        stats := stats[TransferProtocol := StringValue("http")];
      } else if StartsWithIgnoreCase(url, "ftp://") {
        stats := stats[TransferProtocol := StringValue("ftp")];
      } else if StartsWithIgnoreCase(url, "file://") {
        stats := stats[TransferProtocol := StringValue("file")];
      }
      stats := stats[TransferUrl := StringValue(url)];
      var first := StrTok(url, 0, {':', '/'});
      var host := StrTok(url, first.1, {'/'});
      stats := AssignToken(stats, TransferHostName, host.0);
    }

    /** The curl-side statistics after curl_easy_perform returned. */
    method RecordPerform(transferType: string, a: Attempt)
      modifies this`stats
      ensures stats == AfterPerform(old(stats), transferType, a)
    {
      var tries := IntAttr(stats, TransferTries);
      var totalBytes := IntAttr(stats, TransferTotalBytes);
      stats := stats[TransferType := StringValue(transferType)];
      stats := stats[TransferTries := IntValue(tries + 1)];
      stats := stats[TransferTotalBytes := IntValue(totalBytes + a.bytes)];
      stats := stats[TransferReturnCode := IntValue(a.responseCode)];
      if a.code == CurleOk {
        stats := stats - {TransferError};
        stats := stats[TransferSuccess := BoolValue(true)];
        stats := stats[TransferFileBytes := IntValue(a.position)];
      } else {
        stats := stats[TransferSuccess := BoolValue(false)];
        stats := stats[TransferError := StringValue(a.errorBuffer)];
      }
    }

    /** send_curl_request for one attempt. A download opens its file for
        append when a resume is pending and then asks for the range
        "<partialBytes>-"; otherwise it truncates. */
    method SendCurlRequest(t: Transfer, a: Attempt) returns (c: CallResult, mode: Option<string>, range: Option<string>)
      modifies this`stats, this`partialFile, this`partialBytes
      ensures c == CallResultOf(t, a)
      ensures Current() == Step(old(Current()), t, a)
      ensures mode == (if IsDownload(t.source) && t.destination != "-" then Some(if old(partialFile) then "a+" else "w") else None)
      ensures range == (if Performs(t, a) && IsDownload(t.source) && old(partialFile)
                        then Some(DecimalString(old(partialBytes)) + "-") else None)
    {
      range := None;
      mode := None;
      if IsDownload(t.source) {
        if t.destination != "-" {
          mode := Some(if partialFile then "a+" else "w");
          if !a.fileOpened {
            return Returned(-1), mode, range;
          }
        }
        if partialFile {
          range := Some(DecimalString(partialBytes) + "-");
        }
        if a.code == CurlePartialFile && a.serverSupportsResume {
          partialFile := true;
          partialBytes := a.position;
        }
        ghost var before := stats;
        if ReceivesHeaders(t.source) {
          DeliverHeaders(a.headers);
        }
        assert stats == AfterHeaders(before, t, a);
        RecordPerform("download", a);
        c := Returned(a.code);
      } else {
        if t.source == "-" || !a.fileOpened || !a.statOk {
          return Exited(1), mode, range;
        }
        RecordPerform("upload", a);
        c := Returned(a.code);
      }
    }

    /** The retry loop of main: send_curl_request is called until it
        succeeds, exits, or returns a result the retry rule does not retry
        (at most MAX_RETRY_ATTEMPTS retries). */
    method RetryRequest(t: Transfer, at: nat -> Attempt) returns (c: CallResult, retryCount: nat)
      modifies this`stats, this`partialFile, this`partialBytes
      ensures (retryCount, c) == Loop((k: nat) => CallResultOf(t, at(k)), 0)
      ensures Current() == StateAfter(old(Current()), t, at, retryCount)
    {
      ghost var res := (k: nat) => CallResultOf(t, at(k));
      ghost var init := Current();
      retryCount := 0;
      c := Returned(-1);
      var done := false;
      while !done
        invariant retryCount <= MaxRetryAttempts + 1
        invariant !done ==> retryCount <= MaxRetryAttempts && Loop(res, 0) == Loop(res, retryCount)
        invariant done ==> Loop(res, 0) == (retryCount, c)
        invariant Current() == StateAfter(init, t, at, retryCount)
        decreases MaxRetryAttempts + 1 - retryCount, if done then 0 else 1
      {
        var a := at(retryCount);
        LoopRound(res, retryCount);
        ghost var prev := Current();
        assert StateAfter(init, t, at, retryCount + 1) == Step(prev, t, a);
        retryCount := retryCount + 1;
        var mode, range;
        c, mode, range := SendCurlRequest(t, a);
        if c.Exited? {
          done := true;
        } else if c.rval == CurleOk {
          done := true;
        } else if retryCount <= MaxRetryAttempts && ShouldRetryTransfer(c.rval) {
          // a transient failure: go round again
        } else {
          done := true;
        }
      }
    }

    /** libcurl calling header_callback once per header line during
        curl_easy_perform. */
    method DeliverHeaders(lines: seq<string>)
      modifies this`stats
      ensures stats == ApplyHeaderLines(old(stats), lines)
    {
      var i := 0;
      while i < |lines|
        invariant 0 <= i <= |lines|
        invariant stats == ApplyHeaderLines(old(stats), lines[..i])
      {
        assert lines[..i + 1][..i] == lines[..i];
        var n := HeaderCallback(lines[i], 1, |lines[i]|);
        i := i + 1;
      }
      assert lines[..|lines|] == lines;
    }

    /** header_callback: every X-Cache value or Via host found among the
        space-separated tokens is recorded, and each such header marks the
        transfer as having used a cache. */
    method HeaderCallback(buffer: string, size: nat, nitems: nat) returns (numBytes: nat)
      modifies this`stats
      ensures numBytes == size * nitems
      ensures stats == ApplyHeaderEvents(old(stats), HeaderEvents(TokensFrom(buffer, 0, {' '})))
    {
      numBytes := nitems * size;
      var events := ScanHeader(buffer, {' '});
      var i := 0;
      while i < |events|
        invariant 0 <= i <= |events|
        invariant stats == ApplyHeaderEvents(old(stats), events[..i])
      {
        assert events[..i + 1][..i] == events[..i];
        stats := ApplyHeaderEvent(stats, events[i]);
        i := i + 1;
      }
      assert events[..|events|] == events;
    }
  }

  /** Record one header finding: the value when strtok found one, and
      HttpUsedCache in any case. */
  function ApplyHeaderEvent(ad: Ad, e: HeaderEvent): (r: Ad)
    ensures HttpUsedCache in r && r[HttpUsedCache] == BoolValue(true)
  {
    match e
    case CacheStatus(v) => AssignToken(ad, HttpCacheHitOrMiss, v)[HttpUsedCache := BoolValue(true)]
    case CacheHost(h) => AssignToken(ad, HttpCacheHost, h)[HttpUsedCache := BoolValue(true)]
  }

  function ApplyHeaderEvents(ad: Ad, es: seq<HeaderEvent>): Ad
  {
    if es == [] then ad else ApplyHeaderEvent(ApplyHeaderEvents(ad, es[..|es| - 1]), es[|es| - 1])
  }

  /** HttpUsedCache is set exactly when some X-Cache or Via header was
      recorded, and otherwise left as it was. */
  lemma {:induction false} UsedCacheIffHeaderSeen(ad: Ad, es: seq<HeaderEvent>)
    ensures es != [] ==> var r := ApplyHeaderEvents(ad, es); HttpUsedCache in r && r[HttpUsedCache] == BoolValue(true)
    ensures es == [] ==> ApplyHeaderEvents(ad, es) == ad
    ensures forall k :: k != HttpUsedCache && k != HttpCacheHitOrMiss && k != HttpCacheHost ==>
              (k in ApplyHeaderEvents(ad, es) <==> k in ad)
              && (k in ad ==> ApplyHeaderEvents(ad, es)[k] == ad[k])
  {
    if es != [] {
      UsedCacheIffHeaderSeen(ad, es[..|es| - 1]);
    }
  }

  /** Header lines change no attribute but the three HTTP cache ones. */
  lemma {:induction false} HeaderLinesKeep(ad: Ad, lines: seq<string>)
    ensures forall k :: k != HttpUsedCache && k != HttpCacheHitOrMiss && k != HttpCacheHost ==>
              (k in ApplyHeaderLines(ad, lines) <==> k in ad)
              && (k in ad ==> ApplyHeaderLines(ad, lines)[k] == ad[k])
  {
    if lines != [] {
      HeaderLinesKeep(ad, lines[..|lines| - 1]);
      UsedCacheIffHeaderSeen(ApplyHeaderLines(ad, lines[..|lines| - 1]), LineEvents(lines[|lines| - 1]));
    }
  }

  /** HttpUsedCache is true after the lines when some line carries an
      X-Cache or Via finding; when none does, the ad is unchanged. */
  lemma {:induction false} UsedCacheIffHeaderLine(ad: Ad, lines: seq<string>)
    ensures (exists i :: 0 <= i < |lines| && LineEvents(lines[i]) != []) ==>
              var r := ApplyHeaderLines(ad, lines); HttpUsedCache in r && r[HttpUsedCache] == BoolValue(true)
    ensures (forall i :: 0 <= i < |lines| ==> LineEvents(lines[i]) == []) ==> ApplyHeaderLines(ad, lines) == ad
  {
    if lines != [] {
      var init := lines[..|lines| - 1];
      var last := lines[|lines| - 1];
      forall i | 0 <= i < |init|
        ensures init[i] == lines[i]
      {
      }
      UsedCacheIffHeaderLine(ad, init);
      UsedCacheIffHeaderSeen(ApplyHeaderLines(ad, init), LineEvents(last));
      if LineEvents(last) == [] {
        UsedCacheIffHeaderSeen(ApplyHeaderLines(ad, init), []);
        assert (exists i :: 0 <= i < |lines| && LineEvents(lines[i]) != []) ==>
               (exists i :: 0 <= i < |init| && LineEvents(init[i]) != []);
      }
    }
  }

  /** In a performed download the three HTTP cache attributes come out as
      the header lines left them (untouched for an ftp source); the rest of
      the attempt's bookkeeping does not touch them. */
  lemma StepRecordsHeaders(st: State, t: Transfer, a: Attempt)
    requires Performs(t, a) && IsDownload(t.source)
    ensures var h := if ReceivesHeaders(t.source) then ApplyHeaderLines(st.stats, a.headers) else st.stats;
      forall k :: k == HttpUsedCache || k == HttpCacheHitOrMiss || k == HttpCacheHost ==>
        (k in Step(st, t, a).stats <==> k in h) && (k in h ==> Step(st, t, a).stats[k] == h[k])
  {
    var h := if ReceivesHeaders(t.source) then ApplyHeaderLines(st.stats, a.headers) else st.stats;
    assert AfterHeaders(st.stats, t, a) == h;
    AfterPerformKeepsCache(h, "download", a);
  }

  /** AfterPerform writes none of the HTTP cache attributes. */
  lemma AfterPerformKeepsCache(ad: Ad, transferType: string, a: Attempt)
    ensures forall k :: k == HttpUsedCache || k == HttpCacheHitOrMiss || k == HttpCacheHost ==>
      (k in AfterPerform(ad, transferType, a) <==> k in ad) && (k in ad ==> AfterPerform(ad, transferType, a)[k] == ad[k])
  {
  }

  /** The statistics say that a cache was used. */
  predicate UsedCache(ad: Ad)
  {
    HttpUsedCache in ad && ad[HttpUsedCache] == BoolValue(true)
  }

  /** One attempt never clears a recorded cache use. */
  lemma UsedCacheStays(st: State, t: Transfer, a: Attempt)
    requires UsedCache(st.stats)
    ensures UsedCache(Step(st, t, a).stats)
  {
    if Performs(t, a) {
      if IsDownload(t.source) {
        UsedCacheIffHeaderLine(st.stats, a.headers);
        StepRecordsHeaders(st, t, a);
      } else {
        AfterPerformKeepsCache(st.stats, "upload", a);
      }
    }
  }

  /** A performed http or file download whose header lines carry an
      X-Cache or Via finding records a cache use. */
  lemma StepRecordsCacheUse(st: State, t: Transfer, a: Attempt, i: nat)
    requires ReceivesHeaders(t.source) && Performs(t, a)
    requires i < |a.headers| && LineEvents(a.headers[i]) != []
    ensures UsedCache(Step(st, t, a).stats)
  {
    UsedCacheIffHeaderLine(st.stats, a.headers);
    StepRecordsHeaders(st, t, a);
  }

  /** A cache use recorded after m calls is still recorded after n. */
  lemma {:induction false} UsedCacheKept(st: State, t: Transfer, at: nat -> Attempt, m: nat, n: nat)
    requires m <= n
    requires UsedCache(StateAfter(st, t, at, m).stats)
    ensures UsedCache(StateAfter(st, t, at, n).stats)
    decreases n - m
  {
    if m < n {
      var before := StateAfter(st, t, at, m);
      UsedCacheStays(before, t, at(m));
      assert StateAfter(st, t, at, m + 1) == Step(before, t, at(m));
      UsedCacheKept(st, t, at, m + 1, n);
    }
  }

  /** Once a performed http or file download has delivered a header line
      with an X-Cache or Via finding, every later state, and so the printed
      statistics, say that a cache was used. */
  lemma UsedCacheReachesStats(st: State, t: Transfer, at: nat -> Attempt, n: nat, k: nat, i: nat)
    requires ReceivesHeaders(t.source) && k < n && Performs(t, at(k))
    requires i < |at(k).headers| && LineEvents(at(k).headers[i]) != []
    ensures UsedCache(StateAfter(st, t, at, n).stats)
  {
    var before := StateAfter(st, t, at, k);
    StepRecordsCacheUse(before, t, at(k), i);
    assert StateAfter(st, t, at, k + 1) == Step(before, t, at(k));
    UsedCacheKept(st, t, at, k + 1, n);
  }

  /** main: the exit status and, when they are printed, the statistics. A
      lone -classad gives 0; bad arguments or a failed curl initialisation
      give -1 with nothing printed; otherwise the request is retried by the
      result-testing rule, and the statistics are printed unless the last
      result was -1. An exit inside a request ends the process with its
      status. */
  method RunPlugin(argv: seq<string>, curlInitOk: bool, at: nat -> Attempt)
    returns (exitCode: int, printed: Option<Ad>)
    ensures ParseArgs(argv) == PrintClassAd ==> exitCode == 0 && printed.None?
    ensures ParseArgs(argv) == Reject || (ParseArgs(argv).Run? && !curlInitOk) ==> exitCode == -1 && printed.None?
    ensures ParseArgs(argv).Run? && curlInitOk ==>
              var t := Transfer(argv[1], argv[2]);
              var res := (k: nat) => CallResultOf(t, at(k));
              var (n, last) := Loop(res, 0);
              var final := StateAfter(State(InitialStats(map[], argv[1]), false, 0), t, at, n);
              && exitCode == (if last.Exited? then last.status else last.rval)
              && printed == (if last.Returned? && last.rval != -1 then Some(final.stats) else None)
  {
    printed := None;
    var cmd := ParseArgs(argv);
    if cmd == PrintClassAd {
      return 0, None;
    }
    if cmd == Reject || !curlInitOk {
      return -1, None;
    }
    var t := Transfer(argv[1], argv[2]);
    ghost var res := (k: nat) => CallResultOf(t, at(k));
    var process := new CurlPluginProcess();
    process.InitStats(argv[1]);
    var c, retryCount := process.RetryRequest(t, at);
    if c.Exited? {
      return c.status, None;
    }
    if c.rval != -1 {
      printed := Some(process.stats);
    }
    exitCode := c.rval;
  }
}
