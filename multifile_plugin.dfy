/** The multi-file curl transfer plugin: one object per run that keeps the
    statistics of the file being transferred and the statistics ads of all
    files so far, the per-file retry loops, the resume bookkeeping of a
    download, and command-line parsing. Each attempt's libcurl, fopen and
    fstat outcome is an input (CurlCommon.Attempt); sleeping between
    attempts, the clock and the local host name are left out. */
module MultiFilePlugin {
  import opened Text
  import opened CurlCommon

  /** The FileTransferStats fields the plugin sets. The floating-point
      connection time and the start and end times are not modelled. */
  datatype FileStats = FileStats(
    transferType: string,
    transferTries: int,
    transferTotalBytes: int,
    transferReturnCode: int,
    transferSuccess: bool,
    transferError: string,
    transferFileBytes: int,
    transferProtocol: string,
    transferUrl: string,
    transferHostName: string,
    transferFileName: string,
    httpCacheHitOrMiss: string,
    httpCacheHost: string)

  /** A newly constructed FileTransferStats. */
  const NewStats: FileStats := FileStats("", 0, 0, 0, false, "", 0, "", "", "", "", "", "")

  /** The retry rule the plugin's loops apply (see CurlCommon.Continues). */
  const Rule: RetryRule := RetryOnAttemptNumber

  /** One ad of the input file: LocalFileName and Url, each possibly absent. */
  datatype RequestAd = RequestAd(localFileName: Option<string>, url: Option<string>)

  /** A transfer request: the (rewritten) URL and the local file name. */
  datatype Request = Request(url: string, localFileName: string)

  /** The requests BuildTransferRequests makes from the ads, where url and
      local are the values left in its variables by the previous ad:
      EvaluateAttrString leaves a variable alone when the ad lacks the
      attribute, so an ad without Url reuses the previous (already
      rewritten) URL. */
  function Requests(ads: seq<RequestAd>, url: string, local: string): (rs: seq<Request>)
    ensures |rs| == |ads|
  {
    if ads == [] then []
    else
      var l := if ads[0].localFileName.Some? then ads[0].localFileName.value else local;
      var u := DavRewrite(if ads[0].url.Some? then ads[0].url.value else url);
      [Request(u, l)] + Requests(ads[1..], u, l)
  }

  lemma RequestsStep(ads: seq<RequestAd>, i: nat, url: string, local: string)
    requires i < |ads|
    ensures var l := if ads[i].localFileName.Some? then ads[i].localFileName.value else local;
      var u := DavRewrite(if ads[i].url.Some? then ads[i].url.value else url);
      Requests(ads[i..], url, local) == [Request(u, l)] + Requests(ads[i + 1..], u, l)
  {
    assert ads[i..][1..] == ads[i + 1..];
  }

  /** When every ad carries both attributes, request k is ad k with its
      scheme rewritten. */
  lemma {:induction false} RequestsOfCompleteAds(ads: seq<RequestAd>, url: string, local: string)
    requires forall k :: 0 <= k < |ads| ==> ads[k].url.Some? && ads[k].localFileName.Some?
    ensures forall k :: 0 <= k < |ads| ==>
              Requests(ads, url, local)[k] == Request(DavRewrite(ads[k].url.value), ads[k].localFileName.value)
  {
    if ads != [] {
      var rs := Requests(ads, url, local);
      var u := DavRewrite(ads[0].url.value);
      RequestsOfCompleteAds(ads[1..], u, ads[0].localFileName.value);
      forall k | 0 <= k < |ads|
        ensures rs[k] == Request(DavRewrite(ads[k].url.value), ads[k].localFileName.value)
      {
        if k > 0 {
          assert rs[k] == Requests(ads[1..], u, ads[0].localFileName.value)[k - 1];
          assert ads[1..][k - 1] == ads[k];
        }
      }
    }
  }

  /** No request keeps a dav or davs scheme, and an ad without Url repeats
      the URL of the request before it. */
  lemma {:induction false} RequestUrlsRewritten(ads: seq<RequestAd>, url: string, local: string)
    requires !("davs://" <= url) && !("dav://" <= url)
    ensures forall k :: 0 <= k < |ads| ==>
              !("davs://" <= Requests(ads, url, local)[k].url) && !("dav://" <= Requests(ads, url, local)[k].url)
    ensures |ads| > 0 && ads[0].url.None? ==> Requests(ads, url, local)[0].url == url
    ensures forall k :: 0 < k < |ads| && ads[k].url.None? ==>
              Requests(ads, url, local)[k].url == Requests(ads, url, local)[k - 1].url
  {
    if ads != [] {
      var rs := Requests(ads, url, local);
      var l := if ads[0].localFileName.Some? then ads[0].localFileName.value else local;
      var raw := if ads[0].url.Some? then ads[0].url.value else url;
      DavRewriteIdempotent(raw);
      var u := DavRewrite(raw);
      RequestUrlsRewritten(ads[1..], u, l);
      var tail := Requests(ads[1..], u, l);
      assert rs == [Request(u, l)] + tail;
      forall k | 0 < k < |ads|
        ensures rs[k] == tail[k - 1] && ads[k] == ads[1..][k - 1]
      {
      }
    }
  }

  /** What a call of the upload or download routine returns for an
      attempt: -1 when the local file cannot be opened (or, for an upload,
      stat'ed), otherwise the curl result. */
  function RvalOf(upload: bool, a: Attempt): (r: int)
    ensures r == -1 <==> (!a.fileOpened || (upload && !a.statOk)) || a.code == -1
  {
    if !a.fileOpened || (upload && !a.statOk) then -1 else a.code
  }

  /** Whether the attempt reached curl_easy_perform. */
  predicate Performed(upload: bool, a: Attempt)
  {
    a.fileOpened && (!upload || a.statOk)
  }

  function RvalAt(upload: bool, at: nat -> Attempt): nat -> int
  {
    (k: nat) => RvalOf(upload, at(k))
  }

  /** The statistics after one performed attempt: type and tries, then
      FinishCurlTransfer's accounting. */
  function AfterAttempt(s: FileStats, upload: bool, a: Attempt): (r: FileStats)
  {
    s.(transferType := if upload then "upload" else "download",
       transferTries := s.transferTries + 1,
       transferTotalBytes := s.transferTotalBytes + a.bytes,
       transferReturnCode := a.responseCode,
       transferSuccess := a.code == CurleOk,
       transferError := if a.code == CurleOk then "" else a.errorBuffer,
       transferFileBytes := if a.code == CurleOk then a.position else s.transferFileBytes)
  }

  /** The statistics after the first n attempts. */
  function StatsAfterAttempts(s: FileStats, upload: bool, at: nat -> Attempt, n: nat): FileStats
  {
    if n == 0 then s
    else
      var before := StatsAfterAttempts(s, upload, at, n - 1);
      if Performed(upload, at(n - 1)) then AfterAttempt(before, upload, at(n - 1)) else before
  }

  function PerformedCount(upload: bool, at: nat -> Attempt, n: nat): (c: nat)
    ensures c <= n
  {
    if n == 0 then 0 else PerformedCount(upload, at, n - 1) + (if Performed(upload, at(n - 1)) then 1 else 0)
  }

  function BytesMoved(upload: bool, at: nat -> Attempt, n: nat): nat
  {
    if n == 0 then 0 else BytesMoved(upload, at, n - 1) + (if Performed(upload, at(n - 1)) then at(n - 1).bytes else 0)
  }

  /** TransferTries counts the attempts that reached curl, and
      TransferTotalBytes adds up what each of them moved; the other fields
      of the record are not touched by the attempts. */
  lemma {:induction false} StatsCountAttempts(s: FileStats, upload: bool, at: nat -> Attempt, n: nat)
    ensures var r := StatsAfterAttempts(s, upload, at, n);
      && r.transferTries == s.transferTries + PerformedCount(upload, at, n)
      && r.transferTotalBytes == s.transferTotalBytes + BytesMoved(upload, at, n)
      && r.transferProtocol == s.transferProtocol && r.transferUrl == s.transferUrl
      && r.transferHostName == s.transferHostName && r.transferFileName == s.transferFileName
  {
    if n > 0 {
      StatsCountAttempts(s, upload, at, n - 1);
    }
  }

  /** After a performed attempt, TransferSuccess says whether it succeeded;
      a failure records curl's error buffer and a success clears it. */
  lemma LastAttemptDecidesSuccess(s: FileStats, upload: bool, at: nat -> Attempt, n: nat)
    requires n > 0 && Performed(upload, at(n - 1))
    ensures var r := StatsAfterAttempts(s, upload, at, n);
      && (r.transferSuccess <==> RvalOf(upload, at(n - 1)) == CurleOk)
      && r.transferError == (if RvalOf(upload, at(n - 1)) == CurleOk then "" else at(n - 1).errorBuffer)
  {
  }

  /** The statistics InitializeStats leaves: the protocol when the URL has
      one of the four schemes, the URL, and the host when strtok found one.
      A NULL host token, which the source assigns to a std::string with
      undefined behaviour, is modelled as leaving the field as it was. */
  function StatsForUrl(s: FileStats, url: string): FileStats
  {
    var protocol := MultiFileProtocol(url);
    var host := HostOf(url);
    s.(transferProtocol := if protocol.Some? then protocol.value else s.transferProtocol,
       transferUrl := url,
       transferHostName := if host.Some? then host.value else s.transferHostName)
  }

  /** The number of attempts the loop makes for a file and what it returns. */
  function FileAttempts(upload: bool, at: nat -> Attempt): (n: nat)
    ensures 1 <= n <= MaxRetryAttempts + 1
  {
    Attempts(Rule, RvalAt(upload, at), 0)
  }

  /** What the retry loop returns for the file: the result of its last
      attempt. */
  function FileResult(upload: bool, at: nat -> Attempt): int
  {
    RvalOf(upload, at(FileAttempts(upload, at) - 1))
  }

  /** The statistics ad published for one request. */
  function FileAd(upload: bool, req: Request, at: nat -> Attempt): FileStats
  {
    StatsAfterAttempts(StatsForUrl(NewStats, req.url).(transferFileName := req.localFileName),
                       upload, at, FileAttempts(upload, at))
  }

  /** As the loop is written, a file gets exactly one attempt, so its
      result is that attempt's: a download whose local file cannot be
      opened gives -1 without reaching curl. */
  lemma OneAttemptPerFile(upload: bool, at: nat -> Attempt)
    ensures FileAttempts(upload, at) == 1
    ensures FileResult(upload, at) == RvalOf(upload, at(0))
    ensures !upload && !at(0).fileOpened ==> FileResult(upload, at) == -1
  {
    AttemptNumberRuleNeverRetries(RvalAt(upload, at));
  }

  /** The ad and the result of one file. */
  datatype Outcome = Outcome(ad: FileStats, result: int)

  function FileOutcome(upload: bool, req: Request, at: nat -> Attempt): Outcome
  {
    Outcome(FileAd(upload, req, at), FileResult(upload, at))
  }

  function AttemptsOf(attempts: (nat, nat) -> Attempt, i: nat): nat -> Attempt
  {
    (k: nat) => attempts(i, k)
  }

  /** [f(0), ..., f(n - 1)], built one element at a time. */
  function Tabulate<T>(f: nat -> T, n: nat): (s: seq<T>)
    ensures |s| == n
  {
    if n == 0 then [] else Tabulate(f, n - 1) + [f(n - 1)]
  }

  lemma {:induction false} TabulateAt<T>(f: nat -> T, n: nat, k: nat)
    requires k < n
    ensures Tabulate(f, n)[k] == f(k)
  {
    if k < n - 1 {
      TabulateAt(f, n - 1, k);
    }
  }

  /** The outcome of request i with its own attempts, attempts(i, k) being
      attempt k of file i. */
  function OutcomeOf(upload: bool, reqs: seq<Request>, attempts: (nat, nat) -> Attempt): nat -> Outcome
  {
    (i: nat) => FileOutcome(upload, if i < |reqs| then reqs[i] else Request("", ""), AttemptsOf(attempts, i))
  }

  /** The outcome of every request, in order. */
  function Outcomes(upload: bool, reqs: seq<Request>, attempts: (nat, nat) -> Attempt): (os: seq<Outcome>)
    ensures |os| == |reqs|
  {
    Tabulate(OutcomeOf(upload, reqs, attempts), |reqs|)
  }

  /** Outcome k is that of request k with its own attempts. */
  lemma OutcomeAt(upload: bool, reqs: seq<Request>, attempts: (nat, nat) -> Attempt, k: nat)
    requires k < |reqs|
    ensures Outcomes(upload, reqs, attempts)[k] == FileOutcome(upload, reqs[k], AttemptsOf(attempts, k))
  {
    TabulateAt(OutcomeOf(upload, reqs, attempts), |reqs|, k);
  }

  /** The ads of a run of outcomes, in order. */
  function AdsOf(os: seq<Outcome>): (ads: seq<FileStats>)
    ensures |ads| == |os|
  {
    if os == [] then [] else AdsOf(os[..|os| - 1]) + [os[|os| - 1].ad]
  }

  /** Ad k of the published list is the ad of outcome k. */
  lemma {:induction false} AdsOfAt(os: seq<Outcome>)
    ensures forall k :: 0 <= k < |os| ==> AdsOf(os)[k] == os[k].ad
  {
    if os != [] {
      AdsOfAt(os[..|os| - 1]);
    }
  }

  lemma AdsOfPrefix(os: seq<Outcome>, i: nat)
    requires i < |os|
    ensures AdsOf(os[..i + 1]) == AdsOf(os[..i]) + [os[i].ad]
  {
    assert os[..i + 1][..i] == os[..i];
  }

  lemma AppendAssociates<T>(a: seq<T>, b: seq<T>, c: seq<T>)
    ensures (a + b) + c == a + (b + c)
  {
  }

  predicate AllSucceeded(os: seq<Outcome>)
  {
    forall k :: 0 <= k < |os| ==> os[k].result == CurleOk
  }

  /** The upload loop's result: each failing file's result replaces the
      previous one, so it is the last failure, except that a -1 sticks. */
  function UploadResult(os: seq<Outcome>): int
  {
    if os == [] then CurleOk
    else
      var before := UploadResult(os[..|os| - 1]);
      var r := os[|os| - 1].result;
      if r != CurleOk && before != -1 then r else before
  }

  lemma UploadResultPrefix(os: seq<Outcome>, i: nat)
    requires i < |os|
    ensures var before := UploadResult(os[..i]);
      UploadResult(os[..i + 1]) == if os[i].result != CurleOk && before != -1 then os[i].result else before
  {
    assert os[..i + 1][..i] == os[..i];
  }

  /** The upload loop succeeds exactly when every file succeeded. */
  lemma {:induction false} UploadResultZeroIffAllSucceeded(os: seq<Outcome>)
    ensures UploadResult(os) == CurleOk <==> AllSucceeded(os)
  {
    if os != [] {
      var init := os[..|os| - 1];
      UploadResultZeroIffAllSucceeded(init);
      assert forall k :: 0 <= k < |init| ==> init[k] == os[k];
    }
  }

  /** Every outcome after k succeeded. */
  predicate SucceededAfter(os: seq<Outcome>, k: nat)
  {
    forall j :: k < j < |os| ==> os[j].result == CurleOk
  }

  /** The upload loop gives -1 exactly when some file gave -1; otherwise a
      failed upload gives the result of the last file that failed. */
  lemma {:induction false} UploadResultIsLastFailure(os: seq<Outcome>)
    ensures UploadResult(os) == -1 <==> exists k :: 0 <= k < |os| && os[k].result == -1
    ensures (forall k :: 0 <= k < |os| ==> os[k].result != -1) && UploadResult(os) != CurleOk ==>
              exists k :: 0 <= k < |os| && os[k].result == UploadResult(os) && SucceededAfter(os, k)
  {
    if os != [] {
      var init := os[..|os| - 1];
      var last := |os| - 1;
      UploadResultIsLastFailure(init);
      assert forall k :: 0 <= k < |init| ==> init[k] == os[k];
      if os[last].result == CurleOk && UploadResult(os) != CurleOk
         && (forall k :: 0 <= k < |os| ==> os[k].result != -1) {
        var k :| 0 <= k < |init| && init[k].result == UploadResult(init) && SucceededAfter(init, k);
        assert os[k].result == UploadResult(os) && SucceededAfter(os, k);
      }
      if os[last].result != CurleOk && UploadResult(init) != -1 {
        assert SucceededAfter(os, last);
      }
    }
  }

  /** The upload loop's result is the result of some file when it is not
      success. */
  lemma {:induction false} UploadResultIsAFileResult(os: seq<Outcome>)
    ensures UploadResult(os) != CurleOk ==> exists k :: 0 <= k < |os| && os[k].result == UploadResult(os)
  {
    if os != [] {
      var init := os[..|os| - 1];
      UploadResultIsAFileResult(init);
      if UploadResult(os) != CurleOk && UploadResult(os) == UploadResult(init) {
        var k :| 0 <= k < |init| && init[k].result == UploadResult(init);
        assert os[k] == init[k];
      }
    }
  }

  /** How many of the outcomes from i on the download loop processes: up to
      and including the first whose result is positive. */
  function StopIndex(os: seq<Outcome>, i: nat): (n: nat)
    requires i <= |os|
    decreases |os| - i
    ensures i <= n <= |os|
  {
    if i == |os| then |os|
    else if os[i].result > 0 then i + 1
    else StopIndex(os, i + 1)
  }

  /** One step of StopIndex: a positive result stops right after it. */
  lemma StopIndexStep(os: seq<Outcome>, i: nat)
    requires i < |os|
    ensures StopIndex(os, i) == if os[i].result > 0 then i + 1 else StopIndex(os, i + 1)
  {
  }

  /** One pass of the download loop: publishing file i's ad extends the
      published prefix by one, and StopIndex moves on unless i stops it. */
  lemma DownloadStep(os: seq<Outcome>, i: nat, base: seq<FileStats>)
    requires i < |os|
    ensures (base + AdsOf(os[..i])) + [os[i].ad] == base + AdsOf(os[..i + 1])
    ensures StopIndex(os, i) == if os[i].result > 0 then i + 1 else StopIndex(os, i + 1)
  {
    AdsOfPrefix(os, i);
    AppendAssociates(base, AdsOf(os[..i]), [os[i].ad]);
  }

  /** The download loop stops right after the first file with a positive
      result; every file before it ended with 0 or -1, and when none was
      positive every file is processed. */
  lemma {:induction false} StopIndexIsFirstPositive(os: seq<Outcome>, i: nat)
    requires i <= |os|
    decreases |os| - i
    ensures var n := StopIndex(os, i);
      && (forall k :: i <= k < n - 1 ==> os[k].result <= 0)
      && ((n > i && os[n - 1].result > 0) || forall k :: i <= k < |os| ==> os[k].result <= 0)
  {
    if i < |os| && os[i].result <= 0 {
      StopIndexIsFirstPositive(os, i + 1);
    }
  }

  /** A download whose local file cannot be opened returns -1, which does
      not end the loop, and the result of a later file replaces it: with
      the first file unopenable and the second transferred, both are
      processed and the plugin reports success. */
  lemma OpenFailureDoesNotStopDownloads(reqs: seq<Request>)
    requires |reqs| == 2
    ensures var attempts := (i: nat, k: nat) => Attempt(i != 0, true, CurleOk, 0, 200, "", 0, false, []);
      var os := Outcomes(false, reqs, attempts);
      StopIndex(os, 0) == 2 && os[0].result == -1 && os[1].result == CurleOk
  {
    var attempts := (i: nat, k: nat) => Attempt(i != 0, true, CurleOk, 0, 200, "", 0, false, []);
    OneAttemptPerFile(false, AttemptsOf(attempts, 0));
    OneAttemptPerFile(false, AttemptsOf(attempts, 1));
    OutcomeAt(false, reqs, attempts, 0);
    OutcomeAt(false, reqs, attempts, 1);
  }

  /** The command line, as main reads it. */
  datatype Command =
    | PrintClassAd
    | Invalid
    | Transfer(inputFile: string, outputFile: string, diagnostic: bool, upload: bool)

  /** The value following the last occurrence of flag among argv[1..n)
      that is not the final argument. */
  function LastValue(argv: seq<string>, flag: string, n: nat): (v: Option<string>)
    requires n <= |argv|
    ensures v.Some? ==> exists i :: 1 <= i < n && i < |argv| - 1 && argv[i] == flag && v.value == argv[i + 1]
    ensures v.None? ==> forall i :: 1 <= i < n && i < |argv| - 1 ==> argv[i] != flag
  {
    if n <= 1 then None
    else if argv[n - 1] == flag && n - 1 < |argv| - 1 then Some(argv[n])
    else LastValue(argv, flag, n - 1)
  }

  /** A value flag as the last argument has nothing to take. */
  predicate TrailingValueFlag(argv: seq<string>)
  {
    |argv| >= 2 && (argv[|argv| - 1] == "-infile" || argv[|argv| - 1] == "-outfile")
  }

  /** Whether flag occurs among argv[1..n). */
  predicate FlagSeen(argv: seq<string>, flag: string, n: nat)
    requires n <= |argv|
  {
    n > 1 && (argv[n - 1] == flag || FlagSeen(argv, flag, n - 1))
  }

  lemma {:induction false} FlagSeenMeansPresent(argv: seq<string>, flag: string, n: nat)
    requires n <= |argv|
    ensures FlagSeen(argv, flag, n) <==> exists i :: 1 <= i < n && argv[i] == flag
  {
    if n > 1 {
      FlagSeenMeansPresent(argv, flag, n - 1);
    }
  }

  /** main's reading of the command line. With exactly one argument only
      -classad is understood; otherwise a value flag takes the argument
      after it (the last occurrence wins), and a value flag with nothing
      after it, or no input file, makes the command invalid. */
  function CommandOf(argv: seq<string>): Command
  {
    if |argv| == 2 then (if argv[1] == "-classad" then PrintClassAd else Invalid)
    else
      var input := LastValue(argv, "-infile", |argv|);
      var output := LastValue(argv, "-outfile", |argv|);
      if TrailingValueFlag(argv) || input.None? || input.value == "" then Invalid
      else Transfer(input.value, if output.Some? then output.value else "",
                    FlagSeen(argv, "-diagnostic", |argv|), FlagSeen(argv, "-upload", |argv|))
  }

  /** A transfer command names a non-empty input file that follows some
      -infile, with no -infile after it taking a value; its flags are set
      exactly when they occur among the arguments. */
  lemma CommandOfTransfer(argv: seq<string>)
    requires CommandOf(argv).Transfer?
    ensures var c := CommandOf(argv);
            && |argv| != 2 && !TrailingValueFlag(argv) && c.inputFile != ""
            && (exists i :: LastTaking(argv, "-infile", |argv|, i) && argv[i + 1] == c.inputFile)
            && (c.upload <==> exists i :: 1 <= i < |argv| && argv[i] == "-upload")
            && (c.diagnostic <==> exists i :: 1 <= i < |argv| && argv[i] == "-diagnostic")
  {
    FlagSeenMeansPresent(argv, "-upload", |argv|);
    FlagSeenMeansPresent(argv, "-diagnostic", |argv|);
    var i := LastValueIsLast(argv, "-infile", |argv|);
  }

  /** argv[i] is flag with a value after it, and no later flag among
      argv[1..n) has one. */
  predicate LastTaking(argv: seq<string>, flag: string, n: nat, i: nat)
  {
    1 <= i < n && i < |argv| - 1 && argv[i] == flag
    && forall j :: i < j < n && j < |argv| - 1 ==> argv[j] != flag
  }

  /** The occurrence LastValue takes has no later one that takes a value. */
  lemma {:induction false} LastValueIsLast(argv: seq<string>, flag: string, n: nat) returns (i: nat)
    requires n <= |argv| && LastValue(argv, flag, n).Some?
    ensures LastTaking(argv, flag, n, i) && argv[i + 1] == LastValue(argv, flag, n).value
  {
    if argv[n - 1] == flag && n - 1 < |argv| - 1 {
      i := n - 1;
    } else {
      i := LastValueIsLast(argv, flag, n - 1);
    }
  }

  /** The result of the transfers main runs: 1 for an unreadable input,
      otherwise the upload or the download loop's result. */
  function RunResult(upload: bool, input: Option<seq<RequestAd>>, attempts: (nat, nat) -> Attempt): int
  {
    if input.None? then 1
    else
      var os := Outcomes(upload, Requests(input.value, "", ""), attempts);
      if upload then UploadResult(os)
      else
        var n := StopIndex(os, 0);
        if n == 0 then CurleOk else os[n - 1].result
  }

  /** The statistics ads the transfers main runs publish. */
  function RunAds(upload: bool, input: Option<seq<RequestAd>>, attempts: (nat, nat) -> Attempt): seq<FileStats>
  {
    if input.None? then []
    else
      var os := Outcomes(upload, Requests(input.value, "", ""), attempts);
      if upload then AdsOf(os) else AdsOf(os[..StopIndex(os, 0)])
  }

  /** The outcome of every requested file, as main requests them. */
  function RunOutcomes(upload: bool, ads: seq<RequestAd>, attempts: (nat, nat) -> Attempt): (os: seq<Outcome>)
    ensures |os| == |ads|
  {
    Outcomes(upload, Requests(ads, "", ""), attempts)
  }

  /** What the transfers' result means: an unreadable input gives 1; an
      upload succeeds exactly when every file did; a download reports a
      curl error exactly when some file ended with one (the first such
      ends the loop, and a -1 from a local file is not one). */
  lemma RunResultMeaning(upload: bool, input: Option<seq<RequestAd>>, attempts: (nat, nat) -> Attempt)
    ensures input.None? ==> RunResult(upload, input, attempts) == 1
    ensures input.Some? && upload ==>
              (RunResult(upload, input, attempts) == CurleOk <==>
               AllSucceeded(Outcomes(upload, Requests(input.value, "", ""), attempts)))
    ensures input.Some? && !upload ==>
              (RunResult(upload, input, attempts) > 0 <==>
               exists k :: 0 <= k < |input.value| && RunOutcomes(upload, input.value, attempts)[k].result > 0)
  {
    if input.Some? {
      var os := RunOutcomes(upload, input.value, attempts);
      if upload {
        UploadResultZeroIffAllSucceeded(os);
      } else {
        StopIndexIsFirstPositive(os, 0);
      }
    }
  }

  class MultiFileCurlPlugin {
    const diagnostic: bool
    /** _this_file_stats: the record of the file being transferred. */
    var thisFileStats: FileStats
    /** _all_files_stats: the published ad of every file so far. */
    var allFilesStats: seq<FileStats>

    constructor (diagnostic: bool)
      ensures this.diagnostic == diagnostic && thisFileStats == NewStats && allFilesStats == []
    {
      this.diagnostic := diagnostic;
      thisFileStats := NewStats;
      allFilesStats := [];
    }

    /** FinishCurlTransfer: add what curl moved (CURLINFO_SIZE_DOWNLOAD, for
        uploads as well as downloads), keep its response code, and
        record success (clearing the error and taking the file position) or
        failure (taking curl's error buffer). */
    method FinishCurlTransfer(rval: int, a: Attempt)
      modifies this`thisFileStats
      ensures thisFileStats == old(thisFileStats).(
                transferTotalBytes := old(thisFileStats).transferTotalBytes + a.bytes,
                transferReturnCode := a.responseCode,
                transferSuccess := rval == CurleOk,
                transferError := if rval == CurleOk then "" else a.errorBuffer,
                transferFileBytes := if rval == CurleOk then a.position else old(thisFileStats).transferFileBytes)
    {
      thisFileStats := thisFileStats.(transferTotalBytes := thisFileStats.transferTotalBytes + a.bytes,
                                      transferReturnCode := a.responseCode);
      if rval == CurleOk {
        thisFileStats := thisFileStats.(transferSuccess := true, transferError := "", transferFileBytes := a.position);
      } else {
        thisFileStats := thisFileStats.(transferSuccess := false, transferError := a.errorBuffer);
      }
    }

    /** UploadFile: -1 before any statistics when the file cannot be opened
        or stat'ed; otherwise one more try of type "upload" and the curl
        result. */
    method UploadFile(url: string, localFileName: string, a: Attempt) returns (rval: int)
      modifies this`thisFileStats
      ensures rval == RvalOf(true, a)
      ensures !Performed(true, a) ==> thisFileStats == old(thisFileStats)
      ensures Performed(true, a) ==> thisFileStats == AfterAttempt(old(thisFileStats), true, a)
    {
      rval := -1;
      if !a.fileOpened {
        return;
      }
      if !a.statOk {
        return;
      }
      thisFileStats := thisFileStats.(transferType := "upload", transferTries := thisFileStats.transferTries + 1);
      rval := a.code;
      FinishCurlTransfer(rval, a);
    }

    /** DownloadFile: the file is opened for append when a resume is pending
        (partialBytes nonzero) and then the range "<partialBytes>-" is
        requested; otherwise it is truncated. A partial transfer from a
        server that supports ranges records the file position to resume
        from. */
    method DownloadFile(url: string, localFileName: string, partialBytes: nat, a: Attempt)
      returns (rval: int, newPartialBytes: nat, mode: string, range: Option<string>)
      modifies this`thisFileStats
      ensures mode == (if partialBytes != 0 then "a+" else "w")
      ensures range == (if a.fileOpened && partialBytes != 0 then Some(DecimalString(partialBytes) + "-") else None)
      ensures rval == RvalOf(false, a)
      ensures newPartialBytes ==
                (if a.fileOpened && a.code == CurlePartialFile && a.serverSupportsResume then a.position else partialBytes)
      ensures !Performed(false, a) ==> thisFileStats == old(thisFileStats)
      ensures Performed(false, a) ==> thisFileStats == AfterAttempt(old(thisFileStats), false, a)
    {
      rval := -1;
      newPartialBytes := partialBytes;
      range := None;
      mode := if partialBytes != 0 then "a+" else "w";
      if !a.fileOpened {
        return;
      }
      if partialBytes != 0 {
        range := Some(DecimalString(partialBytes) + "-");
      }
      thisFileStats := thisFileStats.(transferType := "download", transferTries := thisFileStats.transferTries + 1);
      rval := a.code;
      if rval == CurlePartialFile && a.serverSupportsResume {
        newPartialBytes := a.position;
      }
      FinishCurlTransfer(rval, a);
    }

    /** The attempt/retry loop for one file, shared by the upload and
        download loops: the counter is incremented before each attempt, the
        loop stops on success, and goes round again while the counter is at
        most MaxRetryAttempts and ShouldRetryTransfer accepts the counter. */
    method TransferFile(url: string, localFileName: string, upload: bool, at: nat -> Attempt)
      returns (fileRval: int, tries: nat)
      modifies this`thisFileStats
      ensures tries == FileAttempts(upload, at)
      ensures fileRval == FileResult(upload, at)
      ensures thisFileStats == StatsAfterAttempts(old(thisFileStats), upload, at, tries)
    {
      var retryCount: nat := 0;
      var partialBytes: nat := 0;
      var done := false;
      fileRval := -1;
      while !done
        invariant retryCount <= MaxRetryAttempts + 1
        invariant !done ==> retryCount <= MaxRetryAttempts
                            && Attempts(Rule, RvalAt(upload, at), 0) == Attempts(Rule, RvalAt(upload, at), retryCount)
        invariant done ==> retryCount >= 1 && Attempts(Rule, RvalAt(upload, at), 0) == retryCount
                           && fileRval == RvalOf(upload, at(retryCount - 1))
        invariant thisFileStats == StatsAfterAttempts(old(thisFileStats), upload, at, retryCount)
        decreases MaxRetryAttempts + 1 - retryCount
      {
        var a := at(retryCount);
        assert RvalAt(upload, at)(retryCount) == RvalOf(upload, a);
        retryCount := retryCount + 1;
        if upload {
          fileRval := UploadFile(url, localFileName, a);
        } else {
          var mode, range;
          fileRval, partialBytes, mode, range := DownloadFile(url, localFileName, partialBytes, a);
        }
        if fileRval == CurleOk {
          done := true;
        } else if retryCount <= MaxRetryAttempts && ShouldRetryTransfer(retryCount) {
          // a transient failure: go round again
        } else {
          done := true;
        }
      }
      tries := retryCount;
    }

    /** InitializeStats: a fresh record for the URL. */
    method InitializeStats(url: string)
      modifies this`thisFileStats
      ensures thisFileStats == StatsForUrl(old(thisFileStats), url)
    {
      var protocol := MultiFileProtocol(url);
      if protocol.Some? {
        thisFileStats := thisFileStats.(transferProtocol := protocol.value);
      }
      thisFileStats := thisFileStats.(transferUrl := url);
      var (_, rest) := StrTok(url, 0, {':', '/'});
      var host := StrTok(url, rest, {'/'}).0;
      if host.Some? {
        thisFileStats := thisFileStats.(transferHostName := host.value);
      }
    }

    /** One file of a run: request i is transferred with its own attempts,
        its ad is published and its result returned. */
    method PublishRequest(requested: seq<Request>, upload: bool, attempts: (nat, nat) -> Attempt, i: nat)
      returns (fileRval: int)
      requires i < |requested|
      modifies this`thisFileStats, this`allFilesStats
      ensures var o := Outcomes(upload, requested, attempts)[i];
              fileRval == o.result && allFilesStats == old(allFilesStats) + [o.ad]
    {
      fileRval := TransferRequest(requested[i], upload, AttemptsOf(attempts, i));
      OutcomeAt(upload, requested, attempts, i);
      allFilesStats := allFilesStats + [thisFileStats];
    }

    /** Start a file: reset the record, fill in the URL and the local name,
        and run the retry loop. */
    method TransferRequest(req: Request, upload: bool, at: nat -> Attempt) returns (fileRval: int)
      modifies this`thisFileStats
      ensures Outcome(thisFileStats, fileRval) == FileOutcome(upload, req, at)
    {
      thisFileStats := NewStats;
      InitializeStats(req.url);
      thisFileStats := thisFileStats.(transferFileName := req.localFileName);
      var tries;
      fileRval, tries := TransferFile(req.url, req.localFileName, upload, at);
    }

    /** UploadMultipleFiles: every requested file is attempted and gets one
        statistics ad; the result is the last failure (a -1 sticks), so it
        is zero exactly when every file succeeded. An unreadable input
        gives 1 before any transfer. */
    method UploadMultipleFiles(input: Option<seq<RequestAd>>, attempts: (nat, nat) -> Attempt) returns (rval: int)
      modifies this`thisFileStats, this`allFilesStats
      ensures input.None? ==> rval == 1 && allFilesStats == old(allFilesStats)
      ensures input.Some? ==>
                var os := Outcomes(true, Requests(input.value, "", ""), attempts);
                allFilesStats == old(allFilesStats) + AdsOf(os) && rval == UploadResult(os)
    {
      var requested;
      rval, requested := BuildTransferRequests(input);
      if rval != 0 {
        return;
      }
      ghost var os := Outcomes(true, requested, attempts);
      var i := 0;
      while i < |requested|
        invariant 0 <= i <= |requested|
        invariant allFilesStats == old(allFilesStats) + AdsOf(os[..i])
        invariant rval == UploadResult(os[..i])
      {
        AdsOfPrefix(os, i);
        UploadResultPrefix(os, i);
        AppendAssociates(old(allFilesStats), AdsOf(os[..i]), [os[i].ad]);
        var fileRval := PublishRequest(requested, true, attempts, i);
        if fileRval != CurleOk && rval != -1 {
          rval := fileRval;
        }
        i := i + 1;
      }
      assert os[..i] == os;
    }

    /** DownloadMultipleFiles: files are attempted in order and each gets its
        ad, until one ends with a positive (curl) result; the result is that
        of the last file processed, or BuildTransferRequests' when there was
        none. */
    method DownloadMultipleFiles(input: Option<seq<RequestAd>>, attempts: (nat, nat) -> Attempt) returns (rval: int)
      modifies this`thisFileStats, this`allFilesStats
      ensures input.None? ==> rval == 1 && allFilesStats == old(allFilesStats)
      ensures input.Some? ==>
                var os := Outcomes(false, Requests(input.value, "", ""), attempts);
                var n := StopIndex(os, 0);
                && allFilesStats == old(allFilesStats) + AdsOf(os[..n])
                && rval == (if n == 0 then CurleOk else os[n - 1].result)
    {
      var requested;
      rval, requested := BuildTransferRequests(input);
      rval := DownloadRequests(requested, attempts, rval);
    }

    /** The loop of DownloadMultipleFiles over the requests, entered with
        BuildTransferRequests' result. */
    method DownloadRequests(requested: seq<Request>, attempts: (nat, nat) -> Attempt, rval0: int) returns (rval: int)
      modifies this`thisFileStats, this`allFilesStats
      ensures var os := Outcomes(false, requested, attempts);
              var n := StopIndex(os, 0);
              && allFilesStats == old(allFilesStats) + AdsOf(os[..n])
              && rval == (if n == 0 then rval0 else os[n - 1].result)
    {
      rval := rval0;
      ghost var os := Outcomes(false, requested, attempts);
      var i := 0;
      var stopped := false;
      while i < |requested| && !stopped
        invariant 0 <= i <= |requested|
        invariant allFilesStats == old(allFilesStats) + AdsOf(os[..i])
        invariant stopped ==> i > 0 && StopIndex(os, 0) == i
        invariant !stopped ==> StopIndex(os, 0) == StopIndex(os, i)
        invariant i > 0 ==> rval == os[i - 1].result
        invariant i == 0 ==> rval == rval0
      {
        DownloadStep(os, i, old(allFilesStats));
        rval := PublishRequest(requested, false, attempts, i);
        i := i + 1;
        stopped := rval > 0;
      }
      if !stopped {
        assert StopIndex(os, i) == i;
      }
    }

    /** BuildTransferRequests: 1 when the input file cannot be read, else 0
        and one request per ad. */
    method BuildTransferRequests(input: Option<seq<RequestAd>>) returns (rval: int, requested: seq<Request>)
      ensures input.None? ==> rval == 1 && requested == []
      ensures input.Some? ==> rval == 0 && requested == Requests(input.value, "", "")
    {
      requested := [];
      if input.None? {
        return 1, [];
      }
      var ads := input.value;
      var localFileName := "";
      var url := "";
      var i := 0;
      assert ads[0..] == ads;
      while i < |ads|
        invariant 0 <= i <= |ads|
        invariant requested + Requests(ads[i..], url, localFileName) == Requests(ads, "", "")
      {
        RequestsStep(ads, i, url, localFileName);
        localFileName := if ads[i].localFileName.Some? then ads[i].localFileName.value else localFileName;
        url := DavRewrite(if ads[i].url.Some? then ads[i].url.value else url);
        AppendAssociates(requested, [Request(url, localFileName)], Requests(ads[i + 1..], url, localFileName));
        requested := requested + [Request(url, localFileName)];
        i := i + 1;
      }
      assert ads[i..] == [];
      rval := 0;
    }

    /** HeaderCallback on the record it is handed (the source never sets
        CURLOPT_HEADERDATA, so the pointer it is handed is not this record;
        the model passes the record in): X-Cache and Via values
        found among the tokens of the header line (delimiters space, CR and
        LF) go into the cache fields; it reports the whole buffer consumed. */
    method HeaderCallback(buffer: string, size: nat, nitems: nat, stats: FileStats)
      returns (numBytes: nat, updated: FileStats)
      ensures numBytes == size * nitems
      ensures updated == ApplyHeaderEvents(stats, HeaderEvents(TokensFrom(buffer, 0, {' ', '\r', '\n'})))
    {
      numBytes := nitems * size;
      var events := ScanHeader(buffer, {' ', '\r', '\n'});
      updated := stats;
      var i := 0;
      while i < |events|
        invariant 0 <= i <= |events|
        invariant updated == ApplyHeaderEvents(stats, events[..i])
      {
        assert events[..i + 1][..i] == events[..i];
        updated := ApplyHeaderEvent(updated, events[i]);
        i := i + 1;
      }
      assert events[..|events|] == events;
    }

    /** main's reading of the command line. With exactly one argument only
        -classad is understood; otherwise every argument is examined, a value
        flag takes the argument after it (the last occurrence wins), and a
        value flag with nothing after it makes the command invalid, as does
        a missing input file. */
    static method ParseCommandLine(argv: seq<string>) returns (c: Command)
      ensures c == CommandOf(argv)
    {
      var validInputs := true;
      var diagnostic := false;
      var upload := false;
      var inputFilename := "";
      var outputFilename := "";
      if |argv| == 2 {
        if argv[1] == "-classad" {
          return PrintClassAd;
        }
      } else {
        var i := 1;
        while i < |argv|
          invariant 1 <= i <= |argv| || (|argv| == 0 && inputFilename == "")
          invariant |argv| > 0 ==> inputFilename == (var v := LastValue(argv, "-infile", i); if v.Some? then v.value else "")
          invariant |argv| > 0 ==> outputFilename == (var v := LastValue(argv, "-outfile", i); if v.Some? then v.value else "")
          invariant validInputs <==> !(TrailingValueFlag(argv) && i == |argv|)
          invariant |argv| > 0 ==> (diagnostic <==> FlagSeen(argv, "-diagnostic", i))
          invariant |argv| > 0 ==> (upload <==> FlagSeen(argv, "-upload", i))
        {
          if argv[i] == "-infile" {
            if i < |argv| - 1 {
              inputFilename := argv[i + 1];
            } else {
              validInputs := false;
            }
          }
          if argv[i] == "-outfile" {
            if i < |argv| - 1 {
              outputFilename := argv[i + 1];
            } else {
              validInputs := false;
            }
          }
          if argv[i] == "-diagnostic" {
            diagnostic := true;
          }
          if argv[i] == "-upload" {
            upload := true;
          }
          i := i + 1;
        }
      }
      if !validInputs || inputFilename == "" {
        return Invalid;
      }
      return Transfer(inputFilename, outputFilename, diagnostic, upload);
    }
  }

  /** Record one header finding. A NULL token, which the source assigns to
      a std::string with undefined behaviour, is modelled as leaving the
      field as it was. */
  function ApplyHeaderEvent(s: FileStats, e: HeaderEvent): FileStats
  {
    match e
    case CacheStatus(v) => if v.Some? then s.(httpCacheHitOrMiss := v.value) else s
    case CacheHost(h) => if h.Some? then s.(httpCacheHost := h.value) else s
  }

  function ApplyHeaderEvents(s: FileStats, es: seq<HeaderEvent>): (r: FileStats)
    ensures r == s.(httpCacheHitOrMiss := r.httpCacheHitOrMiss, httpCacheHost := r.httpCacheHost)
  {
    if es == [] then s else ApplyHeaderEvent(ApplyHeaderEvents(s, es[..|es| - 1]), es[|es| - 1])
  }

  /** The cache status recorded is the value of the last X-Cache header
      that had one. */
  lemma {:induction false} LastCacheStatusWins(s: FileStats, es: seq<HeaderEvent>, v: string)
    requires es != [] && es[|es| - 1] == CacheStatus(Some(v))
    ensures ApplyHeaderEvents(s, es).httpCacheHitOrMiss == v
  {
  }

  /** main after the command line: the exit status. -classad prints the
      capability ad and succeeds; a bad command line or a failed curl
      initialisation gives 1; otherwise the transfers run, and failing to
      open a named statistics output file gives 1, else the transfer
      result. */
  method RunPlugin(argv: seq<string>, curlInit: int, input: Option<seq<RequestAd>>,
                   attempts: (nat, nat) -> Attempt, outputOpens: bool)
    returns (exitCode: int, plugin: MultiFileCurlPlugin?)
    ensures |argv| == 2 && argv[1] == "-classad" ==> exitCode == 0 && plugin == null
    ensures |argv| == 2 && argv[1] != "-classad" ==> exitCode == 1 && plugin == null
    ensures CommandOf(argv).Invalid? ==> exitCode == 1 && plugin == null
    ensures CommandOf(argv).Transfer? && curlInit != 0 ==> exitCode == 1 && plugin == null
    ensures CommandOf(argv).Transfer? && curlInit == 0 ==>
              var c := CommandOf(argv);
              && plugin != null && fresh(plugin)
              && plugin.diagnostic == c.diagnostic
              && plugin.allFilesStats == RunAds(c.upload, input, attempts)
              && exitCode == (if c.outputFile != "" && !outputOpens then 1 else RunResult(c.upload, input, attempts))
    ensures plugin != null ==> fresh(plugin)
  {
    var c := MultiFileCurlPlugin.ParseCommandLine(argv);
    plugin := null;
    match c
    case PrintClassAd => exitCode := 0;
    case Invalid => exitCode := 1;
    case Transfer(inputFile, outputFile, diagnostic, upload) =>
      if curlInit != 0 {
        exitCode := 1;
        return;
      }
      plugin := new MultiFileCurlPlugin(diagnostic);
      var rval;
      if upload {
        rval := plugin.UploadMultipleFiles(input, attempts);
      } else {
        rval := plugin.DownloadMultipleFiles(input, attempts);
      }
      if outputFile != "" && !outputOpens {
        exitCode := 1;
      } else {
        exitCode := rval;
      }
  }
}
