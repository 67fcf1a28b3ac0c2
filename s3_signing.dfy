/** Presigning of S3 output URLs during a transfer. The downloading side
    receives the list of URLs the uploading side wants signed, signs the
    s3:// URLs that fall under one of the job's output URL prefixes and
    sends back one entry per URL; the uploading side pairs the answers
    with its URLs. The signing itself (htcondor::generate_presigned_url)
    is a parameter. */
module S3Signing {
  import opened Text

  /** An entry of a ClassAd list: a string, or anything that does not
      evaluate to one. */
  datatype ListEntry = StringEntry(s: string) | NotAString

  /** The output URL prefixes loop: some prefix begins url. */
  method HasGoodPrefix(url: string, prefixes: seq<string>) returns (good: bool)
    ensures good <==> exists i :: 0 <= i < |prefixes| && prefixes[i] <= url
  {
    good := false;
    var i := 0;
    while i < |prefixes|
      invariant 0 <= i <= |prefixes|
      invariant forall j :: 0 <= j < i ==> !(prefixes[j] <= url)
    {
      if prefixes[i] <= url {
        good := true;
        break;
      }
      i := i + 1;
    }
  }

  /** The URL is signed: signing is enabled, the URL is an s3:// URL
      under one of the prefixes, and it holds no "/..". */
  predicate ShouldSign(url: string, signS3: bool, prefixes: seq<string>)
  {
    signS3 && "s3://" <= url
    && (exists i :: 0 <= i < |prefixes| && prefixes[i] <= url)
    && !ContainsSubstring(url, "/..")
  }

  /** The answer for one entry: "" for an entry that is not a string, for
      an s3:// URL that must not be signed and for a signing failure; the
      signed URL; any other string unchanged. */
  function SignedEntry(e: ListEntry, signS3: bool, prefixes: seq<string>,
                       sign: string -> Option<string>): (r: string)
    ensures e.NotAString? ==> r == ""
    ensures e.StringEntry? && !(signS3 && "s3://" <= e.s) ==> r == e.s
    ensures e.StringEntry? && signS3 && "s3://" <= e.s && !ShouldSign(e.s, signS3, prefixes) ==> r == ""
    ensures e.StringEntry? && ShouldSign(e.s, signS3, prefixes) ==>
              r == (if sign(e.s).Some? then sign(e.s).value else "")
  {
    if e.NotAString? then ""
    else if signS3 && "s3://" <= e.s then
      if ShouldSign(e.s, signS3, prefixes) && sign(e.s).Some? then sign(e.s).value else ""
    else e.s
  }

  /** The downloading side's loop over the SignList. */
  method SignUrls(entries: seq<ListEntry>, signS3: bool, prefixes: seq<string>,
                  sign: string -> Option<string>) returns (signed: seq<string>)
    ensures |signed| == |entries|
    ensures forall i :: 0 <= i < |entries| ==> signed[i] == SignedEntry(entries[i], signS3, prefixes, sign)
  {
    signed := [];
    var i := 0;
    while i < |entries|
      invariant 0 <= i <= |entries| && |signed| == i
      invariant forall j :: 0 <= j < i ==> signed[j] == SignedEntry(entries[j], signS3, prefixes, sign)
    {
      var e := entries[i];
      var answer: string;
      if e.NotAString? {
        answer := "";
      } else if signS3 && "s3://" <= e.s {
        var good := HasGoodPrefix(e.s, prefixes);
        if ContainsSubstring(e.s, "/..") {
          good := false;
        }
        if good {
          var r := sign(e.s);
          answer := if r.Some? then r.value else "";
        } else {
          answer := "";
        }
      } else {
        answer := e.s;
      }
      signed := signed + [answer];
      i := i + 1;
    }
  }

  /** A URL that reaches outside the prefixes, or holds "/..", is never
      signed: its answer is empty. */
  lemma NoSignatureOutsidePrefixes(e: ListEntry, signS3: bool, prefixes: seq<string>,
                                   sign: string -> Option<string>)
    requires e.StringEntry? && "s3://" <= e.s
    requires ContainsSubstring(e.s, "/..") || forall i :: 0 <= i < |prefixes| ==> !(prefixes[i] <= e.s)
    ensures signS3 ==> SignedEntry(e, signS3, prefixes, sign) == ""
  {
  }

  /** std::map::insert: an existing key keeps its value. */
  function Insert(m: map<string, string>, k: string, v: string): map<string, string>
  {
    if k in m then m else m[k := v]
  }

  /** The pairing the uploading side performs, entry by entry: the i-th
      answer belongs to the i-th URL it asked for; answers past the last
      URL are ignored, non-strings and empty strings are skipped. */
  function Zip(urls: seq<string>, answers: seq<ListEntry>, m: map<string, string>): map<string, string>
    decreases |answers|
  {
    if answers == [] || urls == [] then m
    else
      var m' := if answers[0].StringEntry? && answers[0].s != [] then Insert(m, urls[0], answers[0].s) else m;
      Zip(urls[1..], answers[1..], m')
  }

  /** The uploading side's loop over the signed list. */
  method PairSignedUrls(urls: seq<string>, answers: seq<ListEntry>, m0: map<string, string>)
    returns (m: map<string, string>)
    ensures m == Zip(urls, answers, m0)
  {
    m := m0;
    var idx := 0;
    while idx < |answers|
      invariant 0 <= idx <= |answers| && idx <= |urls|
      invariant Zip(urls[idx..], answers[idx..], m) == Zip(urls, answers, m0)
    {
      if idx == |urls| {
        break;
      }
      var e := answers[idx];
      if e.StringEntry? && e.s != [] {
        m := Insert(m, urls[idx], e.s);
      }
      assert urls[idx..][1..] == urls[idx + 1..] && answers[idx..][1..] == answers[idx + 1..];
      idx := idx + 1;
    }
  }

  /** A URL gets its signed form in the answer map. */
  predicate AnsweredAt(urls: seq<string>, answers: seq<ListEntry>, i: int)
  {
    0 <= i < |urls| && i < |answers| && answers[i].StringEntry? && answers[i].s != []
  }

  /** Some non-empty answer was given for URL k. */
  ghost predicate AnsweredFor(urls: seq<string>, answers: seq<ListEntry>, k: string)
  {
    exists i :: AnsweredAt(urls, answers, i) && urls[i] == k
  }

  /** The pairing keeps the map's earlier entries. */
  lemma {:induction false} ZipKeepsEntries(urls: seq<string>, answers: seq<ListEntry>, m: map<string, string>)
    ensures forall k :: k in m ==> k in Zip(urls, answers, m) && Zip(urls, answers, m)[k] == m[k]
    decreases |answers|
  {
    if answers != [] && urls != [] {
      var m' := if answers[0].StringEntry? && answers[0].s != [] then Insert(m, urls[0], answers[0].s) else m;
      ZipKeepsEntries(urls[1..], answers[1..], m');
    }
  }

  /** A URL is in the result exactly when it was already in the map or
      some answer for it was a non-empty string. */
  lemma {:induction false} ZipKeys(urls: seq<string>, answers: seq<ListEntry>, m: map<string, string>)
    ensures forall k :: k in Zip(urls, answers, m) <==> k in m || AnsweredFor(urls, answers, k)
    decreases |answers|
  {
    if answers != [] && urls != [] {
      var m' := if AnsweredAt(urls, answers, 0) then Insert(m, urls[0], answers[0].s) else m;
      ZipKeys(urls[1..], answers[1..], m');
      forall k
        ensures AnsweredFor(urls, answers, k) <==>
                  (AnsweredAt(urls, answers, 0) && urls[0] == k) || AnsweredFor(urls[1..], answers[1..], k)
      {
        if exists i :: AnsweredAt(urls, answers, i) && urls[i] == k {
          var i :| AnsweredAt(urls, answers, i) && urls[i] == k;
          if i > 0 {
            assert AnsweredAt(urls[1..], answers[1..], i - 1) && urls[1..][i - 1] == k;
          }
        }
        if exists i :: AnsweredAt(urls[1..], answers[1..], i) && urls[1..][i] == k {
          var i :| AnsweredAt(urls[1..], answers[1..], i) && urls[1..][i] == k;
          assert AnsweredAt(urls, answers, i + 1) && urls[i + 1] == k;
        }
      }
    }
  }

  /** Every value the pairing adds is the answer given for its URL. */
  lemma {:induction false} ZipValues(urls: seq<string>, answers: seq<ListEntry>, m: map<string, string>)
    ensures forall k :: k in Zip(urls, answers, m) && k !in m ==>
              exists i :: 0 <= i < |urls| && i < |answers| && urls[i] == k
                          && answers[i] == StringEntry(Zip(urls, answers, m)[k])
    decreases |answers|
  {
    if answers != [] && urls != [] {
      var m' := if answers[0].StringEntry? && answers[0].s != [] then Insert(m, urls[0], answers[0].s) else m;
      ZipValues(urls[1..], answers[1..], m');
      ZipKeepsEntries(urls[1..], answers[1..], m');
      var z := Zip(urls, answers, m);
      forall k | k in z && k !in m
        ensures exists i :: 0 <= i < |urls| && i < |answers| && urls[i] == k && answers[i] == StringEntry(z[k])
      {
        if k in m' {
          assert urls[0] == k && answers[0] == StringEntry(z[k]);
        } else {
          var i :| 0 <= i < |urls[1..]| && i < |answers[1..]| && urls[1..][i] == k
                   && answers[1..][i] == StringEntry(z[k]);
          assert urls[i + 1] == k && answers[i + 1] == answers[1..][i];
        }
      }
    }
  }
}
