/** The protocol features setPeerVersion switches on or off from the
    version of the HTCondor at the other end of a file transfer. */
module PeerVersion {

  datatype Version = Version(major: int, minor: int, subMinor: int)

  /** CondorVersionInfo::built_since_version: the peer's version is at
      least major.minor.subMinor. */
  predicate BuiltSince(v: Version, major: int, minor: int, subMinor: int)
  {
    v.major > major
    || (v.major == major && (v.minor > minor || (v.minor == minor && v.subMinor >= subMinor)))
  }

  /** Version order. */
  predicate AtMost(a: Version, b: Version)
  {
    BuiltSince(b, a.major, a.minor, a.subMinor)
  }

  datatype PeerFeatures = PeerFeatures(
    transferFilePermissions: bool,
    delegateX509Credentials: bool,
    peerDoesTransferAck: bool,
    peerDoesGoAhead: bool,
    peerUnderstandsMkdir: bool,
    transferUserLog: bool,
    peerDoesXferInfo: bool,
    peerDoesReuseInfo: bool,
    peerDoesS3Urls: bool)

  /** setPeerVersion; delegateConfig is the DELEGATE_JOB_GSI_CREDENTIALS
      setting (true when unset). */
  function FeaturesFor(v: Version, delegateConfig: bool): (f: PeerFeatures)
    // the user log is sent only to peers older than 7.6.0
    ensures f.transferUserLog <==> !BuiltSince(v, 7, 6, 0)
    // delegation needs both a recent peer and the configuration
    ensures f.delegateX509Credentials ==> delegateConfig
  {
    PeerFeatures(
      transferFilePermissions := BuiltSince(v, 6, 7, 7),
      delegateX509Credentials := BuiltSince(v, 6, 7, 19) && delegateConfig,
      peerDoesTransferAck := BuiltSince(v, 6, 7, 20),
      peerDoesGoAhead := BuiltSince(v, 6, 9, 5),
      peerUnderstandsMkdir := BuiltSince(v, 7, 5, 4),
      transferUserLog := !BuiltSince(v, 7, 6, 0),
      peerDoesXferInfo := BuiltSince(v, 8, 1, 0),
      peerDoesReuseInfo := BuiltSince(v, 8, 9, 4),
      peerDoesS3Urls := BuiltSince(v, 8, 9, 4))
  }

  lemma BuiltSinceMonotone(a: Version, b: Version, major: int, minor: int, subMinor: int)
    requires AtMost(a, b)
    ensures BuiltSince(a, major, minor, subMinor) ==> BuiltSince(b, major, minor, subMinor)
  {
  }

  /** A newer peer keeps every feature an older one has, and no longer
      receives the user log once an older one does not. */
  lemma FeaturesGrowWithVersion(a: Version, b: Version, delegateConfig: bool)
    requires AtMost(a, b)
    ensures var fa := FeaturesFor(a, delegateConfig);
      var fb := FeaturesFor(b, delegateConfig);
      (fa.transferFilePermissions ==> fb.transferFilePermissions)
      && (fa.delegateX509Credentials ==> fb.delegateX509Credentials)
      && (fa.peerDoesTransferAck ==> fb.peerDoesTransferAck)
      && (fa.peerDoesGoAhead ==> fb.peerDoesGoAhead)
      && (fa.peerUnderstandsMkdir ==> fb.peerUnderstandsMkdir)
      && (!fa.transferUserLog ==> !fb.transferUserLog)
      && (fa.peerDoesXferInfo ==> fb.peerDoesXferInfo)
      && (fa.peerDoesReuseInfo ==> fb.peerDoesReuseInfo)
      && (fa.peerDoesS3Urls ==> fb.peerDoesS3Urls)
  {
    BuiltSinceMonotone(a, b, 6, 7, 7);
    BuiltSinceMonotone(a, b, 6, 7, 19);
    BuiltSinceMonotone(a, b, 6, 7, 20);
    BuiltSinceMonotone(a, b, 6, 9, 5);
    BuiltSinceMonotone(a, b, 7, 5, 4);
    BuiltSinceMonotone(a, b, 7, 6, 0);
    BuiltSinceMonotone(a, b, 8, 1, 0);
    BuiltSinceMonotone(a, b, 8, 9, 4);
  }

  /** The features arrived in this order, so each implies the earlier
      ones: S3 URLs and reuse info, transfer info, mkdir, go-ahead,
      transfer ack, file permissions. */
  lemma FeaturesAreCumulative(v: Version, delegateConfig: bool)
    ensures var f := FeaturesFor(v, delegateConfig);
      (f.peerDoesS3Urls <==> f.peerDoesReuseInfo)
      && (f.peerDoesReuseInfo ==> f.peerDoesXferInfo)
      && (f.peerDoesXferInfo ==> !f.transferUserLog)
      && (!f.transferUserLog ==> f.peerUnderstandsMkdir)
      && (f.peerUnderstandsMkdir ==> f.peerDoesGoAhead)
      && (f.peerDoesGoAhead ==> f.peerDoesTransferAck)
      && (f.peerDoesTransferAck ==> f.transferFilePermissions)
      && (f.peerDoesTransferAck && delegateConfig ==> f.delegateX509Credentials)
  {
  }
}
