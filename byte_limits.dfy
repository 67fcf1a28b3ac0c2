/** How many bytes the next file of a transfer may carry, given the limit
    on the whole transfer and the bytes already moved. A negative limit,
    and a result of -1, mean "no limit". */
module ByteLimits {

  /** The slack the downloading side allows beyond its own limit. */
  const MaxBytesSlack: int := 65535

  /** What remains of a non-negative limit once total bytes have moved;
      never negative. */
  function Remaining(limit: int, total: int): int
  {
    if limit >= total then limit - total else 0
  }

  /** The per-file limit of DoDownload. */
  function DownloadFileMaxBytes(maxDownloadBytes: int, total: int): (r: int)
  {
    if maxDownloadBytes < 0 then -1
    else if maxDownloadBytes + MaxBytesSlack >= total then maxDownloadBytes + MaxBytesSlack - total
    else 0
  }

  /** The limit DoUpload applies: the peer's when the peer has one and
      it is smaller, or when the uploading side has none. */
  function EffectiveUploadLimit(maxUploadBytes: int, peerMaxBytes: int): (r: int)
  {
    if peerMaxBytes >= 0 && (peerMaxBytes < maxUploadBytes || maxUploadBytes < 0)
    then peerMaxBytes else maxUploadBytes
  }

  /** The per-file limit of DoUpload. */
  function UploadFileMaxBytes(maxUploadBytes: int, peerMaxBytes: int, total: int): (r: int)
  {
    var effective := EffectiveUploadLimit(maxUploadBytes, peerMaxBytes);
    if effective < 0 then -1
    else if effective >= total then effective - total
    else 0
  }

  /** Download: no limit exactly when the limit is negative; otherwise
      the limit plus slack less what has moved, and never below zero. The
      next file can at most take the transfer up to limit plus slack. */
  lemma DownloadLimitMeaning(maxDownloadBytes: int, total: int)
    ensures DownloadFileMaxBytes(maxDownloadBytes, total) == -1 <==> maxDownloadBytes < 0
    ensures maxDownloadBytes >= 0 ==>
              DownloadFileMaxBytes(maxDownloadBytes, total) == Remaining(maxDownloadBytes + MaxBytesSlack, total)
    ensures maxDownloadBytes >= 0 ==>
              DownloadFileMaxBytes(maxDownloadBytes, total) >= 0
              && (total <= maxDownloadBytes + MaxBytesSlack ==>
                    total + DownloadFileMaxBytes(maxDownloadBytes, total) == maxDownloadBytes + MaxBytesSlack)
  {
  }

  /** The effective upload limit is the smaller of two limits when both
      exist, the one that exists when only one does, and none otherwise. */
  lemma EffectiveUploadLimitIsTighter(own: int, peer: int)
    ensures own >= 0 && peer >= 0 ==> EffectiveUploadLimit(own, peer) == (if peer < own then peer else own)
    ensures own < 0 && peer >= 0 ==> EffectiveUploadLimit(own, peer) == peer
    ensures peer < 0 ==> EffectiveUploadLimit(own, peer) == own
    ensures EffectiveUploadLimit(own, peer) < 0 <==> own < 0 && peer < 0
  {
  }

  /** Upload: no limit exactly when neither side has one; otherwise what
      remains of the effective limit, never below zero. */
  lemma UploadLimitMeaning(maxUploadBytes: int, peerMaxBytes: int, total: int)
    ensures (UploadFileMaxBytes(maxUploadBytes, peerMaxBytes, total) == -1)
            <==> (maxUploadBytes < 0 && peerMaxBytes < 0)
    ensures EffectiveUploadLimit(maxUploadBytes, peerMaxBytes) >= 0 ==>
              UploadFileMaxBytes(maxUploadBytes, peerMaxBytes, total)
                == Remaining(EffectiveUploadLimit(maxUploadBytes, peerMaxBytes), total)
  {
  }

  /** Moving more bytes never raises what the next file may carry. */
  lemma LimitsShrinkAsBytesMove(maxDownloadBytes: int, maxUploadBytes: int, peerMaxBytes: int,
                                t1: int, t2: int)
    requires t1 <= t2
    ensures DownloadFileMaxBytes(maxDownloadBytes, t2) <= DownloadFileMaxBytes(maxDownloadBytes, t1)
    ensures UploadFileMaxBytes(maxUploadBytes, peerMaxBytes, t2)
              <= UploadFileMaxBytes(maxUploadBytes, peerMaxBytes, t1)
  {
  }
}
