/** The acknowledgment ClassAd one side of a file transfer sends the other
    once all files have moved: its Result code and, on failure, the hold
    code, subcode and reason. */
module TransferAck {
  import opened Text

  /** CONDOR_HOLD_CODE_InvalidTransferAck. */
  const InvalidTransferAck: int := 11

  const MissingResultMessage: string := "Download acknowledgment missing attribute: Result"

  /** The attributes of the acknowledgment ad; an attribute that is absent
      or of the wrong type is None. */
  datatype AckAd = AckAd(
    result: Option<int>,
    holdCode: Option<int>,
    holdSubcode: Option<int>,
    holdReason: Option<string>)

  /** The out-parameters GetTransferAck fills in. */
  datatype AckOutcome = AckOutcome(
    success: bool,
    tryAgain: bool,
    holdCode: int,
    holdSubcode: int,
    errorDesc: string)

  /** The Result code: 0 success, 1 transient failure, -1 failure that
      should put the job on hold. */
  function ResultCode(success: bool, tryAgain: bool): (r: int)
    ensures r == 0 <==> success
    ensures r > 0 <==> !success && tryAgain
    ensures r < 0 <==> !success && !tryAgain
    ensures -1 <= r <= 1
  {
    if success then 0 else if tryAgain then 1 else -1
  }

  /** The ad SendTransferAck sends. */
  function EncodeAck(success: bool, tryAgain: bool, holdCode: int, holdSubcode: int,
                     holdReason: Option<string>): (ad: AckAd)
    ensures ad.result == Some(ResultCode(success, tryAgain))
    ensures success ==> ad.holdCode.None? && ad.holdSubcode.None? && ad.holdReason.None?
    ensures !success ==> ad.holdCode == Some(holdCode) && ad.holdSubcode == Some(holdSubcode)
                         && ad.holdReason == holdReason
  {
    if success then AckAd(Some(0), None, None, None)
    else AckAd(Some(ResultCode(success, tryAgain)), Some(holdCode), Some(holdSubcode), holdReason)
  }

  /** GetTransferAck: what the receiver concludes from the acknowledgment
      it received (None when receiving it failed), starting from the
      out-parameters' previous values. */
  function DecodeAck(peerDoesAck: bool, received: Option<AckAd>, prior: AckOutcome): (r: AckOutcome)
    // a peer too old to acknowledge: success, nothing else touched
    ensures !peerDoesAck ==> r == prior.(success := true)
    // a lost acknowledgment is transient
    ensures peerDoesAck && received.None? ==> r == prior.(success := false, tryAgain := true)
    // an acknowledgment without Result puts the job on hold
    ensures peerDoesAck && received.Some? && received.value.result.None? ==>
              !r.success && !r.tryAgain && r.holdCode == InvalidTransferAck && r.holdSubcode == 0
              && r.errorDesc == MissingResultMessage
    ensures peerDoesAck && received.Some? && received.value.result.Some? ==>
              var ad := received.value;
              (r.success <==> ad.result.value == 0)
              && (r.tryAgain <==> ad.result.value > 0)
              && r.holdCode == (if ad.holdCode.Some? then ad.holdCode.value else 0)
              && r.holdSubcode == (if ad.holdSubcode.Some? then ad.holdSubcode.value else 0)
              && r.errorDesc == (if ad.holdReason.Some? then ad.holdReason.value else prior.errorDesc)
  {
    if !peerDoesAck then prior.(success := true)
    else if received.None? then prior.(success := false, tryAgain := true)
    else
      var ad := received.value;
      if ad.result.None? then
        AckOutcome(false, false, InvalidTransferAck, 0, MissingResultMessage)
      else
        var code := ad.result.value;
        AckOutcome(
          code == 0,
          code > 0,
          if ad.holdCode.Some? then ad.holdCode.value else 0,
          if ad.holdSubcode.Some? then ad.holdSubcode.value else 0,
          if ad.holdReason.Some? then ad.holdReason.value else prior.errorDesc)
  }

  /** What the sender reports arrives intact: the verdict, and on failure
      the retry flag, hold code, subcode and (when given) reason; a
      success always reads as "do not retry", with hold codes 0. */
  lemma AckRoundTrip(success: bool, tryAgain: bool, holdCode: int, holdSubcode: int,
                     holdReason: Option<string>, prior: AckOutcome)
    ensures var r := DecodeAck(true, Some(EncodeAck(success, tryAgain, holdCode, holdSubcode, holdReason)), prior);
      r.success == success
      && r.tryAgain == (!success && tryAgain)
      && r.holdCode == (if success then 0 else holdCode)
      && r.holdSubcode == (if success then 0 else holdSubcode)
      && r.errorDesc == (if !success && holdReason.Some? then holdReason.value else prior.errorDesc)
  {
  }
}
