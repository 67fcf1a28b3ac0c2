/** The status reports a file-transfer thread sends its parent through a
    pipe: an in-progress update (command byte 0 and the new status) and
    the final report (command byte 1, the byte count, the retry flag, the
    hold code and subcode, and two length-prefixed C strings: the error
    description and the list of spooled files). Integers travel in the
    host's byte order, taken here as little-endian two's complement; a
    bool is one byte. */
module TransferPipe {
  import opened Text

  const InProgressUpdateCmd: byte := 0
  const FinalUpdateCmd: byte := 1

  /** FileTransferStatus XFER_STATUS_DONE. */
  const XferStatusDone: int := 3

  const IntSize: nat := 4
  const FilesizeSize: nat := 8

  /** The description a failed read leaves when there was none. */
  const ReadFailedMessage: string := "Failed to read status report from file transfer pipe"

  // ---------------------------------------------------------------
  // Integers as bytes

  function Pow256(n: nat): (p: nat)
    ensures p >= 1
  {
    if n == 0 then 1 else 256 * Pow256(n - 1)
  }

  lemma Pow256Sizes()
    ensures Pow256(IntSize) == 0x1_0000_0000
    ensures Pow256(FilesizeSize) == 0x1_0000_0000_0000_0000
  {
    assert Pow256(2) == 0x1_0000;
    assert Pow256(4) == 0x1_0000_0000;
    assert Pow256(6) == 0x1_0000_0000_0000;
  }

  /** The low n bytes of v, least significant first: the bytes of a C
      integer of n bytes holding v, two's complement, a value out of range
      wrapping around. */
  function IntBytes(v: int, n: nat): (r: seq<byte>)
    ensures |r| == n
    decreases n
  {
    if n == 0 then [] else [v % 256] + IntBytes(v / 256, n - 1)
  }

  function UnsignedValue(bs: seq<byte>): (v: nat)
  {
    if bs == [] then 0 else bs[0] + 256 * UnsignedValue(bs[1..])
  }

  /** Reading a signed C integer of |bs| bytes. */
  function IntValue(bs: seq<byte>): int
  {
    if bs == [] then 0
    else
      var u := UnsignedValue(bs);
      if u >= Pow256(|bs|) / 2 then u - Pow256(|bs|) else u
  }

  lemma {:induction false} UnsignedRoundTrip(v: nat, n: nat)
    requires v < Pow256(n)
    ensures UnsignedValue(IntBytes(v, n)) == v
  {
    if n > 0 {
      UnsignedRoundTrip(v / 256, n - 1);
      assert IntBytes(v, n)[1..] == IntBytes(v / 256, n - 1);
    }
  }

  /** Adding 256^n does not change the low n bytes. */
  lemma {:induction false} IntBytesPeriodic(v: int, n: nat)
    ensures IntBytes(v + Pow256(n), n) == IntBytes(v, n)
    decreases n
  {
    if n > 0 {
      var q := Pow256(n - 1);
      assert (v + 256 * q) % 256 == v % 256;
      assert (v + 256 * q) / 256 == v / 256 + q;
      IntBytesPeriodic(v / 256, n - 1);
    }
  }

  predicate InRange(v: int, n: nat)
  {
    -(Pow256(n) / 2) <= v < Pow256(n) / 2
  }

  predicate IsInt32(v: int) { -0x8000_0000 <= v < 0x8000_0000 }

  predicate IsInt64(v: int) { -0x8000_0000_0000_0000 <= v < 0x8000_0000_0000_0000 }

  /** Every integer of the C type's range is read back as written. */
  lemma IntRoundTrip(v: int, n: nat)
    requires n > 0 && InRange(v, n)
    ensures IntValue(IntBytes(v, n)) == v
  {
    var p := Pow256(n);
    assert p == 256 * Pow256(n - 1);
    if v < 0 {
      IntBytesPeriodic(v, n);
      UnsignedRoundTrip(v + p, n);
    } else {
      UnsignedRoundTrip(v, n);
    }
  }

  lemma Int32RoundTrip(v: int)
    requires IsInt32(v)
    ensures IntValue(IntBytes(v, IntSize)) == v
  {
    Pow256Sizes();
    IntRoundTrip(v, IntSize);
  }

  lemma Int64RoundTrip(v: int)
    requires IsInt64(v)
    ensures IntValue(IntBytes(v, FilesizeSize)) == v
  {
    Pow256Sizes();
    IntRoundTrip(v, FilesizeSize);
  }

  // ---------------------------------------------------------------
  // C strings

  /** A string that survives as a C string: no NUL, every character a
      byte. */
  predicate IsCString(s: string)
  {
    forall i :: 0 <= i < |s| ==> 0 < s[i] as int < 256
  }

  function ByteOf(c: char): byte
  {
    (c as int) % 256
  }

  function StringBytes(s: string): (r: seq<byte>)
    ensures |r| == |s|
    ensures forall i :: 0 <= i < |s| ==> r[i] == ByteOf(s[i])
  {
    seq(|s|, i requires 0 <= i < |s| => ByteOf(s[i]))
  }

  /** Assigning a char buffer to a MyString: the characters up to the
      first NUL (the whole buffer when it holds none). */
  function UpToNul(bs: seq<byte>): (s: string)
    ensures |s| <= |bs|
    decreases |bs|
  {
    if bs == [] || bs[0] == 0 then [] else [bs[0] as char] + UpToNul(bs[1..])
  }

  lemma {:induction false} UpToNulOfCString(s: string)
    requires IsCString(s)
    ensures UpToNul(StringBytes(s) + [0]) == s
    decreases |s|
  {
    if s != [] {
      assert (StringBytes(s) + [0])[1..] == StringBytes(s[1..]) + [0];
      UpToNulOfCString(s[1..]);
    }
  }

  /** The length the writer sends: 0 for an empty string, otherwise the
      length including the NUL. */
  function CStringLength(s: string): nat
  {
    if s == [] then 0 else |s| + 1
  }

  function CStringBody(s: string): seq<byte>
  {
    if s == [] then [] else StringBytes(s) + [0]
  }

  // ---------------------------------------------------------------
  // The two messages

  datatype TransferType = DownloadFilesType | UploadFilesType | NoType

  /** The part of FileTransferInfo the pipe carries. */
  datatype TransferInfo = TransferInfo(
    xferType: TransferType,
    success: bool,
    tryAgain: bool,
    holdCode: int,
    holdSubcode: int,
    errorDesc: string,
    spooledFiles: string,
    bytes: int,
    xferStatus: int)

  /** A length-prefixed string as the writer sends it. */
  function CStringField(s: string): seq<byte>
  {
    IntBytes(CStringLength(s), IntSize) + CStringBody(s)
  }

  /** The fixed-size fields of the final report after its command byte:
      the byte count, the retry flag, the hold code and subcode. */
  function FinalFixedFields(totalBytes: int, info: TransferInfo): (r: seq<byte>)
    ensures |r| == 17
  {
    IntBytes(totalBytes, FilesizeSize) + [if info.tryAgain then 1 else 0]
    + IntBytes(info.holdCode, IntSize) + IntBytes(info.holdSubcode, IntSize)
  }

  /** The final report WriteStatusToTransferPipe writes. */
  function FinalMessage(totalBytes: int, info: TransferInfo): seq<byte>
  {
    [FinalUpdateCmd] + FinalFixedFields(totalBytes, info)
    + CStringField(info.errorDesc) + CStringField(info.spooledFiles)
  }

  /** The in-progress update UpdateXferStatus writes. */
  function ProgressMessage(status: int): seq<byte>
  {
    [InProgressUpdateCmd] + IntBytes(status, IntSize)
  }

  // ---------------------------------------------------------------
  // Reading a report

  /** What the reading side keeps: Info, the two byte counters and
      whether the pipe is still registered with daemonCore. */
  datatype PipeState = PipeState(info: TransferInfo, bytesRcvd: int, bytesSent: int, registered: bool)

  datatype ReadResult = Read | ReadFailed | InvalidCommand

  /** The result, the new state and the number of bytes taken from the
      pipe. */
  datatype ReadOutcome = ReadOutcome(result: ReadResult, state: PipeState, consumed: nat)

  /** read_failed: the transfer failed and may be retried; a description
      is supplied when there was none; the pipe is unregistered. A short
      read empties the pipe. */
  function Failed(st: PipeState, available: nat): (o: ReadOutcome)
    ensures o.result == ReadFailed && !o.state.info.success && o.state.info.tryAgain
    ensures o.state.info.errorDesc != [] && !o.state.registered
  {
    var desc := if st.info.errorDesc == [] then ReadFailedMessage else st.info.errorDesc;
    ReadOutcome(ReadFailed,
                st.(info := st.info.(success := false, tryAgain := true, errorDesc := desc),
                    registered := false),
                available)
  }

  /** ReadTransferPipeMsg: the effect of the next report in data. */
  function ReadMessage(st: PipeState, data: seq<byte>): (o: ReadOutcome)
    ensures o.consumed <= |data|
    ensures o.result == ReadFailed ==>
              !o.state.info.success && o.state.info.tryAgain && o.state.info.errorDesc != [] && !o.state.registered
    ensures o.result == InvalidCommand <==> |data| >= 1 && data[0] != InProgressUpdateCmd && data[0] != FinalUpdateCmd
    ensures o.result == InvalidCommand ==> o.state == st
    // An empty pipe, or a progress report without its whole status, is a
    // failed read; a whole progress report is read.
    ensures |data| == 0 ==> o.result == ReadFailed
    ensures |data| >= 1 && data[0] == InProgressUpdateCmd ==>
              (o.result == ReadFailed <==> |data| < 1 + IntSize)
  {
    if |data| < 1 then Failed(st, |data|)
    else if data[0] == InProgressUpdateCmd then
      if |data| < 1 + IntSize then Failed(st, |data|)
      else ReadOutcome(Read, st.(info := st.info.(xferStatus := IntValue(data[1..1 + IntSize]))), 1 + IntSize)
    else if data[0] == FinalUpdateCmd then
      var o := ReadFinal(st.(info := st.info.(xferStatus := XferStatusDone)), data[1..]);
      o.(consumed := 1 + o.consumed)
    else ReadOutcome(InvalidCommand, st, 1)
  }

  /** The byte count of a final report is added to the counter of the
      transfer's direction. */
  function AddBytes(st: PipeState, b: int): PipeState
  {
    if st.info.xferType == DownloadFilesType then st.(bytesRcvd := st.bytesRcvd + b)
    else st.(bytesSent := st.bytesSent + b)
  }

  /** The fixed-size fields of a final report (after its command byte). */
  function ReadFinal(st: PipeState, data: seq<byte>): (o: ReadOutcome)
    ensures o.consumed <= |data| && o.result != InvalidCommand
    ensures o.result == ReadFailed ==>
              !o.state.info.success && o.state.info.tryAgain && o.state.info.errorDesc != [] && !o.state.registered
  {
    if |data| < 8 then Failed(st, |data|)
    else
      var b := IntValue(data[..8]);
      var s1 := AddBytes(st.(info := st.info.(bytes := b)), b);
      if |data| < 9 then Failed(s1, |data|)
      else
        var s2 := s1.(info := s1.info.(tryAgain := data[8] != 0));
        if |data| < 13 then Failed(s2, |data|)
        else
          var s3 := s2.(info := s2.info.(holdCode := IntValue(data[9..13])));
          if |data| < 17 then Failed(s3, |data|)
          else
            var s4 := s3.(info := s3.info.(holdSubcode := IntValue(data[13..17])));
            var o := ReadStrings(s4, data[17..]);
            o.(consumed := 17 + o.consumed)
  }

  /** One length-prefixed string: None when the read fell short (or the
      length is negative), otherwise the string read (None inside when
      the length is 0 and nothing is assigned) and the bytes used. */
  function ReadCString(data: seq<byte>): (r: Option<(Option<string>, nat)>)
    ensures r.Some? ==> r.value.1 <= |data|
  {
    if |data| < 4 then None
    else
      var len := IntValue(data[..4]);
      if len < 0 || |data| < 4 + len then None
      else if len == 0 then Some((None, 4))
      else Some((Some(UpToNul(data[4..4 + len])), 4 + len))
  }

  /** The two strings of a final report; a complete report unregisters
      the pipe. */
  function ReadStrings(st: PipeState, data: seq<byte>): (o: ReadOutcome)
    ensures o.consumed <= |data| && o.result != InvalidCommand
    ensures o.result == ReadFailed ==>
              !o.state.info.success && o.state.info.tryAgain && o.state.info.errorDesc != [] && !o.state.registered
  {
    var e := ReadCString(data);
    if e.None? then Failed(st, |data|)
    else
      var s1 := if e.value.0.Some? then st.(info := st.info.(errorDesc := e.value.0.value)) else st;
      var rest := data[e.value.1..];
      var f := ReadCString(rest);
      if f.None? then Failed(s1, |data|)
      else
        var s2 := if f.value.0.Some? then s1.(info := s1.info.(spooledFiles := f.value.0.value)) else s1;
        ReadOutcome(Read, s2.(registered := false), e.value.1 + f.value.1)
  }

  // ---------------------------------------------------------------
  // The pipe itself

  /** A pipe between the transfer thread and its parent: the bytes
      written and not yet read, and how many more bytes the write end
      takes before a write comes up short. */
  class Pipe {
    var data: seq<byte>
    var room: nat

    constructor (room: nat)
      ensures data == [] && this.room == room
    {
      data := [];
      this.room := room;
    }

    /** Write_Pipe: writes as much as fits and says how much. */
    method Write(bs: seq<byte>) returns (n: nat)
      modifies this
      ensures n == (if |bs| <= old(room) then |bs| else old(room))
      ensures data == old(data) + bs[..n] && room == old(room) - n
    {
      n := if |bs| <= room then |bs| else room;
      data := data + bs[..n];
      room := room - n;
    }

    /** Read_Pipe: up to k bytes, fewer when the pipe runs dry. */
    method Read(k: nat) returns (bs: seq<byte>)
      modifies this
      ensures |bs| == (if k <= |old(data)| then k else |old(data)|)
      ensures bs == old(data)[..|bs|] && data == old(data)[|bs|..] && room == old(room)
    {
      var n := if k <= |data| then k else |data|;
      bs := data[..n];
      data := data[n..];
    }
  }

  // ---------------------------------------------------------------
  // Round trips

  /** A string no longer than an int can count, and readable as a C
      string. */
  predicate Transmittable(s: string)
  {
    IsCString(s) && |s| < 0x7fff_ffff
  }

  lemma CStringRoundTrip(s: string, rest: seq<byte>)
    requires Transmittable(s)
    ensures var r := ReadCString(CStringField(s) + rest);
      r.Some? && r.value.0 == (if s == [] then None else Some(s))
      && r.value.1 == |CStringField(s)|
  {
    var data := CStringField(s) + rest;
    Int32RoundTrip(CStringLength(s));
    assert data[..4] == IntBytes(CStringLength(s), IntSize);
    if s != [] {
      assert data[4..4 + CStringLength(s)] == StringBytes(s) + [0];
      UpToNulOfCString(s);
    }
  }

  /** The two strings of a final report read back: a non-empty string
      replaces the old value, an empty one leaves it. */
  lemma StringsRoundTrip(st: PipeState, e: string, s: string)
    requires Transmittable(e) && Transmittable(s)
    ensures var o := ReadStrings(st, CStringField(e) + CStringField(s));
      o.result == Read && o.consumed == |CStringField(e)| + |CStringField(s)|
      && o.state == st.(info := st.info.(errorDesc := if e == [] then st.info.errorDesc else e,
                                         spooledFiles := if s == [] then st.info.spooledFiles else s),
                        registered := false)
  {
    var data := CStringField(e) + CStringField(s);
    CStringRoundTrip(e, CStringField(s));
    assert data[|CStringField(e)|..] == CStringField(s);
    CStringRoundTrip(s, []);
    assert CStringField(s) + [] == CStringField(s);
  }

  /** The state after a complete final report: DONE, the byte count,
      the retry flag, the hold code and subcode and the non-empty strings
      taken from the report, the bytes counted in the transfer's
      direction, the pipe unregistered. */
  function Delivered(st: PipeState, totalBytes: int, info: TransferInfo): PipeState
  {
    AddBytes(st, totalBytes).(
      info := st.info.(
        xferStatus := XferStatusDone,
        bytes := totalBytes,
        tryAgain := info.tryAgain,
        holdCode := info.holdCode,
        holdSubcode := info.holdSubcode,
        errorDesc := if info.errorDesc == [] then st.info.errorDesc else info.errorDesc,
        spooledFiles := if info.spooledFiles == [] then st.info.spooledFiles else info.spooledFiles),
      registered := false)
  }

  /** The fields of a final report read back: a complete report sets
      the byte count, the retry flag, the hold code and subcode, and the
      two strings (an empty string leaves the old value), marks the
      transfer DONE, counts the bytes in its direction and unregisters
      the pipe; success is not carried and stays as it was. */
  lemma FinalReportRoundTrip(st: PipeState, totalBytes: int, info: TransferInfo)
    requires IsInt64(totalBytes) && IsInt32(info.holdCode) && IsInt32(info.holdSubcode)
    requires Transmittable(info.errorDesc) && Transmittable(info.spooledFiles)
    ensures ReadMessage(st, FinalMessage(totalBytes, info))
            == ReadOutcome(Read, Delivered(st, totalBytes, info), |FinalMessage(totalBytes, info)|)
  {
    FinalMessageShape(totalBytes, info);
    ReadMessageOfFinal(st, FinalMessage(totalBytes, info));
    FinalAfterCommand(st, totalBytes, info);
  }

  lemma FinalMessageShape(totalBytes: int, info: TransferInfo)
    ensures var m := FinalMessage(totalBytes, info);
      |m| >= 1 && m[0] == FinalUpdateCmd
      && m[1..] == FinalFixedFields(totalBytes, info)
                   + (CStringField(info.errorDesc) + CStringField(info.spooledFiles))
  {
    var fixed := FinalFixedFields(totalBytes, info);
    var e := CStringField(info.errorDesc);
    var s := CStringField(info.spooledFiles);
    AppendAssociates3([FinalUpdateCmd], fixed, e, s);
    assert ([FinalUpdateCmd] + (fixed + (e + s)))[1..] == fixed + (e + s);
  }

  lemma AppendAssociates3<T>(x: seq<T>, a: seq<T>, b: seq<T>, c: seq<T>)
    ensures x + a + b + c == x + (a + (b + c))
  {
  }

  /** Unfolds ReadMessage for a final report. */
  lemma ReadMessageOfFinal(st: PipeState, data: seq<byte>)
    requires |data| >= 1 && data[0] == FinalUpdateCmd
    ensures ReadMessage(st, data)
            == var o := ReadFinal(st.(info := st.info.(xferStatus := XferStatusDone)), data[1..]);
               o.(consumed := 1 + o.consumed)
  {
  }

  /** The state once the fixed-size fields of a final report are read. */
  function FixedFieldsState(st: PipeState, data: seq<byte>): PipeState
    requires |data| >= 17
  {
    var b := IntValue(data[..8]);
    var s1 := AddBytes(st.(info := st.info.(bytes := b)), b);
    s1.(info := s1.info.(tryAgain := data[8] != 0, holdCode := IntValue(data[9..13]),
                         holdSubcode := IntValue(data[13..17])))
  }

  /** The state a final report cut short within its fixed-size fields
      leaves before the failure is recorded: the fields read in full
      are kept. */
  function ShortFixedState(st: PipeState, data: seq<byte>): PipeState
    requires |data| < 17
  {
    if |data| < 8 then st
    else
      var b := IntValue(data[..8]);
      var s1 := AddBytes(st.(info := st.info.(bytes := b)), b);
      if |data| < 9 then s1
      else
        var s2 := s1.(info := s1.info.(tryAgain := data[8] != 0));
        if |data| < 13 then s2 else s2.(info := s2.info.(holdCode := IntValue(data[9..13])))
  }

  /** Unfolds ReadFinal for data cut short within the fixed-size fields. */
  lemma ReadFinalShort(st: PipeState, data: seq<byte>)
    requires |data| < 17
    ensures ReadFinal(st, data) == Failed(ShortFixedState(st, data), |data|)
  {
  }

  /** Unfolds ReadFinal for data holding all the fixed-size fields. */
  lemma ReadFinalOfFixed(st: PipeState, data: seq<byte>)
    requires |data| >= 17
    ensures ReadFinal(st, data)
            == var o := ReadStrings(FixedFieldsState(st, data), data[17..]);
               o.(consumed := 17 + o.consumed)
  {
  }

  lemma FinalAfterCommand(st: PipeState, totalBytes: int, info: TransferInfo)
    requires IsInt64(totalBytes) && IsInt32(info.holdCode) && IsInt32(info.holdSubcode)
    requires Transmittable(info.errorDesc) && Transmittable(info.spooledFiles)
    ensures ReadFinal(st.(info := st.info.(xferStatus := XferStatusDone)),
                      FinalFixedFields(totalBytes, info)
                      + (CStringField(info.errorDesc) + CStringField(info.spooledFiles)))
            == ReadOutcome(Read, Delivered(st, totalBytes, info),
                           17 + |CStringField(info.errorDesc) + CStringField(info.spooledFiles)|)
  {
    var strings := CStringField(info.errorDesc) + CStringField(info.spooledFiles);
    var data := FinalFixedFields(totalBytes, info) + strings;
    FixedFieldsRoundTrip(totalBytes, info, strings);
    var s0 := st.(info := st.info.(xferStatus := XferStatusDone));
    ReadFinalOfFixed(s0, data);
    var s4 := ReportedFixedFields(s0, totalBytes, info);
    FixedStateOfReport(s0, data, totalBytes, info);
    StringsRoundTrip(s4, info.errorDesc, info.spooledFiles);
    DeliveredAfterStrings(st, totalBytes, info);
  }

  /** The state after the fixed-size fields of info's report. */
  function ReportedFixedFields(s0: PipeState, totalBytes: int, info: TransferInfo): PipeState
  {
    AddBytes(s0, totalBytes).(info := s0.info.(bytes := totalBytes, tryAgain := info.tryAgain,
                                               holdCode := info.holdCode, holdSubcode := info.holdSubcode))
  }

  lemma FixedStateOfReport(s0: PipeState, data: seq<byte>, totalBytes: int, info: TransferInfo)
    requires |data| >= 17 && IntValue(data[..8]) == totalBytes && (data[8] != 0 <==> info.tryAgain)
    requires IntValue(data[9..13]) == info.holdCode && IntValue(data[13..17]) == info.holdSubcode
    ensures FixedFieldsState(s0, data) == ReportedFixedFields(s0, totalBytes, info)
  {
  }

  lemma DeliveredAfterStrings(st: PipeState, totalBytes: int, info: TransferInfo)
    ensures var s4 := ReportedFixedFields(st.(info := st.info.(xferStatus := XferStatusDone)), totalBytes, info);
      s4.(info := s4.info.(errorDesc := if info.errorDesc == [] then s4.info.errorDesc else info.errorDesc,
                           spooledFiles := if info.spooledFiles == [] then s4.info.spooledFiles else info.spooledFiles),
          registered := false)
      == Delivered(st, totalBytes, info)
  {
  }

  lemma FixedFieldsRoundTrip(totalBytes: int, info: TransferInfo, rest: seq<byte>)
    requires IsInt64(totalBytes) && IsInt32(info.holdCode) && IsInt32(info.holdSubcode)
    ensures var d := FinalFixedFields(totalBytes, info) + rest;
      |d| >= 17 && IntValue(d[..8]) == totalBytes && (d[8] != 0 <==> info.tryAgain)
      && IntValue(d[9..13]) == info.holdCode && IntValue(d[13..17]) == info.holdSubcode
      && d[17..] == rest
  {
    Int64RoundTrip(totalBytes);
    Int32RoundTrip(info.holdCode);
    Int32RoundTrip(info.holdSubcode);
    var d := FinalFixedFields(totalBytes, info) + rest;
    assert d[..8] == IntBytes(totalBytes, FilesizeSize);
    assert d[9..13] == IntBytes(info.holdCode, IntSize);
    assert d[13..17] == IntBytes(info.holdSubcode, IntSize);
  }

  /** An in-progress update read back sets the status and nothing else. */
  lemma ProgressRoundTrip(st: PipeState, status: int)
    requires IsInt32(status)
    ensures var o := ReadMessage(st, ProgressMessage(status));
      o.result == Read && o.consumed == 1 + IntSize
      && o.state == st.(info := st.info.(xferStatus := status))
  {
    Int32RoundTrip(status);
    assert ProgressMessage(status)[1..5] == IntBytes(status, IntSize);
  }

  /** An in-progress update cut short is a failed read that empties the
      pipe. */
  lemma TruncatedProgressFails(st: PipeState, status: int, k: nat)
    requires k < |ProgressMessage(status)|
    ensures var o := ReadMessage(st, ProgressMessage(status)[..k]);
      o.result == ReadFailed && o.consumed == k && !o.state.info.success && o.state.info.tryAgain
      && !o.state.registered
  {
  }

  /** A length-prefixed string cut short is not read. */
  lemma CStringOfPrefix(s: string, d: seq<byte>)
    requires |s| < 0x7fff_ffff
    requires |d| < |CStringField(s)| && d == CStringField(s)[..|d|]
    ensures ReadCString(d).None?
  {
    if |d| >= 4 {
      Int32RoundTrip(CStringLength(s));
      assert d[..4] == IntBytes(CStringLength(s), IntSize);
    }
  }

  lemma StringsOfPrefix(st: PipeState, e: string, s: string, d: seq<byte>)
    requires Transmittable(e) && Transmittable(s)
    requires |d| < |CStringField(e) + CStringField(s)|
    requires d == (CStringField(e) + CStringField(s))[..|d|]
    ensures ReadStrings(st, d).result == ReadFailed
  {
    var fe := CStringField(e);
    if |d| < |fe| {
      assert d == fe[..|d|];
      CStringOfPrefix(e, d);
    } else {
      var rest := d[|fe|..];
      PrefixOfAppend(fe, CStringField(s), d);
      assert d == fe + rest;
      CStringRoundTrip(e, rest);
      CStringOfPrefix(s, rest);
      assert ReadCString(d).Some? && ReadCString(d).value.1 == |fe|;
      assert ReadCString(d[ReadCString(d).value.1..]).None?;
    }
  }

  /** A final report cut short anywhere fails, asking for a retry. */
  lemma TruncatedReportFails(st: PipeState, totalBytes: int, info: TransferInfo, k: nat)
    requires Transmittable(info.errorDesc) && Transmittable(info.spooledFiles)
    requires k < |FinalMessage(totalBytes, info)|
    ensures var o := ReadMessage(st, FinalMessage(totalBytes, info)[..k]);
      o.result == ReadFailed && !o.state.info.success && o.state.info.tryAgain
  {
    var m := FinalMessage(totalBytes, info);
    if k > 0 {
      FinalMessageShape(totalBytes, info);
      var d := m[..k];
      ReadMessageOfFinal(st, d);
      TailOfPrefix(m, k);
      FinalOfPrefix(st.(info := st.info.(xferStatus := XferStatusDone)), FinalFixedFields(totalBytes, info),
                    info.errorDesc, info.spooledFiles, d[1..]);
    }
  }

  lemma FinalOfPrefix(st: PipeState, fixed: seq<byte>, e: string, s: string, d: seq<byte>)
    requires Transmittable(e) && Transmittable(s) && |fixed| == 17
    requires |d| < |fixed + (CStringField(e) + CStringField(s))|
    requires d == (fixed + (CStringField(e) + CStringField(s)))[..|d|]
    ensures ReadFinal(st, d).result == ReadFailed
  {
    if |d| >= 17 {
      var strings := CStringField(e) + CStringField(s);
      ReadFinalOfFixed(st, d);
      PrefixOfAppend(fixed, strings, d);
      var b := IntValue(d[..8]);
      var s1 := AddBytes(st.(info := st.info.(bytes := b)), b);
      var s4 := s1.(info := s1.info.(tryAgain := d[8] != 0, holdCode := IntValue(d[9..13]),
                                     holdSubcode := IntValue(d[13..17])));
      StringsOfPrefix(s4, e, s, d[17..]);
    }
  }

  lemma TailOfPrefix<T>(m: seq<T>, k: nat)
    requires 1 <= k <= |m|
    ensures m[..k][1..] == m[1..][..k - 1]
  {
  }

  lemma PrefixOfAppend<T>(a: seq<T>, b: seq<T>, d: seq<T>)
    requires |a| <= |d| <= |a + b| && d == (a + b)[..|d|]
    ensures d[|a|..] == b[..|d| - |a|]
  {
  }
}
