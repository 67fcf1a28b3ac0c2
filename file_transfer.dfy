/** The FileTransfer object: the fields its transfer-pipe, acknowledgment,
    peer-version and list operations update, and those operations. The
    sockets, threads and daemonCore registration around them are not
    modelled; a pipe is a TransferPipe.Pipe. */
module Transfer {
  import opened Text
  import opened TransferPipe
  import opened TransferAck
  import opened PeerVersion
  import opened FileLists

  function Min(a: nat, b: nat): nat
  {
    if a <= b then a else b
  }

  /** Read_Pipe of one field: the bytes, and whether all of them came. */
  method ReadField(pipe: Pipe, size: nat) returns (ok: bool, bs: seq<byte>)
    modifies pipe
    ensures ok <==> size <= |old(pipe.data)|
    ensures ok ==> bs == old(pipe.data)[..size] && pipe.data == old(pipe.data)[size..]
    ensures pipe.room == old(pipe.room)
  {
    bs := pipe.Read(size);
    ok := |bs| == size;
  }

  /** One length-prefixed string: its length, then (for a non-zero
      length) that many bytes. */
  method ReadCStringField(pipe: Pipe) returns (r: Option<(Option<string>, nat)>)
    modifies pipe
    ensures r == ReadCString(old(pipe.data))
    ensures r.Some? ==> pipe.data == old(pipe.data)[r.value.1..]
    ensures pipe.room == old(pipe.room)
  {
    ghost var d0 := pipe.data;
    var ok, lenBytes := ReadField(pipe, IntSize);
    if !ok {
      return None;
    }
    var len := IntValue(lenBytes);
    if len == 0 {
      return Some((None, IntSize));
    }
    if len < 0 {
      return None;
    }
    var buf;
    ok, buf := ReadField(pipe, len);
    if !ok {
      return None;
    }
    assert buf == d0[4..4 + len];
    assert pipe.data == d0[4 + len..];
    r := Some((Some(UpToNul(buf)), IntSize + len));
  }

  /** The bytes written so far are d0 followed by as much of sent as the
      pipe took; a write has failed exactly when sent did not fit. */
  ghost predicate Written(pipe: Pipe, d0: seq<byte>, room0: nat, sent: seq<byte>, failed: bool)
    reads pipe
  {
    pipe.data == d0 + sent[..Min(|sent|, room0)]
    && (failed <==> |sent| > room0)
    && (!failed ==> pipe.room == room0 - |sent|)
  }

  /** One Write_Pipe guarded by write_failed. */
  method WriteField(pipe: Pipe, bs: seq<byte>, failed: bool,
                    ghost d0: seq<byte>, ghost room0: nat, ghost sent: seq<byte>)
    returns (failedAfter: bool)
    requires Written(pipe, d0, room0, sent, failed)
    modifies pipe
    ensures Written(pipe, d0, room0, sent + bs, failedAfter)
  {
    if failed {
      failedAfter := true;
      assert (sent + bs)[..room0] == sent[..room0];
    } else {
      var n := pipe.Write(bs);
      failedAfter := n != |bs|;
      assert (sent + bs)[..Min(|sent + bs|, room0)] == sent + bs[..n];
    }
  }

  /** A string's length (counting its NUL, 0 for an empty string), then
      its bytes. */
  method WriteCStringField(pipe: Pipe, str: string, failed: bool,
                           ghost d0: seq<byte>, ghost room0: nat, ghost sent: seq<byte>)
    returns (failedAfter: bool)
    requires Written(pipe, d0, room0, sent, failed)
    modifies pipe
    ensures Written(pipe, d0, room0, sent + CStringField(str), failedAfter)
  {
    var len := if str == [] then 0 else |str| + 1;
    var field := IntBytes(len, IntSize);
    failedAfter := WriteField(pipe, field, failed, d0, room0, sent);
    var body := if len == 0 then [] else StringBytes(str) + [0];
    failedAfter := WriteField(pipe, body, failedAfter, d0, room0, sent + field);
    assert sent + field + body == sent + CStringField(str);
  }

  lemma AppendAssociates4<T>(s: seq<T>, a: seq<T>, b: seq<T>, c: seq<T>, d: seq<T>)
    ensures s + a + b + c + d == s + (a + b + c + d)
  {
  }

  class FileTransfer {
    /** Info and the counters the pipe reader updates. */
    var info: TransferInfo
    var bytesRcvd: int
    var bytesSent: int
    var registeredXferPipe: bool

    /** What setPeerVersion decided about the peer. */
    var features: PeerFeatures

    var outputFiles: Option<seq<string>>
    var exceptionFiles: Option<seq<string>>
    var downloadFilenameRemaps: string
    var pluginTable: Option<seq<string>>
    var supportsS3: bool

    /** What ComputeFilesToSend reads and sets. SpooledIntermediateFiles
        is held already split into names. */
    var uploadChangedFiles: bool
    var lastDownloadTime: int
    var finalTransferFlag: bool
    var spooledIntermediateFiles: Option<seq<string>>
    var encryptOutputFiles: Option<seq<string>>
    var dontEncryptOutputFiles: Option<seq<string>>
    var intermediateFiles: Option<seq<string>>
    var filesToSend: Option<seq<string>>
    var encryptFiles: Option<seq<string>>
    var dontEncryptFiles: Option<seq<string>>

    /** A transfer object with the given Info and no lists yet. */
    constructor (info0: TransferInfo)
      ensures info == info0 && bytesRcvd == 0 && bytesSent == 0 && !registeredXferPipe
      ensures features == PeerFeatures(false, false, false, false, false, false, false, false, false)
      ensures outputFiles.None? && exceptionFiles.None? && downloadFilenameRemaps == []
      ensures pluginTable.None? && !supportsS3
      ensures !uploadChangedFiles && lastDownloadTime == 0 && !finalTransferFlag
      ensures spooledIntermediateFiles.None? && encryptOutputFiles.None? && dontEncryptOutputFiles.None?
      ensures intermediateFiles.None? && filesToSend.None? && encryptFiles.None? && dontEncryptFiles.None?
    {
      info := info0;
      bytesRcvd := 0;
      bytesSent := 0;
      registeredXferPipe := false;
      features := PeerFeatures(false, false, false, false, false, false, false, false, false);
      outputFiles := None;
      exceptionFiles := None;
      downloadFilenameRemaps := [];
      pluginTable := None;
      supportsS3 := false;
      uploadChangedFiles := false;
      lastDownloadTime := 0;
      finalTransferFlag := false;
      spooledIntermediateFiles := None;
      encryptOutputFiles := None;
      dontEncryptOutputFiles := None;
      intermediateFiles := None;
      filesToSend := None;
      encryptFiles := None;
      dontEncryptFiles := None;
    }

    /** The state the pipe reader works on. */
    function PipeView(): PipeState
      reads this
    {
      PipeState(info, bytesRcvd, bytesSent, registeredXferPipe)
    }

    // -------------------------------------------------------------
    // The transfer pipe

    /** The read_failed label of ReadTransferPipeMsg. */
    method MarkReadFailed()
      modifies this`info, this`registeredXferPipe
      ensures PipeView() == Failed(old(PipeView()), 0).state
    {
      info := info.(success := false, tryAgain := true);
      if info.errorDesc == [] {
        info := info.(errorDesc := ReadFailedMessage);
      }
      if registeredXferPipe {
        registeredXferPipe := false;
      }
    }

    /** The error and spooled-files strings of a final report. */
    method ReadReportStrings(pipe: Pipe) returns (result: ReadResult)
      modifies this`info, this`registeredXferPipe, pipe
      ensures var o := ReadStrings(old(PipeView()), old(pipe.data));
        result == o.result && PipeView() == o.state
        && (result == Read ==> pipe.data == old(pipe.data)[o.consumed..])
      ensures pipe.room == old(pipe.room)
    {
      var e := ReadCStringField(pipe);
      if e.None? {
        MarkReadFailed();
        return ReadFailed;
      }
      if e.value.0.Some? {
        info := info.(errorDesc := e.value.0.value);
      }
      var f := ReadCStringField(pipe);
      if f.None? {
        MarkReadFailed();
        return ReadFailed;
      }
      if f.value.0.Some? {
        info := info.(spooledFiles := f.value.0.value);
      }
      if registeredXferPipe {
        registeredXferPipe := false;
      }
      result := Read;
    }

    /** The fixed-size fields of a final report: the byte count (added
        to the counter of the transfer's direction), the retry flag, the
        hold code and subcode. A short read stops at that field. */
    method ReadFixedFields(pipe: Pipe) returns (ok: bool)
      modifies this`info, this`bytesRcvd, this`bytesSent, pipe
      ensures ok <==> 17 <= |old(pipe.data)|
      ensures ok ==> PipeView() == FixedFieldsState(old(PipeView()), old(pipe.data))
                     && pipe.data == old(pipe.data)[17..]
      ensures !ok ==> PipeView() == ShortFixedState(old(PipeView()), old(pipe.data))
      ensures pipe.room == old(pipe.room)
    {
      ghost var d0 := pipe.data;
      var bs;
      ok, bs := ReadField(pipe, FilesizeSize);
      if !ok {
        return;
      }
      info := info.(bytes := IntValue(bs));
      if info.xferType == DownloadFilesType {
        bytesRcvd := bytesRcvd + info.bytes;
      } else {
        bytesSent := bytesSent + info.bytes;
      }
      ok, bs := ReadField(pipe, 1);
      if !ok {
        assert |d0| == 8;
        return;
      }
      assert bs[0] == d0[8];
      info := info.(tryAgain := bs[0] != 0);
      ok, bs := ReadField(pipe, IntSize);
      if !ok {
        assert 9 <= |d0| < 13;
        return;
      }
      assert bs == d0[9..13];
      info := info.(holdCode := IntValue(bs));
      ok, bs := ReadField(pipe, IntSize);
      if !ok {
        assert 13 <= |d0| < 17;
        return;
      }
      assert bs == d0[13..17];
      info := info.(holdSubcode := IntValue(bs));
      assert pipe.data == d0[17..];
    }

    /** The fields of a final report after its command byte. */
    method ReadFinalReport(pipe: Pipe) returns (result: ReadResult)
      modifies this`info, this`bytesRcvd, this`bytesSent, this`registeredXferPipe, pipe
      ensures var o := ReadFinal(old(PipeView()), old(pipe.data));
        result == o.result && PipeView() == o.state
        && (result == Read ==> pipe.data == old(pipe.data)[o.consumed..])
      ensures pipe.room == old(pipe.room)
    {
      ghost var st0 := PipeView();
      ghost var d0 := pipe.data;
      var ok := ReadFixedFields(pipe);
      if !ok {
        ReadFinalShort(st0, d0);
        MarkReadFailed();
        return ReadFailed;
      }
      ReadFinalOfFixed(st0, d0);
      result := ReadReportStrings(pipe);
      assert d0[17..][ReadStrings(FixedFieldsState(st0, d0), d0[17..]).consumed..]
             == d0[17 + ReadStrings(FixedFieldsState(st0, d0), d0[17..]).consumed..];
    }

    /** ReadTransferPipeMsg. An unknown command ends the daemon
        (EXCEPT); here it is the InvalidCommand result. A failed read
        leaves the rest of the pipe unspecified. */
    method ReadTransferPipeMsg(pipe: Pipe) returns (result: ReadResult)
      modifies this`info, this`bytesRcvd, this`bytesSent, this`registeredXferPipe, pipe
      ensures var o := ReadMessage(old(PipeView()), old(pipe.data));
        result == o.result && PipeView() == o.state
        && (result != ReadFailed ==> pipe.data == old(pipe.data)[o.consumed..])
      ensures pipe.room == old(pipe.room)
    {
      ghost var d0 := pipe.data;
      var ok, bs := ReadField(pipe, 1);
      if !ok {
        MarkReadFailed();
        return ReadFailed;
      }
      var cmd := bs[0];
      if cmd == InProgressUpdateCmd {
        ok, bs := ReadField(pipe, IntSize);
        if !ok {
          MarkReadFailed();
          return ReadFailed;
        }
        assert bs == d0[1..1 + IntSize];
        info := info.(xferStatus := IntValue(bs));
        result := Read;
      } else if cmd == FinalUpdateCmd {
        info := info.(xferStatus := XferStatusDone);
        result := ReadFinalReport(pipe);
        assert d0[1..][ReadFinal(PipeState(info, bytesRcvd, bytesSent, registeredXferPipe), d0[1..]).consumed..] == d0[1 + ReadFinal(PipeState(info, bytesRcvd, bytesSent, registeredXferPipe), d0[1..]).consumed..];
      } else {
        result := InvalidCommand;
      }
    }

    /** The fixed-size fields of the final report. */
    method WriteFixedFields(pipe: Pipe, totalBytes: int, failed: bool,
                            ghost d0: seq<byte>, ghost room0: nat, ghost sent: seq<byte>)
      returns (failedAfter: bool)
      requires Written(pipe, d0, room0, sent, failed)
      modifies pipe
      ensures Written(pipe, d0, room0, sent + FinalFixedFields(totalBytes, info), failedAfter)
    {
      var bytesField := IntBytes(totalBytes, FilesizeSize);
      failedAfter := WriteField(pipe, bytesField, failed, d0, room0, sent);
      var tryAgainField: seq<byte> := [if info.tryAgain then 1 else 0];
      failedAfter := WriteField(pipe, tryAgainField, failedAfter, d0, room0, sent + bytesField);
      var holdCodeField := IntBytes(info.holdCode, IntSize);
      failedAfter := WriteField(pipe, holdCodeField, failedAfter, d0, room0,
                                sent + bytesField + tryAgainField);
      var holdSubcodeField := IntBytes(info.holdSubcode, IntSize);
      failedAfter := WriteField(pipe, holdSubcodeField, failedAfter, d0, room0,
                                sent + bytesField + tryAgainField + holdCodeField);
      AppendAssociates4(sent, bytesField, tryAgainField, holdCodeField, holdSubcodeField);
    }

    /** WriteStatusToTransferPipe: the final report, field by field,
        stopping at the first short write. */
    method WriteStatusToTransferPipe(pipe: Pipe, totalBytes: int) returns (ok: bool)
      modifies pipe
      ensures var msg := FinalMessage(totalBytes, info);
        (ok <==> |msg| <= old(pipe.room))
        && pipe.data == old(pipe.data) + msg[..Min(|msg|, old(pipe.room))]
    {
      ghost var d0 := pipe.data;
      ghost var room0 := pipe.room;
      ghost var sent: seq<byte> := [];
      var failed := false;
      failed := WriteField(pipe, [FinalUpdateCmd], failed, d0, room0, sent);
      assert sent + [FinalUpdateCmd] == [FinalUpdateCmd];
      sent := [FinalUpdateCmd];
      failed := WriteFixedFields(pipe, totalBytes, failed, d0, room0, sent);
      sent := sent + FinalFixedFields(totalBytes, info);
      failed := WriteCStringField(pipe, info.errorDesc, failed, d0, room0, sent);
      sent := sent + CStringField(info.errorDesc);
      failed := WriteCStringField(pipe, info.spooledFiles, failed, d0, room0, sent);
      sent := sent + CStringField(info.spooledFiles);
      assert sent == FinalMessage(totalBytes, info);
      ok := !failed;
    }

    /** UpdateXferStatus: a new status is announced on the pipe (when
        there is one) and kept only if the announcement was written in
        full. */
    method UpdateXferStatus(pipe: Pipe?, status: int)
      modifies this`info, pipe
      ensures old(info.xferStatus) == status ==>
                info == old(info) && (pipe != null ==> pipe.data == old(pipe.data))
      ensures old(info.xferStatus) != status && pipe != null ==>
                pipe.data == old(pipe.data) + ProgressMessage(status)[..Min(1 + IntSize, old(pipe.room))]
      ensures old(info.xferStatus) != status ==>
                info == (if pipe == null || 1 + IntSize <= old(pipe.room) then old(info).(xferStatus := status)
                         else old(info))
    {
      if info.xferStatus != status {
        var writeFailed := false;
        if pipe != null {
          ghost var d0 := pipe.data;
          ghost var room0 := pipe.room;
          ghost var sent: seq<byte> := [];
          var field: seq<byte> := [InProgressUpdateCmd];
          writeFailed := WriteField(pipe, field, writeFailed, d0, room0, sent);
          sent := sent + field;
          field := IntBytes(status, IntSize);
          writeFailed := WriteField(pipe, field, writeFailed, d0, room0, sent);
          sent := sent + field;
          assert sent == ProgressMessage(status);
        }
        if !writeFailed {
          info := info.(xferStatus := status);
        }
      }
    }

    // -------------------------------------------------------------
    // The acknowledgment

    /** SaveTransferInfo. */
    method SaveTransferInfo(success: bool, tryAgain: bool, holdCode: int, holdSubcode: int,
                            holdReason: Option<string>)
      modifies this`info
      ensures info == old(info).(success := success, tryAgain := tryAgain, holdCode := holdCode,
                                 holdSubcode := holdSubcode,
                                 errorDesc := if holdReason.Some? then holdReason.value else old(info).errorDesc)
    {
      info := info.(success := success, tryAgain := tryAgain, holdCode := holdCode, holdSubcode := holdSubcode);
      if holdReason.Some? {
        info := info.(errorDesc := holdReason.value);
      }
    }

    /** SendTransferAck: the outcome is saved; a peer that understands
        acknowledgments is sent the ad (None: nothing is sent). */
    method SendTransferAck(success: bool, tryAgain: bool, holdCode: int, holdSubcode: int,
                           holdReason: Option<string>) returns (sent: Option<AckAd>)
      modifies this`info
      ensures info == old(info).(success := success, tryAgain := tryAgain, holdCode := holdCode,
                                 holdSubcode := holdSubcode,
                                 errorDesc := if holdReason.Some? then holdReason.value else old(info).errorDesc)
      ensures sent == (if features.peerDoesTransferAck
                       then Some(EncodeAck(success, tryAgain, holdCode, holdSubcode, holdReason))
                       else None)
    {
      SaveTransferInfo(success, tryAgain, holdCode, holdSubcode, holdReason);
      if !features.peerDoesTransferAck {
        return None;
      }
      var result := if success then 0 else if tryAgain then 1 else -1;
      var ad := AckAd(Some(result), None, None, None);
      if !success {
        ad := ad.(holdCode := Some(holdCode), holdSubcode := Some(holdSubcode));
        if holdReason.Some? {
          ad := ad.(holdReason := holdReason);
        }
      }
      sent := Some(ad);
    }

    // -------------------------------------------------------------
    // Peer version

    /** setPeerVersion; delegateConfig is DELEGATE_JOB_GSI_CREDENTIALS. */
    method SetPeerVersion(v: Version, delegateConfig: bool)
      modifies this`features
      ensures features == FeaturesFor(v, delegateConfig)
    {
      var f := features;
      f := f.(transferFilePermissions := BuiltSince(v, 6, 7, 7));
      f := f.(delegateX509Credentials := BuiltSince(v, 6, 7, 19) && delegateConfig);
      f := f.(peerDoesTransferAck := BuiltSince(v, 6, 7, 20));
      f := f.(peerDoesGoAhead := BuiltSince(v, 6, 9, 5));
      f := f.(peerUnderstandsMkdir := BuiltSince(v, 7, 5, 4));
      f := f.(transferUserLog := !BuiltSince(v, 7, 6, 0));
      f := f.(peerDoesXferInfo := BuiltSince(v, 8, 1, 0));
      f := f.(peerDoesReuseInfo := BuiltSince(v, 8, 9, 4));
      f := f.(peerDoesS3Urls := BuiltSince(v, 8, 9, 4));
      features := f;
    }

    // -------------------------------------------------------------
    // Lists

    /** addOutputFile: always succeeds. */
    method AddOutputFile(filename: string) returns (ok: bool)
      modifies this`outputFiles
      ensures ok && outputFiles == Some(AppendNew(OrEmpty(old(outputFiles)), filename))
    {
      if outputFiles.None? {
        outputFiles := Some([]);
      } else if filename in outputFiles.value {
        return true;
      }
      outputFiles := Some(outputFiles.value + [filename]);
      ok := true;
    }

    /** addFileToExceptionList: always succeeds. */
    method AddFileToExceptionList(filename: string) returns (ok: bool)
      modifies this`exceptionFiles
      ensures ok && exceptionFiles == Some(AppendNew(OrEmpty(old(exceptionFiles)), filename))
    {
      if exceptionFiles.None? {
        exceptionFiles := Some([]);
      } else if filename in exceptionFiles.value {
        return true;
      }
      exceptionFiles := Some(exceptionFiles.value + [filename]);
      ok := true;
    }

    /** AddDownloadFilenameRemap. */
    method AddDownloadFilenameRemap(source: string, target: string)
      modifies this`downloadFilenameRemaps
      ensures downloadFilenameRemaps == AppendRemaps(old(downloadFilenameRemaps), RemapEntry(source, target))
    {
      ghost var r0 := downloadFilenameRemaps;
      if downloadFilenameRemaps != [] {
        downloadFilenameRemaps := downloadFilenameRemaps + ";";
      }
      downloadFilenameRemaps := downloadFilenameRemaps + source;
      downloadFilenameRemaps := downloadFilenameRemaps + "=";
      downloadFilenameRemaps := downloadFilenameRemaps + target;
      assert r0 != [] ==> downloadFilenameRemaps == r0 + [';'] + (source + "=" + target);
    }

    /** AddDownloadFilenameRemaps. */
    method AddDownloadFilenameRemaps(remaps: string)
      modifies this`downloadFilenameRemaps
      ensures downloadFilenameRemaps == AppendRemaps(old(downloadFilenameRemaps), remaps)
    {
      if downloadFilenameRemaps != [] {
        downloadFilenameRemaps := downloadFilenameRemaps + ";";
      }
      downloadFilenameRemaps := downloadFilenameRemaps + remaps;
    }

    /** GetSupportedMethods: the plugin table's methods, in iteration
        order. */
    method GetSupportedMethods() returns (list: string)
      ensures list == SupportedMethods(pluginTable, supportsS3)
    {
      list := "";
      if pluginTable.Some? {
        var table := pluginTable.value;
        var i := 0;
        while i < |table|
          invariant 0 <= i <= |table|
          invariant list == MethodList(table[..i])
        {
          if list != [] {
            list := list + ",";
          }
          list := list + table[i];
          assert table[..i + 1][..i] == table[..i];
          i := i + 1;
        }
        assert table[..|table|] == table;
        if supportsS3 {
          list := list + ",s3";
        }
      }
    }

    // -------------------------------------------------------------
    // ComputeFilesToSend

    /** The lists and catalog the per-file rule consults. */
    function SendContextOf(catalog: map<string, CatalogEntry>, proxyBasename: Option<string>): SendContext
      reads this
    {
      SendContext(proxyBasename, exceptionFiles, catalog,
                  if finalTransferFlag && spooledIntermediateFiles.Some? then spooledIntermediateFiles.value else [],
                  outputFiles)
    }

    /** ComputeFilesToSend over the working directory's entries, the file
        catalog and the basename of the job's proxy. Nothing is chosen
        unless changed files are to be uploaded and something was
        downloaded; when something is chosen, FilesToSend is the list of
        changed files and the output encryption lists apply. */
    method ComputeFilesToSend(entries: seq<DirEntry>, catalog: map<string, CatalogEntry>,
                              proxyBasename: Option<string>)
      modifies this`intermediateFiles, this`filesToSend, this`encryptFiles, this`dontEncryptFiles
      ensures var chosen := if uploadChangedFiles && lastDownloadTime > 0
                            then ChangedFiles(entries, SendContextOf(catalog, proxyBasename)) else [];
        if chosen == [] then
          intermediateFiles.None? && filesToSend.None? && encryptFiles.None? && dontEncryptFiles.None?
        else
          intermediateFiles == Some(chosen) && filesToSend == Some(chosen)
          && encryptFiles == encryptOutputFiles && dontEncryptFiles == dontEncryptOutputFiles
    {
      intermediateFiles := None;
      filesToSend := None;
      encryptFiles := None;
      dontEncryptFiles := None;
      if uploadChangedFiles && lastDownloadTime > 0 {
        var ctx := SendContextOf(catalog, proxyBasename);
        var i := 0;
        while i < |entries|
          invariant 0 <= i <= |entries|
          invariant intermediateFiles == (if ChangedFiles(entries[..i], ctx) == [] then None
                                          else Some(ChangedFiles(entries[..i], ctx)))
          invariant filesToSend == intermediateFiles
          invariant intermediateFiles.Some? ==>
                      encryptFiles == encryptOutputFiles && dontEncryptFiles == dontEncryptOutputFiles
          invariant intermediateFiles.None? ==> encryptFiles.None? && dontEncryptFiles.None?
        {
          var e := entries[i];
          var sendIt := ShouldSend(e, ctx);
          assert entries[..i + 1][..i] == entries[..i];
          if sendIt {
            if intermediateFiles.None? {
              intermediateFiles := Some([]);
              encryptFiles := encryptOutputFiles;
              dontEncryptFiles := dontEncryptOutputFiles;
            }
            if e.name !in intermediateFiles.value {
              intermediateFiles := Some(intermediateFiles.value + [e.name]);
            }
            filesToSend := intermediateFiles;
          }
          i := i + 1;
        }
        assert entries[..|entries|] == entries;
      }
    }
  }
}
