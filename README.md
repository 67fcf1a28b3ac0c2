# HTCondor file transfer, curl plugins, crypto sizing and the client-credentials credmon in Dafny

This project models the decision logic and small codecs at the core of
HTCondor's file transfer, and proves properties about them. It covers:

- **The FileTransfer object** (`src/condor_utils/file_transfer.cpp`). This
  covers:
  - the order in which upload items are performed;
  - the choice of the per-file upload command and of the encryption mode
    on both sides of the socket;
  - the transfer acknowledgment ad;
  - the status report a transfer thread writes to its parent through the
    transfer pipe, and how the parent reads it back;
  - the per-file byte limits;
  - the changed-file rule of `ComputeFilesToSend`;
  - the sandbox path check and `outputFileIsSpooled`;
  - the no-duplicate string lists, the download filename remap string and
    the supported-methods list;
  - peer-version feature gating;
  - the presigning of S3 URLs and the pairing of the signed answers.
- **The two curl file-transfer plugins**
  (`src/condor_filetransfer_plugins/curl_plugin.cpp` and
  `multifile_curl_plugin.cpp`). This covers:
  - the retry loops;
  - the `dav`/`davs` rewrite;
  - the HTTP cache-header scan;
  - protocol and host extraction;
  - argument handling;
  - the statistics counters;
  - the resume bookkeeping;
  - the per-file aggregation of the multi-file plugin.
- **`Condor_Crypt_Base` and `Condor_Crypto_State`**
  (`src/condor_io/condor_crypt.cpp`): the padded ciphertext size, the hex
  key text, and the cipher contexts `reset` installs.
- **The OAuth2 client-credentials credential monitor** (`ClientCredmon.py`).
  This covers:
  - the construction checks and the jittered endpoint lifetime;
  - the cached `token_endpoint` property with OIDC discovery (OpenID Connect
    Discovery 1.0, section 4);
  - `refresh_access_token`: scope derivation, the form payload and its
    secret, and the classification of the answer (sections 4.4 and 5.1 of
    RFC 6749).

Code that updates state step by step is modelled as classes with `modifies`
clauses and methods with loops:

- `FileTransfer`, `FileTransferItem` and the transfer `Pipe`;
- `CurlPluginProcess` and `MultiFileCurlPlugin`;
- `CryptoState`;
- `ClientCredmon` and `TokenInfo`.

Each such method is proved against a specification function. The
properties are proved about that function. Pure decisions are functions
and lemmas.

Modules and files:

| file | module | models |
|---|---|---|
| text.dfy | Text | Option/Result, string helpers (join, split, strip, strtok, lexicographic order, decimal text) |
| transfer_item.dfy | TransferItem | `FileTransferItem`, `IsUrl` scheme extraction, `operator<` |
| transfer_ack.dfy | TransferAck | `SendTransferAck`'s ad and `GetTransferAck`'s decoding |
| transfer_pipe.dfy | TransferPipe | the byte layout of the pipe reports, `Read_Pipe`/`Write_Pipe` on a pipe object |
| file_transfer.dfy | Transfer | the `FileTransfer` class: pipe writer and reader, ack, lists, remaps, methods, ComputeFilesToSend |
| byte_limits.dfy | ByteLimits | the per-file max-bytes arithmetic of DoDownload/DoUpload |
| upload_command.dfy | UploadCommand | the command selection and crypto mode of DoUpload/DoDownload |
| file_lists.dfy | FileLists | StringList append, the changed-file rule, the remap string, the methods list |
| peer_version.dfy | PeerVersion | `setPeerVersion` |
| sandbox_path.dfy | SandboxPath | `LegalPathInSandbox`, `outputFileIsSpooled` |
| s3_signing.dfy | S3Signing | the S3 sign-list filter and the pairing of signed URLs |
| condor_crypt.dfy | CondorCrypt | `encryptedSize`, `randomHexKey`, `Condor_Crypto_State` |
| curl_common.dfy | CurlCommon | retry codes and loops, dav rewrite, protocol/host, header scan |
| curl_plugin.dfy | CurlPlugin | the single-file plugin |
| multifile_plugin.dfy | MultiFilePlugin | the multi-file plugin |
| client_credmon.dfy | ClientCredmon | `ClientCredmon.py` |

Where the program's own comments and its code disagree, the model follows
the code:

- `ComputeFilesToSend` skips only the file named exactly `condor_exec.`:
  `file_strcmp` compares whole names. The comment at
  src/condor_utils/file_transfer.cpp:1184 says `condor_exec.*` is not sent
  back.
- `refresh_access_token` passes `expires_in` to `write_access_token` as
  received. The warning at
  src/condor_credd/condor_credmon_oauth/credmon/CredentialMonitors/ClientCredmon.py:131-132
  says the default
  lifetime is assumed, but a zero or missing value is passed on as 0 or
  None.
- The multi-file plugin's retry loops test the attempt counter, not the
  curl result. The comment at
  src/condor_filetransfer_plugins/multifile_curl_plugin.cpp:353-354 says only
  non-fatal errors are retried. See Findings.

Integer widths are written out where they matter:

- the pipe carries 8-byte `filesize_t` and 4-byte `int` fields in
  little-endian two's complement (`IntBytes`/`IntValue`);
- C's `%` truncates toward zero (`CondorCrypt.CRem`).

Everything else uses unbounded integers.

## Model

| member | source | states |
|---|---|---|
| TransferItem.UrlScheme | src/condor_utils/file_transfer.cpp:185-191 | a scheme is found only when the name starts with a non-empty run of letters followed by "://", and it is that run |
| TransferItem.UrlSchemeOfUrl | src/condor_utils/file_transfer.cpp:185-199 | every scheme + "://" + rest yields exactly that scheme |
| TransferItem.FileTransferItem.SetSrcName | src/condor_utils/file_transfer.cpp:185-191 | the name is stored; the source scheme follows it only for a URL and is otherwise left as it was; nothing else changes |
| TransferItem.FileTransferItem.SetDestUrl | src/condor_utils/file_transfer.cpp:193-199 | the same rule for the destination URL and its scheme |
| TransferItem.LessIsKeyOrder | src/condor_utils/file_transfer.cpp:201-242 | `operator<` is exactly the lexicographic order on (kind rank, scheme or name, URL or name) |
| TransferItem.LessRanksKinds | src/condor_utils/file_transfer.cpp:201-242 | destination-URL items precede all others; plain items precede source-URL items |
| TransferItem.LessIsStrictOrder | src/condor_utils/file_transfer.cpp:201-242 | `operator<` is irreflexive, transitive and asymmetric; two items are unordered exactly when their keys agree |
| TransferAck.ResultCode | src/condor_utils/file_transfer.cpp:3114-3122 | Result is 0 exactly on success, positive exactly for a failure to retry, negative exactly for a failure not to retry |
| TransferAck.EncodeAck | src/condor_utils/file_transfer.cpp:3112-3130 | the ad carries Result, and the hold code and subcode only on failure |
| TransferAck.DecodeAck | src/condor_utils/file_transfer.cpp:3029-3087 | an old peer means success; a lost ad means a transient failure; a missing Result means a hold with InvalidTransferAck; otherwise the sign of Result decides success and retry |
| TransferAck.AckRoundTrip | src/condor_utils/file_transfer.cpp:3029-3130 | what SendTransferAck sends, GetTransferAck reads back: the verdict, and on failure the hold code and subcode |
| TransferPipe.IntRoundTrip | src/condor_utils/file_transfer.cpp:1731-1756 | every integer in the C type's range reads back as written |
| TransferPipe.IntBytesPeriodic | src/condor_utils/file_transfer.cpp:3302-3323 | a field keeps only the value modulo 256^n (C's truncation to the field width) |
| TransferPipe.UpToNulOfCString | src/condor_utils/file_transfer.cpp:1772 | a string written with its NUL is recovered when the buffer is assigned back |
| TransferPipe.Failed | src/condor_utils/file_transfer.cpp:1807-1819 | a failed read clears success, asks for a retry, leaves a description and unregisters the pipe |
| TransferPipe.ReadMessage | src/condor_utils/file_transfer.cpp:1708-1820 | the reader never consumes more than is there; an unknown command byte, and only that, is InvalidCommand and changes nothing; an empty pipe fails; a progress report fails exactly when its 4-byte status is not all there; every failure marks the transfer failed and retryable with a description and unregisters the pipe |
| TransferPipe.ReadFinal | src/condor_utils/file_transfer.cpp:1728-1756 | the fixed fields of a final report never yield an invalid command, and a short read fails |
| TransferPipe.ReadStrings | src/condor_utils/file_transfer.cpp:1758-1799 | the two strings of a final report never yield an invalid command, and a short read fails |
| TransferPipe.Pipe.Write | src/condor_utils/file_transfer.cpp:3295-3298 | a write appends as many bytes as fit and reports how many |
| TransferPipe.Pipe.Read | src/condor_utils/file_transfer.cpp:1713-1714 | a read takes up to k bytes from the front of the pipe |
| TransferPipe.CStringRoundTrip | src/condor_utils/file_transfer.cpp:3325-3340 | a length-prefixed string (length counts the NUL, 0 for "") reads back as the same string |
| TransferPipe.StringsRoundTrip | src/condor_utils/file_transfer.cpp:1758-1799 | the error and spooled-files strings read back and the pipe is unregistered |
| TransferPipe.FixedFieldsRoundTrip | src/condor_utils/file_transfer.cpp:3301-3324 | bytes, try_again, hold code and subcode read back as written |
| TransferPipe.FinalReportRoundTrip | src/condor_utils/file_transfer.cpp:3287-3364 | a whole final report read back leaves status DONE, the fields written, the byte count added to the direction's counter and the pipe unregistered |
| TransferPipe.ProgressRoundTrip | src/condor_utils/file_transfer.cpp:1716-1722 | an in-progress update read back sets the status and nothing else |
| TransferPipe.TruncatedProgressFails | src/condor_utils/file_transfer.cpp:1716-1722 | an in-progress update cut short anywhere fails, asks for a retry, unregisters the pipe and takes what was there |
| TransferPipe.TruncatedReportFails | src/condor_utils/file_transfer.cpp:1728-1819 | a final report cut short anywhere fails and asks for a retry |
| TransferPipe.CStringOfPrefix | src/condor_utils/file_transfer.cpp:1758-1775 | a length-prefixed string cut short is not read |
| Transfer.ReadField | src/condor_utils/file_transfer.cpp:1731-1734 | one field succeeds exactly when all its bytes are there, and takes exactly those bytes |
| Transfer.ReadCStringField | src/condor_utils/file_transfer.cpp:1758-1775 | reading a length-prefixed string from the pipe agrees with ReadCString and consumes what it read |
| Transfer.WriteField | src/condor_utils/file_transfer.cpp:3301-3306 | a guarded write keeps the invariant: the pipe holds the prefix of the report that fit, and a failure stops later writes |
| Transfer.WriteCStringField | src/condor_utils/file_transfer.cpp:3325-3340 | the same invariant for a length-prefixed string |
| Transfer.FileTransfer.constructor | src/condor_utils/file_transfer.cpp:274-333 | a transfer object with the given Info, zero counters, no peer features and no lists |
| Transfer.FileTransfer.MarkReadFailed | src/condor_utils/file_transfer.cpp:1807-1819 | the read_failed label leaves the state Failed describes |
| Transfer.FileTransfer.ReadReportStrings | src/condor_utils/file_transfer.cpp:1758-1799 | reading the two strings agrees with ReadStrings, result and new state |
| Transfer.FileTransfer.ReadFixedFields | src/condor_utils/file_transfer.cpp:1731-1756 | succeeds exactly when 17 bytes are there; the state is FixedFieldsState on success and ShortFixedState after a short read |
| Transfer.FileTransfer.ReadFinalReport | src/condor_utils/file_transfer.cpp:1728-1819 | reading a final report agrees with ReadFinal, result, state and bytes consumed |
| Transfer.FileTransfer.ReadTransferPipeMsg | src/condor_utils/file_transfer.cpp:1708-1820 | the method agrees with ReadMessage: result and new state, and a successful read consumes exactly the report |
| Transfer.FileTransfer.WriteFixedFields | src/condor_utils/file_transfer.cpp:3301-3324 | the fixed fields extend the written prefix by FinalFixedFields |
| Transfer.FileTransfer.WriteStatusToTransferPipe | src/condor_utils/file_transfer.cpp:3287-3364 | succeeds exactly when the whole FinalMessage fits, and the pipe then holds what fit of it |
| Transfer.FileTransfer.UpdateXferStatus | src/condor_utils/file_transfer.cpp:1822-1849 | an unchanged status writes nothing; a new one is announced and adopted only when both writes succeed (always without a pipe) |
| Transfer.FileTransfer.SaveTransferInfo | src/condor_utils/file_transfer.cpp:3089-3099 | the verdict and hold codes are stored; the hold reason only when given |
| Transfer.FileTransfer.SendTransferAck | src/condor_utils/file_transfer.cpp:3102-3130 | the outcome is saved, and EncodeAck's ad is sent exactly when the peer does transfer acks |
| Transfer.FileTransfer.SetPeerVersion | src/condor_utils/file_transfer.cpp:5034-5092 | the features become FeaturesFor the peer's version |
| Transfer.FileTransfer.AddOutputFile | src/condor_utils/file_transfer.cpp:4968-4980 | succeeds, and OutputFiles becomes AppendNew of the old list (created when absent) |
| Transfer.FileTransfer.AddFileToExceptionList | src/condor_utils/file_transfer.cpp:4982-4993 | the same for ExceptionFiles |
| Transfer.FileTransfer.AddDownloadFilenameRemap | src/condor_utils/file_transfer.cpp:1947-1956 | the remap string gains "source=target", after a ';' when it was non-empty |
| Transfer.FileTransfer.AddDownloadFilenameRemaps | src/condor_utils/file_transfer.cpp:1957-1963 | the remap string gains the given remaps, after a ';' when it was non-empty |
| Transfer.FileTransfer.GetSupportedMethods | src/condor_utils/file_transfer.cpp:5632-5655 | the loop returns SupportedMethods of the plugin table and the S3 flag |
| Transfer.FileTransfer.ComputeFilesToSend | src/condor_utils/file_transfer.cpp:1148-1304 | the lists are reset; only with upload_changed_files and a positive last download time do IntermediateFiles and FilesToSend become ChangedFiles of the directory |
| ByteLimits.DownloadLimitMeaning | src/condor_utils/file_transfer.cpp:2288-2310 | no limit exactly for a negative limit; otherwise max(limit + 65535 - total, 0) |
| ByteLimits.EffectiveUploadLimitIsTighter | src/condor_utils/file_transfer.cpp:4135-4161 | the upload limit is the smaller of two non-negative limits, the peer's when the own is negative, and negative only when both are |
| ByteLimits.UploadLimitMeaning | src/condor_utils/file_transfer.cpp:4135-4161 | no limit exactly when neither side has one; otherwise max(limit - total, 0) |
| ByteLimits.LimitsShrinkAsBytesMove | src/condor_utils/file_transfer.cpp:2288-2310 | moving more bytes never raises the next file's limit, either way |
| UploadCommand.SelectUploadCommand | src/condor_utils/file_transfer.cpp:3948-4043 | the UploadUrl subcommand exactly for destination URLs; the directory problems exactly for symlinked directories and for a peer without mkdir |
| UploadCommand.SelectionIsLastApplicableRule | src/condor_utils/file_transfer.cpp:3948-4043 | the command is the last rule that applies, in order: DontEncrypt, Encrypt, proxy, source URL, destination URL, directory |
| UploadCommand.UrlsAndDirectoriesOverrideEncryptionLists | src/condor_utils/file_transfer.cpp:3948-4043 | URLs and directories get their own command whatever the encryption lists say |
| UploadCommand.SenderCryptoMode | src/condor_utils/file_transfer.cpp:4069-4085 | the sender aborts only when the socket refuses a mode other than "off" |
| UploadCommand.ReceiverCryptoMode | src/condor_utils/file_transfer.cpp:2131-2146 | the receiver aborts under the same condition |
| UploadCommand.CryptoModesAcrossVersions | src/condor_utils/file_transfer.cpp:5091 | with each end's S3 flag taken from the other end's version, the two ends pick the same mode for every command when both or neither are 8.9.4 or later, and disagree on a DownloadUrl over a socket whose default is off when exactly one is |
| UploadCommand.SenderAndReceiverAgree | src/condor_utils/file_transfer.cpp:2131-2146 | given the same S3 flag, both ends pick the same mode for every command: on for EnableEncryption and S3 DownloadUrl, off for DisableEncryption, the default otherwise |
| UploadCommand.EncryptListedFileIsEncrypted | src/condor_utils/file_transfer.cpp:3948-4085 | a plain file on the encrypt list is sent encrypted, or the transfer aborts |
| FileLists.AppendNewMeaning | src/condor_utils/file_transfer.cpp:4968-4993 | the list gains exactly the new name, keeps its order, stays free of duplicates, and appending twice changes nothing |
| FileLists.ShouldSend | src/condor_utils/file_transfer.cpp:1183-1283 | skipped names are never sent; forced ones always are; otherwise send exactly when the catalog entry changed (newer only for size -1) |
| FileLists.ChangedFiles | src/condor_utils/file_transfer.cpp:1182-1300 | the collected list has no duplicates |
| FileLists.ChangedFilesMembers | src/condor_utils/file_transfer.cpp:1182-1300 | a name is collected exactly when some entry of that name passes the rule |
| FileLists.UnchangedFilesStayHome | src/condor_utils/file_transfer.cpp:1237-1283 | a skipped entry, or an unforced one with unchanged catalog data, is not sent back |
| FileLists.RemapEntries | src/condor_utils/file_transfer.cpp:1947-1963 | split at ';', the remap string is the old entries followed by the new ones |
| FileLists.RemapAddsOneEntry | src/condor_utils/file_transfer.cpp:1947-1956 | one remap whose names hold no ';' adds exactly one entry |
| FileLists.MethodListIsJoin | src/condor_utils/file_transfer.cpp:5632-5655 | with non-empty names the methods list is their comma join |
| FileLists.SupportedMethodsSplit | src/condor_utils/file_transfer.cpp:5632-5655 | split at commas, the list gives back the table's methods, plus s3 when supported |
| PeerVersion.FeaturesFor | src/condor_utils/file_transfer.cpp:5034-5092 | the user log goes exactly to peers older than 7.6.0; delegation needs the configuration |
| PeerVersion.BuiltSinceMonotone | src/condor_utils/file_transfer.cpp:5034-5092 | a newer version is built since whatever an older one is |
| PeerVersion.FeaturesGrowWithVersion | src/condor_utils/file_transfer.cpp:5034-5092 | a newer peer keeps every feature of an older one, and stops getting the user log once an older one has |
| PeerVersion.FeaturesAreCumulative | src/condor_utils/file_transfer.cpp:5034-5092 | each feature implies the ones that came before it |
| SandboxPath.LegalPathInSandbox | src/condor_utils/file_transfer.cpp:6075-6118 | legal exactly when the path is relative and has no ".." component |
| SandboxPath.NoDotDotInsideComponent | src/condor_utils/file_transfer.cpp:6093-6116 | inside one component a ".." can only start at its first character |
| SandboxPath.OutputFileIsSpooled | src/condor_utils/file_transfer.cpp:6170-6183 | a relative name is spooled exactly when Iwd is the spool; an absolute one exactly when it starts with the spool path; no name never is |
| S3Signing.HasGoodPrefix | src/condor_utils/file_transfer.cpp:2553-2560 | good exactly when some output prefix begins the URL |
| S3Signing.SignedEntry | src/condor_utils/file_transfer.cpp:2541-2586 | non-strings and refused s3:// URLs answer ""; signed URLs answer the signature or ""; other strings pass through |
| S3Signing.SignUrls | src/condor_utils/file_transfer.cpp:2541-2586 | one answer per entry, each SignedEntry of it |
| S3Signing.NoSignatureOutsidePrefixes | src/condor_utils/file_transfer.cpp:2541-2586 | an s3:// URL outside every prefix, or holding "/..", is never signed |
| S3Signing.PairSignedUrls | src/condor_utils/file_transfer.cpp:3825-3842 | the loop computes Zip of the URLs and answers |
| S3Signing.ZipKeepsEntries | src/condor_utils/file_transfer.cpp:3825-3842 | an existing entry is never overwritten |
| S3Signing.ZipKeys | src/condor_utils/file_transfer.cpp:3825-3842 | a URL has an entry exactly when it had one or some non-empty string answered it |
| S3Signing.ZipValues | src/condor_utils/file_transfer.cpp:3825-3842 | every added value is the answer given at that URL's position |
| CondorCrypt.CRem | src/condor_io/condor_crypt.cpp:110 | C's remainder: Euclidean for non-negative operands, never positive for a negative dividend |
| CondorCrypt.EncryptedSize | src/condor_io/condor_crypt.cpp:108-112 | for a non-negative length the size is (length / block + 1) * block |
| CondorCrypt.EncryptedSizeBounds | src/condor_io/condor_crypt.cpp:108-112 | the size exceeds the length, is a multiple of the block, and pads by 1..block, a full block when aligned |
| CondorCrypt.EncryptedSizeIsLeastPaddedLength | src/condor_io/condor_crypt.cpp:108-112 | no multiple of the block above the length is smaller |
| CondorCrypt.HexKeyRoundTrip | src/condor_io/condor_crypt.cpp:146-157 | the hex text gives back the key bytes |
| CondorCrypt.HexKeyAt | src/condor_io/condor_crypt.cpp:152-154 | byte i becomes two lower-case hex digits at 2i and 2i+1, high nibble first |
| CondorCrypt.RandomHexKey | src/condor_io/condor_crypt.cpp:146-157 | a fresh buffer of 2n+1 chars holding HexKey of the bytes, NUL-terminated |
| CondorCrypt.CipherFor | src/condor_io/condor_crypt.cpp:74-87 | 3DES and Blowfish choose their CFB64 ciphers; AES-GCM and unknown protocols choose none |
| CondorCrypt.CryptoState.constructor | src/condor_io/condor_crypt.cpp:31-67 | the AES-GCM stream state only for AES-GCM; then reset() |
| CondorCrypt.CryptoState.Reset | src/condor_io/condor_crypt.cpp:74-106 | for a block cipher both contexts are replaced by fresh ones for the key; otherwise they are left alone |
| CurlCommon.TransientCodesAreFailures | src/condor_filetransfer_plugins/multifile_curl_plugin.cpp:14-27 | every code ShouldRetryTransfer accepts is a positive failure code |
| CurlCommon.Attempts | src/condor_filetransfer_plugins/curl_plugin.cpp:64-97 | a retry loop makes between 1 and MAX_RETRY_ATTEMPTS + 1 attempts |
| CurlCommon.AttemptNumberRuleNeverRetries | src/condor_filetransfer_plugins/multifile_curl_plugin.cpp:343-363 | as written, the multi-file loop makes exactly one attempt whatever the results |
| CurlCommon.ConnectFailuresRetriedOnlyByResultRule | src/condor_filetransfer_plugins/multifile_curl_plugin.cpp:411-433 | failing connections get one attempt as written and 21 under the result rule |
| CurlCommon.ResultRuleRetriesUntilSuccess | src/condor_filetransfer_plugins/curl_plugin.cpp:64-97 | under the result rule, transient failures are retried until the first success |
| CurlCommon.ResultRuleStopsOnFatal | src/condor_filetransfer_plugins/curl_plugin.cpp:64-97 | a fatal failure ends the loop at once |
| CurlCommon.AllTransientExhaustsRetries | src/condor_filetransfer_plugins/curl_plugin.cpp:64-97 | transient failures throughout make exactly MAX_RETRY_ATTEMPTS + 1 attempts |
| CurlCommon.DavRewrite | src/condor_filetransfer_plugins/multifile_curl_plugin.cpp:296-300 | davs:// becomes https://, dav:// becomes http://, anything else is unchanged |
| CurlCommon.DavRewriteIdempotent | src/condor_filetransfer_plugins/multifile_curl_plugin.cpp:296-300 | no dav scheme is left behind, so rewriting twice is rewriting once |
| CurlCommon.MultiFileProtocolCases | src/condor_filetransfer_plugins/multifile_curl_plugin.cpp:502-513 | each protocol is reported exactly for URLs with that scheme (case-insensitive), none otherwise |
| CurlCommon.HostOfHasNoSlash | src/condor_filetransfer_plugins/multifile_curl_plugin.cpp:517-518 | a host found is non-empty and holds no '/' |
| CurlCommon.HostOfUrl | src/condor_filetransfer_plugins/curl_plugin.cpp:426-428 | the host of scheme://host/path is host |
| CurlCommon.XCacheHeaderReportsStatus | src/condor_filetransfer_plugins/curl_plugin.cpp:467-471 | "X-Cache: v" reports v as the cache status |
| CurlCommon.ViaHeaderReportsHost | src/condor_filetransfer_plugins/curl_plugin.cpp:473-482 | "Via: version host" reports host as the cache host |
| CurlCommon.OtherHeadersReportNothing | src/condor_filetransfer_plugins/curl_plugin.cpp:465-485 | a header without those names reports nothing |
| CurlCommon.HandleToken | src/condor_filetransfer_plugins/curl_plugin.cpp:465-485 | one round of the strtok loop reports the events HeaderEvents gives for its tokens |
| CurlCommon.ScanHeader | src/condor_filetransfer_plugins/multifile_curl_plugin.cpp:554-572 | the whole strtok loop reports HeaderEvents of the header's tokens |
| CurlPlugin.AssignToken | src/condor_filetransfer_plugins/curl_plugin.cpp:426-428 | a token is assigned as a string; a NULL token is taken as assigning nothing (see Left out) |
| CurlPlugin.PluginProtocolOnlyForDownloads | src/condor_filetransfer_plugins/curl_plugin.cpp:411-422 | a protocol is recorded exactly for downloaded URLs, and is http, ftp or file; never for https |
| CurlPlugin.CallResultOf | src/condor_filetransfer_plugins/curl_plugin.cpp:120-354 | the process exits with 1 exactly for an upload from stdin or an unopenable or unstattable file |
| CurlPlugin.AfterPerformCounts | src/condor_filetransfer_plugins/curl_plugin.cpp:204-246 | a performed attempt adds one try and its bytes; success sets TransferSuccess and removes TransferError, failure records the error |
| CurlPlugin.Step | src/condor_filetransfer_plugins/curl_plugin.cpp:120-354 | a resume, once pending, stays pending; an attempt that does not reach curl changes nothing |
| CurlPlugin.HeaderLinesKeep | src/condor_filetransfer_plugins/curl_plugin.cpp:459-487 | the header lines change no attribute but HttpCacheHitOrMiss, HttpCacheHost and HttpUsedCache |
| CurlPlugin.UsedCacheIffHeaderLine | src/condor_filetransfer_plugins/curl_plugin.cpp:459-487 | after the header lines HttpUsedCache is true when some line has an X-Cache or Via finding; when none has one the statistics are unchanged |
| CurlPlugin.AfterPerformKeepsCache | src/condor_filetransfer_plugins/curl_plugin.cpp:204-246 | the bookkeeping after curl_easy_perform leaves the three HTTP cache attributes as the header callback left them |
| CurlPlugin.StepRecordsHeaders | src/condor_filetransfer_plugins/curl_plugin.cpp:165-246 | in a performed download the HTTP cache attributes are those the header lines produce for an http or file source, and untouched for ftp |
| CurlPlugin.UsedCacheStays | src/condor_filetransfer_plugins/curl_plugin.cpp:120-354 | no later attempt clears a recorded cache use |
| CurlPlugin.UsedCacheKept | src/condor_filetransfer_plugins/curl_plugin.cpp:64-97 | a cache use recorded after some number of calls is still recorded after any larger number |
| CurlPlugin.StepRecordsCacheUse | src/condor_filetransfer_plugins/curl_plugin.cpp:459-487 | a performed http or file download (the callback is installed for those at :165-170) with an X-Cache or Via header line records HttpUsedCache = true |
| CurlPlugin.UsedCacheReachesStats | src/condor_filetransfer_plugins/curl_plugin.cpp:64-107 | once any performed http or file attempt delivered such a header line, the final statistics, and so the printed ones, carry HttpUsedCache = true |
| CurlPlugin.Loop | src/condor_filetransfer_plugins/curl_plugin.cpp:64-97 | the loop makes between 1 and MAX_RETRY_ATTEMPTS + 1 calls |
| CurlPlugin.LoopFollowsResultRule | src/condor_filetransfer_plugins/curl_plugin.cpp:64-97 | main makes exactly the attempts of the result rule and returns the last call's result |
| CurlPlugin.TriesAndBytesAccumulate | src/condor_filetransfer_plugins/curl_plugin.cpp:204-224 | TransferTries counts the attempts that reached curl and TransferTotalBytes sums their bytes |
| CurlPlugin.ParseArgs | src/condor_filetransfer_plugins/curl_plugin.cpp:38-52 | a lone -classad prints the ad; three arguments, or more with -diagnostic third, run; anything else is refused |
| CurlPlugin.CurlPluginProcess.InitStats | src/condor_filetransfer_plugins/curl_plugin.cpp:402-428 | the counters at zero, the protocol, the URL and the host are set as InitialStats says |
| CurlPlugin.CurlPluginProcess.RecordPerform | src/condor_filetransfer_plugins/curl_plugin.cpp:204-246 | the statistics become AfterPerform of the old ones |
| CurlPlugin.CurlPluginProcess.SendCurlRequest | src/condor_filetransfer_plugins/curl_plugin.cpp:120-354 | the call result and new state are CallResultOf and Step (an http or file download applies its header lines before the post-perform bookkeeping); the file opens for append and sends a range exactly when a resume is pending |
| CurlPlugin.CurlPluginProcess.RetryRequest | src/condor_filetransfer_plugins/curl_plugin.cpp:64-95 | the loop makes exactly the calls of the result-testing retry rule and returns the last call's result, leaving the statistics those calls produce |
| CurlPlugin.CurlPluginProcess.DeliverHeaders | src/condor_filetransfer_plugins/curl_plugin.cpp:165-206 | the header callback runs once per header line, in order: the statistics become ApplyHeaderLines of the old ones |
| CurlPlugin.CurlPluginProcess.HeaderCallback | src/condor_filetransfer_plugins/curl_plugin.cpp:459-487 | returns size * nitems and applies the header's events to the statistics |
| CurlPlugin.ApplyHeaderEvent | src/condor_filetransfer_plugins/curl_plugin.cpp:467-482 | every finding sets HttpUsedCache |
| CurlPlugin.UsedCacheIffHeaderSeen | src/condor_filetransfer_plugins/curl_plugin.cpp:459-487 | HttpUsedCache is set when some X-Cache or Via header was seen, nothing changes otherwise, and every other attribute keeps its presence and its value |
| CurlPlugin.RunPlugin | src/condor_filetransfer_plugins/curl_plugin.cpp:24-114 | -classad exits 0; bad arguments or a failed curl init exit -1; a run returns the last call's result and prints the statistics exactly when it is not -1; those statistics are the state after the calls made, header findings included |
| MultiFilePlugin.Requests | src/condor_filetransfer_plugins/multifile_curl_plugin.cpp:290-308 | one request per ad |
| MultiFilePlugin.RequestsOfCompleteAds | src/condor_filetransfer_plugins/multifile_curl_plugin.cpp:290-308 | when every ad has both attributes, request k is ad k with its URL rewritten |
| MultiFilePlugin.RequestUrlsRewritten | src/condor_filetransfer_plugins/multifile_curl_plugin.cpp:290-308 | no request keeps a dav scheme, and an ad without Url repeats the previous URL |
| MultiFilePlugin.RvalOf | src/condor_filetransfer_plugins/multifile_curl_plugin.cpp:171-258 | -1 exactly when the file cannot be opened (or stat'ed, for an upload) or curl reports -1 |
| MultiFilePlugin.StatsCountAttempts | src/condor_filetransfer_plugins/multifile_curl_plugin.cpp:143-258 | TransferTries counts the attempts that reached curl and TransferTotalBytes sums their bytes (for uploads too the bytes are CURLINFO_SIZE_DOWNLOAD, :150 and :155) |
| MultiFilePlugin.LastAttemptDecidesSuccess | src/condor_filetransfer_plugins/multifile_curl_plugin.cpp:157-166 | TransferSuccess is whether the last performed attempt succeeded, with its error otherwise |
| MultiFilePlugin.OneAttemptPerFile | src/condor_filetransfer_plugins/multifile_curl_plugin.cpp:343-363 | as written, each file gets one attempt, and its result is that attempt's |
| MultiFilePlugin.UploadResultZeroIffAllSucceeded | src/condor_filetransfer_plugins/multifile_curl_plugin.cpp:374-378 | the upload succeeds exactly when every file succeeded |
| MultiFilePlugin.UploadResultIsAFileResult | src/condor_filetransfer_plugins/multifile_curl_plugin.cpp:374-378 | a failed upload returns the result of some file |
| MultiFilePlugin.UploadResultIsLastFailure | src/condor_filetransfer_plugins/multifile_curl_plugin.cpp:374-378 | the upload gives -1 exactly when some file gave -1; otherwise a failed upload gives the result of the last failing file, every later file having succeeded |
| MultiFilePlugin.StopIndexIsFirstPositive | src/condor_filetransfer_plugins/multifile_curl_plugin.cpp:445-446 | the download loop stops right after the first file with a positive result |
| MultiFilePlugin.OpenFailureDoesNotStopDownloads | src/condor_filetransfer_plugins/multifile_curl_plugin.cpp:417-446 | a local file that cannot be opened gives -1, which does not stop the later downloads |
| MultiFilePlugin.LastValue | src/condor_filetransfer_plugins/multifile_curl_plugin.cpp:604-619 | the value is the one after the last occurrence of the flag, or none when the flag never has one |
| MultiFilePlugin.FlagSeenMeansPresent | src/condor_filetransfer_plugins/multifile_curl_plugin.cpp:620-625 | a switch is set exactly when it occurs among the arguments |
| MultiFilePlugin.LastValueIsLast | src/condor_filetransfer_plugins/multifile_curl_plugin.cpp:604-619 | the value taken follows an occurrence of the flag after which no occurrence takes a value (the last one wins) |
| MultiFilePlugin.CommandOfTransfer | src/condor_filetransfer_plugins/multifile_curl_plugin.cpp:596-640 | a transfer command has more than one argument, no value flag at the end, a non-empty input file following the last -infile, and -upload/-diagnostic set exactly when they occur |
| MultiFilePlugin.RunResultMeaning | src/condor_filetransfer_plugins/multifile_curl_plugin.cpp:650-652 | an unreadable input gives 1; an upload run gives 0 exactly when every file succeeded; a download run gives a positive curl error exactly when some file ended with one |
| MultiFilePlugin.MultiFileCurlPlugin.FinishCurlTransfer | src/condor_filetransfer_plugins/multifile_curl_plugin.cpp:143-168 | the bytes are added, the response code kept, and success or error recorded |
| MultiFilePlugin.MultiFileCurlPlugin.UploadFile | src/condor_filetransfer_plugins/multifile_curl_plugin.cpp:171-210 | the result is RvalOf the attempt; statistics change only for a performed attempt, to AfterAttempt |
| MultiFilePlugin.MultiFileCurlPlugin.DownloadFile | src/condor_filetransfer_plugins/multifile_curl_plugin.cpp:214-258 | append mode and a "n-" range exactly when partial bytes are pending; partial bytes move only on a resumable PARTIAL_FILE |
| MultiFilePlugin.MultiFileCurlPlugin.TransferFile | src/condor_filetransfer_plugins/multifile_curl_plugin.cpp:343-363 | the loop makes FileAttempts attempts and returns FileResult, with the statistics of those attempts |
| MultiFilePlugin.MultiFileCurlPlugin.InitializeStats | src/condor_filetransfer_plugins/multifile_curl_plugin.cpp:495-543 | the record becomes StatsForUrl: protocol and host when found, and the URL |
| MultiFilePlugin.MultiFileCurlPlugin.TransferRequest | src/condor_filetransfer_plugins/multifile_curl_plugin.cpp:336-363 | one file's record and result are FileOutcome of its request |
| MultiFilePlugin.MultiFileCurlPlugin.PublishRequest | src/condor_filetransfer_plugins/multifile_curl_plugin.cpp:336-373 | file i's result is its outcome's, and exactly its ad is appended to the published ads, whether or not it succeeded |
| MultiFilePlugin.MultiFileCurlPlugin.UploadMultipleFiles | src/condor_filetransfer_plugins/multifile_curl_plugin.cpp:320-382 | every file is attempted and gets one ad in order; the result is UploadResult; an unreadable input returns 1 |
| MultiFilePlugin.MultiFileCurlPlugin.DownloadMultipleFiles | src/condor_filetransfer_plugins/multifile_curl_plugin.cpp:386-450 | files are attempted in order up to the first positive result, each with its ad; an unreadable input returns 1 |
| MultiFilePlugin.MultiFileCurlPlugin.DownloadRequests | src/condor_filetransfer_plugins/multifile_curl_plugin.cpp:393-447 | files are processed in order up to and including the first with a positive result, each publishing its ad; the result is the last file's, or the one it started with when there was none |
| MultiFilePlugin.MultiFileCurlPlugin.BuildTransferRequests | src/condor_filetransfer_plugins/multifile_curl_plugin.cpp:262-316 | 1 and no requests for an unreadable input, else 0 and Requests of its ads |
| MultiFilePlugin.MultiFileCurlPlugin.HeaderCallback | src/condor_filetransfer_plugins/multifile_curl_plugin.cpp:546-574 | returns size * nitems and applies the header's events to the record handed in |
| MultiFilePlugin.MultiFileCurlPlugin.ParseCommandLine | src/condor_filetransfer_plugins/multifile_curl_plugin.cpp:596-640 | the loop computes CommandOf: a lone -classad prints the ad, any other lone argument is invalid; otherwise the last -infile/-outfile values and the switches; a value flag without a value, or no input file, is invalid |
| MultiFilePlugin.ApplyHeaderEvents | src/condor_filetransfer_plugins/multifile_curl_plugin.cpp:554-572 | only the cache status and cache host fields change |
| MultiFilePlugin.LastCacheStatusWins | src/condor_filetransfer_plugins/multifile_curl_plugin.cpp:554-572 | the recorded cache status is the last X-Cache value |
| MultiFilePlugin.RunPlugin | src/condor_filetransfer_plugins/multifile_curl_plugin.cpp:584-672 | -classad exits 0 without a plugin; an invalid command line or a failed curl init exits 1 without a plugin; otherwise a fresh plugin with the command's diagnostic flag runs the command's upload or download, publishes RunAds, and the exit status is 1 when a named output file cannot be opened, else RunResult |
| ClientCredmon.CheckCredentials | src/condor_credd/condor_credmon_oauth/credmon/CredentialMonitors/ClientCredmon.py:28-39 | CLIENT_ID, then CLIENT_SECRET_FILE, then a readable, non-blank secret; the secret kept is the stripped text |
| ClientCredmon.BlankSecretRejectedLikeEmpty | src/condor_credd/condor_credmon_oauth/credmon/CredentialMonitors/ClientCredmon.py:35-39 | a secret file of whitespace only is refused exactly like an empty one |
| ClientCredmon.DiscoveredEndpoint | src/condor_credd/condor_credmon_oauth/credmon/CredentialMonitors/ClientCredmon.py:55-79 | a non-200 status, a non-JSON body and a missing token_endpoint each have their error; otherwise the endpoint |
| ClientCredmon.Resolve | src/condor_credd/condor_credmon_oauth/credmon/CredentialMonitors/ClientCredmon.py:48-82 | TOKEN_URL wins without discovery; a fresh cache is used without discovery; otherwise discovery, falling back to a stale cache on any non-200, non-JSON or missing-key answer and failing only without one; success stores the endpoint and the time |
| ClientCredmon.NoRediscoveryWithinLifetime | src/condor_credd/condor_credmon_oauth/credmon/CredentialMonitors/ClientCredmon.py:52-82 | after a successful discovery, no evaluation within the lifetime discovers again and each returns that endpoint |
| ClientCredmon.Quote | src/condor_credd/condor_credmon_oauth/credmon/CredentialMonitors/ClientCredmon.py:98 | quoting never shortens a string |
| ClientCredmon.QuoteIdentityIffSafe | src/condor_credd/condor_credmon_oauth/credmon/CredentialMonitors/ClientCredmon.py:98 | quote() leaves a string unchanged exactly when every character is safe |
| ClientCredmon.QuoteAlphabet | src/condor_credd/condor_credmon_oauth/credmon/CredentialMonitors/ClientCredmon.py:98 | a quoted string holds only safe characters, '%' and upper-case hex digits |
| ClientCredmon.DerivedScopes | src/condor_credd/condor_credmon_oauth/credmon/CredentialMonitors/ClientCredmon.py:94-98 | "wlcg" exactly for the wlcg profiles, and the quoted condor.user scope last exactly when sub is set |
| ClientCredmon.PutKey | src/condor_credd/condor_credmon_oauth/credmon/CredentialMonitors/ClientCredmon.py:105-112 | a dict assignment: the pair is present, other keys keep their values, and a new key goes last |
| ClientCredmon.DeleteKey | src/condor_credd/condor_credmon_oauth/credmon/CredentialMonitors/ClientCredmon.py:114 | exactly the pairs of other keys remain |
| ClientCredmon.GrantPayload | src/condor_credd/condor_credmon_oauth/credmon/CredentialMonitors/ClientCredmon.py:100-108 | client_id and grant_type always; scopes and audience exactly when non-empty, space-joined; never the secret |
| ClientCredmon.ClassifyGrant | src/condor_credd/condor_credmon_oauth/credmon/CredentialMonitors/ClientCredmon.py:116-135 | a non-200 status, a non-JSON body and an empty or missing access token are refused; otherwise the token is granted |
| ClientCredmon.DeleteAppended | src/condor_credd/condor_credmon_oauth/credmon/CredentialMonitors/ClientCredmon.py:112-114 | adding the secret to a payload without it and deleting it gives the payload back |
| ClientCredmon.ClientCredmon.constructor | src/condor_credd/condor_credmon_oauth/credmon/CredentialMonitors/ClientCredmon.py:22-26 | an empty cache and a lifetime in [base, base + 60] |
| ClientCredmon.ClientCredmon.TokenEndpoint | src/condor_credd/condor_credmon_oauth/credmon/CredentialMonitors/ClientCredmon.py:42-82 | the property's answer and new cache are Resolve's, and a discovery request is counted exactly when Resolve discovers |
| ClientCredmon.ClientCredmon.PrepareGrant | src/condor_credd/condor_credmon_oauth/credmon/CredentialMonitors/ClientCredmon.py:94-108 | token_info.scopes grows by DerivedScopes in place, and the payload is GrantPayload of the new scopes |
| ClientCredmon.ClientCredmon.JudgeGrant | src/condor_credd/condor_credmon_oauth/credmon/CredentialMonitors/ClientCredmon.py:116-135 | the sink is called exactly for a granted token, with its lifetime as given; a 200 answer looks nothing up; a non-200 answer looks the endpoint up once (`Resolve`), raises its error when that fails and otherwise returns False, leaving the cache and the discovery count that lookup leaves |
| ClientCredmon.ClientCredmon.RefreshAccessToken | src/condor_credd/condor_credmon_oauth/credmon/CredentialMonitors/ClientCredmon.py:85-135 | the endpoint is looked up for the log line, then for the POST (from the cache the first lookup left), then for a non-200 error line: a failing first lookup raises before anything is logged, a failing second one raises after logging and before posting; the grant goes to the second lookup's endpoint; the final cache and discovery count are what the lookups leave; the logged payload has no secret, the posted one has it, the retained one does not; the token is written exactly when posted and granted; a 200 answer returns the writer's result for a usable token and False otherwise, never raising; a static TOKEN_URL discovers nothing |
| ClientCredmon.NewClientCredmon | src/condor_credd/condor_credmon_oauth/credmon/CredentialMonitors/ClientCredmon.py:22-39 | a monitor exists exactly when the checks pass, with the stripped secret; otherwise the check's error |

## Left out

- The CEDAR socket protocol as a whole (`DoUpload`/`DoDownload`), daemonCore threads, the reaper, `set_priv`, plugin processes, directory walks and `stat`: these are I/O and concurrency. Their decisions (commands, crypto modes, byte limits, the per-file rule) are modelled as functions of their inputs.
- `ExpandFileTransferList`, `BuildFileCatalog`, `CommitFiles` and the stats-log rotation: file-system I/O.
- `GetDelegatedProxyRenewalTime`: floating point.
- The byte count of deferred multi-file transfers (`total_bytes += result` at src/condor_utils/file_transfer.cpp:4444 advances a pointer, not a counter): not claimed or modelled.
- Transfer.FileTransfer.ReadTransferPipeMsg: a short read of a fixed field is modelled as leaving that field unchanged. The source reads straight into `Info`, so a partly read field holds a mix of old and new bytes.
- Transfer.FileTransfer.ReadTransferPipeMsg: after a failed read, the bytes left in the pipe are not specified.
- Transfer.FileTransfer.ReadTransferPipeMsg: a negative string length, which the source would pass to `new char[]`, is modelled as a failed read.
- Transfer.FileTransfer.ReadTransferPipeMsg: the `EXCEPT` on an unknown command is modelled as the InvalidCommand result with no state change.
- Transfer.FileTransfer.ReadTransferPipeMsg: the client callback of an in-progress update is not modelled.
- TransferPipe.ReadFinal: a try_again byte other than 0 or 1 is read as true. C++ leaves that `bool` undefined.
- The errno text of the read-failure description is replaced by a fixed message.
- Transfer.FileTransfer.ComputeFilesToSend: the directory listing, the catalog and the proxy basename are parameters. `FilesToSend` aliases `IntermediateFiles` in the source and is modelled as a copy of it.
- Transfer.FileTransfer.ComputeFilesToSend: `SpooledIntermediateFiles` is held already split into names. StringList parsing is not part of this model.
- Transfer.FileTransfer.GetSupportedMethods: the plugin table's iteration order is given as a sequence.
- `file_contains` is an exact (Unix, case-sensitive) comparison.
- The FileTransfer constructor defaults beyond the fields modelled are not part of this model; the object is built from a given Info.
- `IsUrl` and `filename_split` are not part of this model's source. IsUrl is modelled as a non-empty run of ASCII letters before "://"; filename_split splits at the last '/'.
- The value 11 of `CONDOR_HOLD_CODE_InvalidTransferAck` comes from `condor_holdcodes.h`, which is not part of this model.
- S3Signing.SignUrls: `htcondor::generate_presigned_url` is a parameter.
- The ClassAd evaluation of the sign list is given as entries that are strings or not.
- OpenSSL in condor_crypt.cpp (contexts, `RAND_bytes`, HKDF, MD5) is left out as a foreign library. Key bytes are an input of RandomHexKey. A context is modelled by the cipher, key and IV it was initialised with.
- libcurl itself is left out: each attempt's curl result, bytes, response code, error text, file-open outcome and the header lines it hands to the header callback are inputs.
- ClientCredmon.Resolve: an exception raised by the discovery request itself (a connection error or timeout from `requests.get` at src/condor_credd/condor_credmon_oauth/credmon/CredentialMonitors/ClientCredmon.py:55) is not modelled; the request is taken to return a response.
- ClientCredmon.ClientCredmon.RefreshAccessToken: an exception raised by the token request itself (`requests.post` at src/condor_credd/condor_credmon_oauth/credmon/CredentialMonitors/ClientCredmon.py:113) is not modelled; the request is taken to return a response.
- ClientCredmon.ClientCredmon.constructor: the lifetime base is taken as an integer already parsed from TOKEN_ENDPOINT_LIFETIME (default "3600"); the ValueError `int()` raises for a malformed setting at src/condor_credd/condor_credmon_oauth/credmon/CredentialMonitors/ClientCredmon.py:26 is not modelled.
- SandboxPath.LegalPathInSandbox: `canonicalize_dir_delimiters`, which src/condor_utils/file_transfer.cpp:6083 applies to the path first, is not part of this model and is taken as the identity, so a '\\' is not turned into '/' before the components are examined.
- `sleep`, `getaddrinfo`, the floating-point connection times, the start and end times, and the HTTP 206 resume probe are left out: clocks, the network and floating point.
- `ClientCredmon.py`'s HTTP requests, logging and `LocalCredmon` base are not modelled. Responses, `time.time()` (an integer `now` per evaluation), `random.randint` (the jitter) and the result of `write_access_token` are inputs.
- The `token_endpoint` evaluations at ClientCredmon.py lines 110, 113 and 117 each take their own probe.
- MultiFilePlugin.StatsForUrl: when `strtok` finds no host (a URL such as `file:`), the source assigns a NULL pointer to a `std::string` at src/condor_filetransfer_plugins/multifile_curl_plugin.cpp:519. That is undefined behaviour, usually a crash. The model leaves the host field as it was.
- MultiFilePlugin.ApplyHeaderEvent: an `X-Cache:` or `Via:` header with nothing after it is the same NULL assignment, at src/condor_filetransfer_plugins/multifile_curl_plugin.cpp:559 and :568. The model leaves the field as it was.
- CurlPlugin.AssignToken: `ClassAd::Assign` is not part of this model, so what it does with a NULL `char*` is unknown here; the model takes it as no assignment and leaves the attribute as it was. The choice decides TransferHostName for a URL with no host part (src/condor_filetransfer_plugins/curl_plugin.cpp:426-428), HttpCacheHitOrMiss for a bare `X-Cache:` header (:469-470) and HttpCacheHost for `Via:` with only a version after it (:479-480). If the library stores UNDEFINED instead, the attribute is overwritten in those three cases.
- MultiFilePlugin.MultiFileCurlPlugin.HeaderCallback: the source never sets `CURLOPT_HEADERDATA`. Only `CURLOPT_HEADERFUNCTION` is set, at src/condor_filetransfer_plugins/multifile_curl_plugin.cpp:94. So the `userdata` the callback treats as a statistics record at :547 is not the plugin's record. The model's callback takes a record as a parameter and returns it updated. What writing through the actual pointer does is not modelled. An attempt's header lines therefore leave the file's statistics as they were.
- Integers are unbounded except in the pipe fields, where the C widths are written out.

## Findings

| source | as written | input that shows it | evidently intended | confidence | as-written member | corrected member |
|---|---|---|---|---|---|---|
| src/condor_filetransfer_plugins/multifile_curl_plugin.cpp:355-356 | the retry test is `ShouldRetryTransfer(retry_count)`, the attempt counter (1 after the first attempt), so no counter value 1..20 other than 7 and 18 is a transient code, and the loop ends after the first attempt | every attempt fails with CURLE_COULDNT_CONNECT (7): one attempt is made, no retry | `ShouldRetryTransfer(rval)`, as curl_plugin.cpp:81-88 does: transient results are retried up to MAX_RETRY_ATTEMPTS times | high; not executed | CurlCommon.ConnectFailuresRetriedOnlyByResultRule | CurlCommon.ResultRuleRetriesUntilSuccess |

The same test appears at multifile_curl_plugin.cpp:425-426 in the download
loop. The multi-file plugin's model keeps the rule as written
(`MultiFilePlugin.Rule`, with `MultiFilePlugin.OneAttemptPerFile` stating
its effect). The corrected rule is `CurlCommon.RetryOnResult`. It is the
rule the single-file plugin's loop follows (`CurlPlugin.LoopFollowsResultRule`).
