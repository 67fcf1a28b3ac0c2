/** The command DoUpload announces for each file, and the encryption mode
    both ends put the socket in for that file. */
module UploadCommand {
  import opened PeerVersion

  datatype TransferCommand =
    | XferFile | EnableEncryption | DisableEncryption | XferX509 | DownloadUrl | Mkdir | Other

  datatype TransferSubCommand = Unknown | UploadUrl

  /** A directory that cannot be sent: a symlink to a directory, or any
      directory when the peer is too old to create one. */
  datatype DirectoryProblem = NoProblem | SymlinkToDirectory | MkdirNotSupported

  /** What DoUpload knows about one file. The two wildcard-list lookups
      (DontEncryptFiles, EncryptFiles) and the comparison with the job's
      proxy file are given as their answers. */
  datatype UploadFile = UploadFile(
    inDontEncryptFiles: bool,
    inEncryptFiles: bool,
    isUserProxy: bool,
    isSrcUrl: bool,
    isDestUrl: bool,
    isDirectory: bool,
    isSymlink: bool)

  datatype Selection = Selection(command: TransferCommand, subcommand: TransferSubCommand,
                                 problem: DirectoryProblem)

  /** The command selection of DoUpload, one rule after another. */
  function SelectUploadCommand(f: UploadFile, delegateX509: bool, peerUnderstandsMkdir: bool): (s: Selection)
    ensures s.subcommand == UploadUrl <==> f.isDestUrl
    ensures s.problem == SymlinkToDirectory <==> f.isDirectory && f.isSymlink
    ensures s.problem == MkdirNotSupported <==> f.isDirectory && !f.isSymlink && !peerUnderstandsMkdir
  {
    var c0 := XferFile;
    var c1 := if f.inDontEncryptFiles then DisableEncryption else c0;
    var c2 := if f.inEncryptFiles then EnableEncryption else c1;
    var c3 := if f.isUserProxy && delegateX509 then XferX509 else c2;
    var c4 := if f.isSrcUrl then DownloadUrl else c3;
    var c5 := if f.isDestUrl then Other else c4;
    var sub := if f.isDestUrl then UploadUrl else Unknown;
    if f.isDirectory && f.isSymlink then Selection(c5, sub, SymlinkToDirectory)
    else if f.isDirectory && peerUnderstandsMkdir then Selection(Mkdir, sub, NoProblem)
    else if f.isDirectory then Selection(c5, sub, MkdirNotSupported)
    else Selection(c5, sub, NoProblem)
  }

  /** A rule of the selection: when it applies, it overrides the
      command chosen so far. */
  datatype Rule = Rule(applies: bool, command: TransferCommand)

  /** The command of the last rule that applies, or the default. */
  function LastApplicable(rules: seq<Rule>, default: TransferCommand): TransferCommand
    decreases |rules|
  {
    if rules == [] then default
    else if rules[|rules| - 1].applies then rules[|rules| - 1].command
    else LastApplicable(rules[..|rules| - 1], default)
  }

  /** The rules in the order DoUpload applies them. */
  function UploadRules(f: UploadFile, delegateX509: bool, peerUnderstandsMkdir: bool): seq<Rule>
  {
    [ Rule(f.inDontEncryptFiles, DisableEncryption),
      Rule(f.inEncryptFiles, EnableEncryption),
      Rule(f.isUserProxy && delegateX509, XferX509),
      Rule(f.isSrcUrl, DownloadUrl),
      Rule(f.isDestUrl, Other),
      Rule(f.isDirectory && !f.isSymlink && peerUnderstandsMkdir, Mkdir) ]
  }

  /** The selection is the last applicable rule, the default being
      XferFile: later rules override earlier ones. */
  lemma SelectionIsLastApplicableRule(f: UploadFile, delegateX509: bool, peerUnderstandsMkdir: bool)
    ensures SelectUploadCommand(f, delegateX509, peerUnderstandsMkdir).command
            == LastApplicable(UploadRules(f, delegateX509, peerUnderstandsMkdir), XferFile)
  {
    var rules := UploadRules(f, delegateX509, peerUnderstandsMkdir);
    var c1 := LastApplicable(rules[..1], XferFile);
    var c2 := LastApplicable(rules[..2], XferFile);
    var c3 := LastApplicable(rules[..3], XferFile);
    var c4 := LastApplicable(rules[..4], XferFile);
    var c5 := LastApplicable(rules[..5], XferFile);
    assert rules[..1][..0] == [] && rules[..1][0] == rules[0];
    assert |rules| == 6 && rules[0] == Rule(f.inDontEncryptFiles, DisableEncryption);
    assert LastApplicable(rules[..1][..0], XferFile) == XferFile;
    assert c1 == (if f.inDontEncryptFiles then DisableEncryption else XferFile);
    assert rules[..2][..1] == rules[..1] && rules[..2][1] == rules[1];
    assert c2 == (if f.inEncryptFiles then EnableEncryption else c1);
    assert rules[..3][..2] == rules[..2] && rules[..3][2] == rules[2];
    assert c3 == (if f.isUserProxy && delegateX509 then XferX509 else c2);
    assert rules[..4][..3] == rules[..3] && rules[..4][3] == rules[3];
    assert c4 == (if f.isSrcUrl then DownloadUrl else c3);
    assert rules[..5][..4] == rules[..4] && rules[..5][4] == rules[4];
    assert c5 == (if f.isDestUrl then Other else c4);
    assert rules[..6][..5] == rules[..5] && rules[..6][5] == rules[5];
    assert rules[..6] == rules;
  }

  /** Encryption is asked for by the file lists only for plain files:
      a URL or a directory overrides the list. */
  lemma UrlsAndDirectoriesOverrideEncryptionLists(f: UploadFile, delegateX509: bool, peerUnderstandsMkdir: bool)
    ensures var c := SelectUploadCommand(f, delegateX509, peerUnderstandsMkdir).command;
      (c == EnableEncryption <==> f.inEncryptFiles && !(f.isUserProxy && delegateX509)
                                  && !f.isSrcUrl && !f.isDestUrl
                                  && !(f.isDirectory && !f.isSymlink && peerUnderstandsMkdir))
  {
  }

  /** What set_crypto_mode leaves the transfer doing: go on with the
      socket's encryption switched on or off, or give up the transfer
      because the socket refused to switch. */
  datatype CryptoOutcome = Encrypt(on: bool) | Abort

  /** DoUpload, after announcing the command: encryption on for
      EnableEncryption and, when the peer does S3 URLs, for DownloadUrl
      (the URL may carry a credential); off for DisableEncryption, where
      a refusal is ignored; otherwise the socket's default. */
  function SenderCryptoMode(c: TransferCommand, peerDoesS3Urls: bool, socketDefault: bool,
                            socketAccepts: bool): (r: CryptoOutcome)
    ensures r.Abort? ==> !socketAccepts && c != DisableEncryption
  {
    if c == EnableEncryption || (peerDoesS3Urls && c == DownloadUrl) then
      (if socketAccepts then Encrypt(true) else Abort)
    else if c == DisableEncryption then Encrypt(false)
    else if socketAccepts then Encrypt(socketDefault) else Abort
  }

  /** DoDownload, after reading the command the sender announced. */
  function ReceiverCryptoMode(c: TransferCommand, peerDoesS3Urls: bool, socketDefault: bool,
                              socketAccepts: bool): (r: CryptoOutcome)
    ensures r.Abort? ==> !socketAccepts && c != DisableEncryption
  {
    if c == EnableEncryption || (peerDoesS3Urls && c == DownloadUrl) then
      (if socketAccepts then Encrypt(true) else Abort)
    else if c == DisableEncryption then
      Encrypt(false)
    else
      (if socketAccepts then Encrypt(socketDefault) else Abort)
  }

  /** Both ends of the socket pick the same mode for every command, so
      the bytes of the file are read as they were written, provided they
      hold the same peerDoesS3Urls (see CryptoModesAcrossVersions). */
  lemma SenderAndReceiverAgree(c: TransferCommand, peerDoesS3Urls: bool, socketDefault: bool,
                               socketAccepts: bool)
    ensures SenderCryptoMode(c, peerDoesS3Urls, socketDefault, socketAccepts)
            == ReceiverCryptoMode(c, peerDoesS3Urls, socketDefault, socketAccepts)
    ensures socketAccepts ==>
              SenderCryptoMode(c, peerDoesS3Urls, socketDefault, socketAccepts)
                == Encrypt(if c == EnableEncryption || (peerDoesS3Urls && c == DownloadUrl) then true
                           else if c == DisableEncryption then false
                           else socketDefault)
  {
  }

  /** Taken together: the file-list decision reaches the socket unless a
      later rule replaced the command. */
  lemma EncryptListedFileIsEncrypted(f: UploadFile, delegateX509: bool, peerUnderstandsMkdir: bool,
                                     peerDoesS3Urls: bool, socketDefault: bool)
    requires f.inEncryptFiles && !f.isUserProxy && !f.isSrcUrl && !f.isDestUrl && !f.isDirectory
    ensures var c := SelectUploadCommand(f, delegateX509, peerUnderstandsMkdir).command;
      SenderCryptoMode(c, peerDoesS3Urls, socketDefault, true) == Encrypt(true)
      && ReceiverCryptoMode(c, peerDoesS3Urls, socketDefault, true) == Encrypt(true)
  {
  }

  /** Each end sets peerDoesS3Urls from the other end's version, so the
      two ends agree on every command when both or neither are 8.9.4 or
      later; when exactly one is, a DownloadUrl on a socket whose default
      is off is encrypted by one end and not by the other. */
  lemma CryptoModesAcrossVersions(c: TransferCommand, senderVersion: Version, receiverVersion: Version,
                                  senderConfig: bool, receiverConfig: bool,
                                  socketDefault: bool, socketAccepts: bool)
    ensures var sender := SenderCryptoMode(c, FeaturesFor(receiverVersion, senderConfig).peerDoesS3Urls,
                                           socketDefault, socketAccepts);
            var receiver := ReceiverCryptoMode(c, FeaturesFor(senderVersion, receiverConfig).peerDoesS3Urls,
                                               socketDefault, socketAccepts);
            && (BuiltSince(senderVersion, 8, 9, 4) == BuiltSince(receiverVersion, 8, 9, 4) ==> sender == receiver)
            && ((BuiltSince(senderVersion, 8, 9, 4) != BuiltSince(receiverVersion, 8, 9, 4)
                 && c == DownloadUrl && socketAccepts && !socketDefault) ==> sender != receiver)
  {
  }
}
