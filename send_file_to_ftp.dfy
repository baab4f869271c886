/**
 * The argument checks of the file-to-FTP command-line tool: an ordered
 * chain of guards over host, port, authentication mode, the credentials the
 * mode needs, the file to upload and the target folder. The first guard that
 * fails decides the outcome; the process exit code is 0 on success and 1 on
 * failure.
 */
module SendFileToFtp {
  import opened Wrappers

  datatype Exception =
    | ArgumentException(message: string)
    | ArgumentOutOfRangeException
    /** Thrown by Convert.FromBase64String for text that is not base64. */
    | FormatException
    /** Any other exception, from the upload that follows the checks. */
    | OtherException(message: string)

  datatype FtpCredentials =
    | PasswordCredentials(user: string, password: string)
    | PrivateKeyCredentials(user: string, privateKey: seq<bv8>)

  /** The values of the AuthenticationMode enumeration. */
  const PasswordMode := 0
  const PrivateKeyMode := 1

  /** The command-line arguments; None stands for null. */
  datatype Arguments = Arguments(
    pathOfFileToSend: Option<string>,
    targetFolder: Option<string>,
    host: Option<string>,
    user: Option<string>,
    port: int,
    authentication: Option<string>,
    password: Option<string>,
    base64PrivateKey: Option<string>,
    privateKeyFilePath: Option<string>)

  /** What the library calls made during the checks answer. */
  datatype Library = Library(
    /** Whether `new UriBuilder(host).Uri` succeeds. */
    hostIsUri: string -> bool,
    /** Enum.TryParse on AuthenticationMode: the enumeration value, or None when parsing fails. */
    parseAuthentication: string -> Option<int>,
    /** Convert.FromBase64String: the bytes, or None when it throws. */
    fromBase64: string -> Option<seq<bv8>>,
    /** File.ReadAllBytesAsync: the bytes, or None when it throws. */
    readAllBytes: string -> Option<seq<bv8>>)

  /**
   * The outcome of the checks: rejected with an error, an exception that
   * escapes the checks uncaught, or validated with the credentials built
   * (None when private-key mode was given no key).
   */
  datatype Validation =
    | Rejected(error: Exception)
    | Escaped(error: Exception)
    | Validated(credentials: Option<FtpCredentials>)

  /** The outcome of the whole transfer; Thrown is an exception that escapes it. */
  datatype TransferOutcome =
    | Success(value: int)
    | Failure(error: Exception)
    | Thrown(error: Exception)

  const HostEmptyMessage := "Host may not be empty"
  const InvalidPortMessage := "Invalid port. Port has to be greater or equal to zero"
  const InvalidHostUriMessage := "Invalid host uri"
  const InvalidAuthenticationMessage := "Parameter authentication has invalid value. Valid values are: Password, PrivateKey"
  const NoPasswordMessage := "No password provided"
  const NoUserMessage := "User not provided"
  const KeyFileUnreadableMessage := "Failed to read private key file"
  const NoUploadPathMessage := "No upload file path specified"
  const NoTargetFolderMessage := "No target folder specified"
  const TargetFolderNotAbsoluteMessage := "Target folder has to be absolute path on ftp server"

  predicate IsNullOrEmpty(s: Option<string>)
  {
    s.None? || s.value == ""
  }

  /** The parsed authentication mode, or None when the text does not parse (null never does). */
  function Mode(a: Arguments, lib: Library): Option<int>
  {
    if a.authentication.Some? then lib.parseAuthentication(a.authentication.value) else None
  }

  /** The switch over the authentication mode: an error, or the credentials to use. */
  function Credentials(mode: int, a: Arguments, lib: Library): Validation
  {
    if mode == PasswordMode then
      if a.password.None? then Rejected(ArgumentException(NoPasswordMessage))
      else if a.user.None? then Rejected(ArgumentException(NoUserMessage))
      else Validated(Some(PasswordCredentials(a.user.value, a.password.value)))
    else if mode == PrivateKeyMode then
      if a.user.None? then Rejected(ArgumentException(NoUserMessage))
      else if a.base64PrivateKey.Some? then
        match lib.fromBase64(a.base64PrivateKey.value)
        case None => Escaped(FormatException)
        case Some(key) => Validated(Some(PrivateKeyCredentials(a.user.value, key)))
      else if a.privateKeyFilePath.Some? then
        match lib.readAllBytes(a.privateKeyFilePath.value)
        case None => Rejected(ArgumentException(KeyFileUnreadableMessage))
        case Some(key) => Validated(Some(PrivateKeyCredentials(a.user.value, key)))
      else Validated(None)
    else Rejected(ArgumentOutOfRangeException)
  }

  /**
   * The checks of ExecuteTransfer, in source order, up to the file upload.
   * An empty host is rejected before anything else; port 0 is rejected
   * although the message speaks of "greater or equal to zero". A validated
   * outcome means every check passed.
   */
  function ValidateTransfer(a: Arguments, lib: Library): (v: Validation)
    ensures IsNullOrEmpty(a.host) ==> v == Rejected(ArgumentException(HostEmptyMessage))
    ensures !IsNullOrEmpty(a.host) && a.port <= 0 ==> v == Rejected(ArgumentException(InvalidPortMessage))
    ensures v.Validated? ==>
      && !IsNullOrEmpty(a.host) && a.port > 0 && lib.hostIsUri(a.host.value)
      && Mode(a, lib) in {Some(PasswordMode), Some(PrivateKeyMode)}
      && !IsNullOrEmpty(a.pathOfFileToSend)
      && !IsNullOrEmpty(a.targetFolder) && "/" <= a.targetFolder.value
  {
    if IsNullOrEmpty(a.host) then Rejected(ArgumentException(HostEmptyMessage))
    else if a.port <= 0 then Rejected(ArgumentException(InvalidPortMessage))
    else if !lib.hostIsUri(a.host.value) then Rejected(ArgumentException(InvalidHostUriMessage))
    else if Mode(a, lib).None? then Rejected(ArgumentException(InvalidAuthenticationMessage))
    else
      var credentials := Credentials(Mode(a, lib).value, a, lib);
      if !credentials.Validated? then credentials
      else if IsNullOrEmpty(a.pathOfFileToSend) then Rejected(ArgumentException(NoUploadPathMessage))
      else if IsNullOrEmpty(a.targetFolder) then Rejected(ArgumentException(NoTargetFolderMessage))
      else if !("/" <= a.targetFolder.value) then Rejected(ArgumentException(TargetFolderNotAbsoluteMessage))
      else credentials
  }

  // ---------------------------------------------------------------------
  // The guard chain as a list of all failing checks
  // ---------------------------------------------------------------------

  /** The verdict of one check, when it fails. */
  function Fire(fails: bool, verdict: Validation): seq<Validation>
  {
    if fails then [verdict] else []
  }

  /**
   * The verdicts of every check that fails, in source order, as if errors
   * were collected instead of returned at once. A mode-specific check only
   * fails in its own mode.
   */
  function FailingChecks(a: Arguments, lib: Library): seq<Validation>
  {
    var mode := Mode(a, lib);
    var password := mode == Some(PasswordMode);
    var privateKey := mode == Some(PrivateKeyMode);
    Fire(IsNullOrEmpty(a.host), Rejected(ArgumentException(HostEmptyMessage)))
    + Fire(a.port <= 0, Rejected(ArgumentException(InvalidPortMessage)))
    + Fire(a.host.Some? && !lib.hostIsUri(a.host.value), Rejected(ArgumentException(InvalidHostUriMessage)))
    + Fire(mode.None?, Rejected(ArgumentException(InvalidAuthenticationMessage)))
    + Fire(password && a.password.None?, Rejected(ArgumentException(NoPasswordMessage)))
    + Fire(password && a.user.None?, Rejected(ArgumentException(NoUserMessage)))
    + Fire(privateKey && a.user.None?, Rejected(ArgumentException(NoUserMessage)))
    + Fire(privateKey && a.base64PrivateKey.Some? && lib.fromBase64(a.base64PrivateKey.value).None?,
           Escaped(FormatException))
    + Fire(privateKey && a.base64PrivateKey.None? && a.privateKeyFilePath.Some?
           && lib.readAllBytes(a.privateKeyFilePath.value).None?,
           Rejected(ArgumentException(KeyFileUnreadableMessage)))
    + Fire(mode.Some? && !password && !privateKey, Rejected(ArgumentOutOfRangeException))
    + Fire(IsNullOrEmpty(a.pathOfFileToSend), Rejected(ArgumentException(NoUploadPathMessage)))
    + Fire(IsNullOrEmpty(a.targetFolder), Rejected(ArgumentException(NoTargetFolderMessage)))
    + Fire(a.targetFolder.Some? && !("/" <= a.targetFolder.value),
           Rejected(ArgumentException(TargetFolderNotAbsoluteMessage)))
  }

  /**
   * First failure wins: the checks pass exactly when no check fails, and
   * otherwise the outcome is the verdict of the first failing check; later
   * failures are not reported.
   */
  lemma FirstFailureWins(a: Arguments, lib: Library)
    ensures ValidateTransfer(a, lib).Validated? <==> FailingChecks(a, lib) == []
    ensures !ValidateTransfer(a, lib).Validated? ==> ValidateTransfer(a, lib) == FailingChecks(a, lib)[0]
  {
  }

  /**
   * The credentials a successful validation carries: the password pair in
   * password mode; in private-key mode the decoded base64 key if one was
   * given, else the bytes of the key file if a path was given, else none.
   */
  lemma CredentialsChosen(a: Arguments, lib: Library)
    requires ValidateTransfer(a, lib).Validated?
    ensures var c := ValidateTransfer(a, lib).credentials;
      && (Mode(a, lib) == Some(PasswordMode) ==> c == Some(PasswordCredentials(a.user.value, a.password.value)))
      && (Mode(a, lib) == Some(PrivateKeyMode) && a.base64PrivateKey.Some? ==>
            c == Some(PrivateKeyCredentials(a.user.value, lib.fromBase64(a.base64PrivateKey.value).value)))
      && (Mode(a, lib) == Some(PrivateKeyMode) && a.base64PrivateKey.None? && a.privateKeyFilePath.Some? ==>
            c == Some(PrivateKeyCredentials(a.user.value, lib.readAllBytes(a.privateKeyFilePath.value).value)))
      && (Mode(a, lib) == Some(PrivateKeyMode) && a.base64PrivateKey.None? && a.privateKeyFilePath.None? ==>
            c == None)
  {
  }

  // ---------------------------------------------------------------------
  // The transfer and the exit code
  // ---------------------------------------------------------------------

  /**
   * ExecuteTransfer: the checks, then the upload (`upload`, which stands for
   * reading the file, connecting and uploading) only when every check passed.
   */
  function ExecuteTransfer(a: Arguments, lib: Library, upload: Option<FtpCredentials> -> TransferOutcome): (t: TransferOutcome)
    ensures ValidateTransfer(a, lib).Rejected? ==> t == Failure(ValidateTransfer(a, lib).error)
    ensures ValidateTransfer(a, lib).Escaped? ==> t == Thrown(ValidateTransfer(a, lib).error)
    ensures ValidateTransfer(a, lib).Validated? ==> t == upload(ValidateTransfer(a, lib).credentials)
  {
    match ValidateTransfer(a, lib)
    case Rejected(e) => Failure(e)
    case Escaped(e) => Thrown(e)
    case Validated(credentials) => upload(credentials)
  }

  /**
   * Main's exit code: 0 exactly for a successful transfer, 1 exactly for a
   * failed one, and none when an exception escapes (the process dies).
   */
  function ExitCode(t: TransferOutcome): (code: Option<int>)
    ensures code == Some(0) <==> t.Success?
    ensures code == Some(1) <==> t.Failure?
    ensures code.None? <==> t.Thrown?
  {
    match t
    case Success(_) => Some(0)
    case Failure(_) => Some(1)
    case Thrown(_) => None
  }

  /** Invalid arguments end the process with exit code 1, whatever the upload would have done. */
  lemma RejectedArgumentsExitWithOne(a: Arguments, lib: Library, upload: Option<FtpCredentials> -> TransferOutcome)
    requires FailingChecks(a, lib) != [] && FailingChecks(a, lib)[0].Rejected?
    ensures ExitCode(ExecuteTransfer(a, lib, upload)) == Some(1)
  {
    FirstFailureWins(a, lib);
  }
}
