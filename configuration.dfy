/** The backup configuration record and the validation that ParseConfig
    applies once the TOML decoder has filled the record in. */
module Configuration {
  import opened GoStrings
  import opened Common

  const DefaultLogDir := "/var/log/netbackup"

  /** One backup job. `customCmd` is read by the custom transport; the record
      as declared in config/config.go lacks it, so it is added here. */
  datatype Config = Config(
    name: string,
    sourceHost: string,
    destHost: string,
    destDev: string,
    sourceDir: string,
    destDir: string,
    expireDays: int,
    extraArgs: seq<string>,
    fsCleanup: bool,
    preCommand: string,
    sourceIsMountPoint: bool,
    postCommand: string,
    failCommand: string,
    transport: string,
    excludes: seq<string>,
    includes: seq<string>,
    logDir: string,
    logFile: string,
    customBin: string,
    promTextFile: string,
    luksDestDev: string,
    luksKeyFile: string,
    customCmd: string)

  /** The record the decoder produces from an empty file. */
  const Blank := Config("", "", "", "", "", "", 0, [], false, "", false, "", "", "",
                        [], [], "", "", "", "", "", "", "")

  /** The validation failures, one per case of the switch in ParseConfig. */
  datatype ConfigError =
    | EmptyName
    | EmptySourceDir
    | EmptyTransport
    | BothLogDirAndFile
    | NoDestination
    | MultipleDestinations
    | DeviceWithDestHost
    | CleanupWithoutDevice
    | MountPointWithSourceHost
    | RelativeSourceDir
    | RelativeDestDir
    | RelativeDestDev
    | RelativeLuksDestDev
    | LuksWithoutKeyFile

  /** Position of each check in the switch: the earliest failing one wins. */
  function Rank(e: ConfigError): nat {
    match e
    case EmptyName => 0
    case EmptySourceDir => 1
    case EmptyTransport => 2
    case BothLogDirAndFile => 3
    case NoDestination => 4
    case MultipleDestinations => 5
    case DeviceWithDestHost => 6
    case CleanupWithoutDevice => 7
    case MountPointWithSourceHost => 8
    case RelativeSourceDir => 9
    case RelativeDestDir => 10
    case RelativeDestDev => 11
    case RelativeLuksDestDev => 12
    case LuksWithoutKeyFile => 13
  }

  predicate IsDevice(c: Config) {
    c.destDev != "" || c.luksDestDev != ""
  }

  /** Whether the condition behind error `e` holds of `c`, stated on its own,
      without regard to the checks before it. */
  predicate Fails(c: Config, e: ConfigError) {
    match e
    case EmptyName => c.name == ""
    case EmptySourceDir => c.sourceDir == ""
    case EmptyTransport => c.transport == ""
    case BothLogDirAndFile => c.logFile != "" && c.logDir != ""
    case NoDestination => c.destDir == "" && c.destDev == "" && c.luksDestDev == ""
    case MultipleDestinations =>
      (c.destDir != "" && c.destDev != "") || (c.destDir != "" && c.luksDestDev != "")
      || (c.destDev != "" && c.luksDestDev != "")
    case DeviceWithDestHost => IsDevice(c) && c.destHost != ""
    case CleanupWithoutDevice => !IsDevice(c) && c.fsCleanup
    case MountPointWithSourceHost => c.sourceHost != "" && c.sourceIsMountPoint
    case RelativeSourceDir => c.sourceHost == "" && !HasPrefix(c.sourceDir, "/")
    case RelativeDestDir => c.destHost == "" && c.destDir != "" && !HasPrefix(c.destDir, "/")
    case RelativeDestDev => c.destDev != "" && !HasPrefix(c.destDev, "/")
    case RelativeLuksDestDev => c.luksDestDev != "" && !HasPrefix(c.luksDestDev, "/")
    case LuksWithoutKeyFile => c.luksDestDev != "" && c.luksKeyFile == ""
  }

  /** The record differs from `c` at most in its log directory. */
  predicate SameButLogDir(c: Config, d: Config) {
    d.(logDir := c.logDir) == c
  }

  /** What an accepted configuration looks like, stated directly. */
  predicate WellFormed(c: Config) {
    && c.name != "" && c.sourceDir != "" && c.transport != ""
    // exactly one of the log directory and the log file
    && (c.logDir == "") != (c.logFile == "")
    // exactly one destination
    && ((c.destDir != "" && c.destDev == "" && c.luksDestDev == "")
        || (c.destDir == "" && c.destDev != "" && c.luksDestDev == "")
        || (c.destDir == "" && c.destDev == "" && c.luksDestDev != ""))
    // devices are local, and only devices are cleaned
    && (IsDevice(c) ==> c.destHost == "")
    && (c.fsCleanup ==> IsDevice(c))
    && (c.sourceIsMountPoint ==> c.sourceHost == "")
    // absolute local paths
    && (c.sourceHost == "" ==> HasPrefix(c.sourceDir, "/"))
    && (c.destHost == "" && c.destDir != "" ==> HasPrefix(c.destDir, "/"))
    && (c.destDev != "" ==> HasPrefix(c.destDev, "/"))
    && (c.luksDestDev != "" ==> HasPrefix(c.luksDestDev, "/") && c.luksKeyFile != "")
  }

  /** The validation and defaulting ParseConfig performs after decoding: the
      log directory defaults when neither it nor the log file is set, the
      destinations are counted, and the first failing check is reported. */
  method ParseConfig(decoded: Config) returns (r: Result<Config, ConfigError>)
    ensures r.Failure? ==> Fails(decoded, r.error)
    ensures r.Failure? ==> forall e :: Rank(e) < Rank(r.error) ==> !Fails(decoded, e)
    ensures r.Success? ==> forall e :: !Fails(decoded, e)
    ensures r.Success? ==> SameButLogDir(decoded, r.value) && WellFormed(r.value)
    ensures r.Success? ==>
      r.value.logDir == if decoded.logDir == "" && decoded.logFile == "" then DefaultLogDir else decoded.logDir
  {
    var config := decoded;
    if config.logFile == "" && config.logDir == "" {
      config := config.(logDir := DefaultLogDir);
    }

    var ndest := 0;
    var ndev := 0;
    if config.destDir != "" {
      ndest := ndest + 1;
    }
    if config.destDev != "" {
      ndev := ndev + 1;
    }
    if config.luksDestDev != "" {
      ndev := ndev + 1;
    }

    if config.name == "" {
      return Failure(EmptyName);
    } else if config.sourceDir == "" {
      return Failure(EmptySourceDir);
    } else if config.transport == "" {
      return Failure(EmptyTransport);
    } else if config.logFile != "" && config.logDir != "" {
      return Failure(BothLogDirAndFile);
    } else if ndest + ndev == 0 {
      return Failure(NoDestination);
    } else if ndest + ndev != 1 {
      return Failure(MultipleDestinations);
    } else if ndev != 0 && config.destHost != "" {
      return Failure(DeviceWithDestHost);
    } else if ndev == 0 && config.fsCleanup {
      return Failure(CleanupWithoutDevice);
    } else if config.sourceHost != "" && config.sourceIsMountPoint {
      return Failure(MountPointWithSourceHost);
    } else if config.sourceHost == "" && !HasPrefix(config.sourceDir, "/") {
      return Failure(RelativeSourceDir);
    } else if config.destHost == "" && config.destDir != "" && !HasPrefix(config.destDir, "/") {
      return Failure(RelativeDestDir);
    } else if config.destDev != "" && !HasPrefix(config.destDev, "/") {
      return Failure(RelativeDestDev);
    } else if config.luksDestDev != "" && !HasPrefix(config.luksDestDev, "/") {
      return Failure(RelativeLuksDestDev);
    } else if config.luksDestDev != "" && config.luksKeyFile == "" {
      return Failure(LuksWithoutKeyFile);
    }
    return Success(config);
  }
}
