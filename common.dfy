/** Values shared by every part of the model: optional values, results, and
    the errors netbackup reports. */
module Common {

  datatype Option<+T> = None | Some(value: T)

  datatype Result<+T, +E> = Success(value: T) | Failure(error: E)

  /** The error values the program returns. Go builds them with fmt.Errorf;
      here each kind is a constructor, and a wrapped cause is kept as a field. */
  datatype Error =
      // An external command failed; `status` is what execute.ExitCode recovers
      // from the failure (the exit status, or 255 when there is none).
    | CommandFailed(status: nat)
      // writeList could not create its temporary file.
    | TempFileFailed(prefix: string)
      // mountDev could not create its temporary mount point.
    | TempDirFailed
      // Transport constructors (checkConfig).
    | SourceDirEmpty
    | DestDirEmpty
    | BothHostsSet
    | IncludeUnsupported
    | SourceHostUnsupported
    | CustomCmdEmpty
      // The generic Transport.Run, which must be overridden.
    | GenericRun
      // Orchestrator errors (backup.go).
    | MountCheckFailed
    | SourceNotMounted(dir: string)
    | MapperExists(path: string)
    | LuksOpenFailed(dev: string, cause: Error)
    | FsckFailed(argv: seq<string>, cause: Error)
    | CleanupFailed(dev: string, cause: Error)
    | MountFailed(dev: string, cause: Error)
    | UnknownTransport(name: string)
    | TransportSetupFailed(name: string, cause: Error)
    | PreCommandFailed(cause: Error)
    | PostCommandFailed(cause: Error)

  /** execute.ExitCode: 0 for success, the exit status of a failed command,
      and 255 for any other error. */
  function ExitCode(err: Option<Error>): nat {
    match err
    case None => 0
    case Some(CommandFailed(status)) => status
    case Some(_) => 255
  }
}
