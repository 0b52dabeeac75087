/** The custom transport (transports/custom.go): a user-given shell command. */
module Custom {
  import opened Common
  import opened Configuration
  import opened Sys
  import opened Transports

  /** NewCustomTransport: the only requirement is a custom command; the
      directories, hosts and patterns are not looked at. */
  function New(c: Config, dryRun: bool): (r: Result<Transport, Error>)
    ensures r.Success? <==> c.customCmd != ""
    ensures r.Success? ==> r.value == Transport(c, dryRun)
    ensures r.Failure? ==> r.error == CustomCmdEmpty
  {
    if c.customCmd == "" then Failure(CustomCmdEmpty) else Success(Transport(c, dryRun))
  }

  /** CustomTransport.Run: in dry-run mode nothing is run; otherwise the
      custom command is run once through the shell under the tag CUSTOM, and
      its error is returned as it is. No temporary file is made, since the
      include and exclude patterns are not used. */
  method Run(t: Transport, sys: System) returns (err: Option<Error>)
    modifies sys`trace
    ensures t.dryRun ==> err.None? && sys.trace == old(sys.trace)
    ensures !t.dryRun ==>
      && sys.trace == old(sys.trace) + [Cmd("CUSTOM", [sys.shell, "-c", "--", t.config.customCmd])]
      && err == sys.ResultAt(|old(sys.trace)|)
  {
    var cmd := sys.WithShell(t.config.customCmd);
    if t.dryRun {
      return None;
    }
    err := sys.Exec("CUSTOM", cmd);
  }
}
