/** The rclone transport (transports/rclone.go). */
module Rclone {
  import opened Common
  import opened GoStrings
  import opened Configuration
  import opened Sys
  import opened Transports

  const RcloneCmd := "rclone"
  const FixedArgs := ["sync", "-v"]

  /** NewRcloneTransport: only the basic check applies, so both hosts may be
      set at once. */
  function New(c: Config, dryRun: bool): (r: Result<Transport, Error>)
    ensures r.Success? <==> c.sourceDir != "" && c.destDir != ""
    ensures r.Success? ==> r.value == Transport(c, dryRun)
    ensures r.Failure? ==> Some(r.error) == CheckConfig(c)
  {
    var err := CheckConfig(c);
    if err.Some? then Failure(err.value) else Success(Transport(c, dryRun))
  }

  /** The rclone command line, given the filter file's name when there is one. */
  function Argv(c: Config, filterFile: Option<string>): seq<string> {
    var filter := if filterFile.Some? then ["--filter-from=" + filterFile.value] else [];
    Binary(c.customBin, RcloneCmd) + FixedArgs + filter + c.extraArgs
    + [BuildSource(c, ":"), BuildDest(c, ":")]
  }

  /** Where each part of the rclone command line sits: the program, `sync
      -v`, the filter-file token when there is a filter file, the extra
      arguments verbatim, and last the source as built (no slash added) and
      the destination. */
  lemma ArgvShape(c: Config, filterFile: Option<string>)
    ensures var argv := Argv(c, filterFile);
            var bin := Binary(c.customBin, RcloneCmd);
            var f := |bin| + 2;
            var e := f + (if filterFile.Some? then 1 else 0);
            && |argv| == e + |c.extraArgs| + 2
            && argv[..|bin|] == bin
            && argv[|bin|..f] == FixedArgs
            && (filterFile.Some? ==> argv[f] == "--filter-from=" + filterFile.value)
            && argv[e..e + |c.extraArgs|] == c.extraArgs
            && argv[|argv| - 2] == BuildSource(c, ":")
            && argv[|argv| - 1] == BuildDest(c, ":")
  {
    var bin := Binary(c.customBin, RcloneCmd);
    var filter := if filterFile.Some? then ["--filter-from=" + filterFile.value] else [];
    var tail := [BuildSource(c, ":"), BuildDest(c, ":")];
    FiveSegments(bin, FixedArgs, filter, c.extraArgs, tail);
    assert Argv(c, filterFile) == bin + FixedArgs + filter + c.extraArgs + tail;
  }

  /** The appends that build the command line in RcloneTransport.Run. */
  method Command(c: Config, filterFile: Option<string>) returns (cmd: seq<string>)
    ensures cmd == Argv(c, filterFile)
  {
    cmd := [RcloneCmd];
    if c.customBin != "" {
      cmd := Split(c.customBin, ' ');
    }
    cmd := cmd + FixedArgs;
    if filterFile.Some? {
      cmd := cmd + ["--filter-from=" + filterFile.value];
    }
    cmd := cmd + c.extraArgs;
    cmd := cmd + [BuildSource(c, ":")];
    cmd := cmd + [BuildDest(c, ":")];
  }

  /** RcloneTransport.Run: write the filter file when there are patterns, run
      the command unless in dry-run mode and return its error unchanged, and
      remove the filter file on the way out. */
  method Run(t: Transport, sys: System) returns (err: Option<Error>)
    requires sys.Valid()
    modifies sys`trace, sys`files, sys`serial
    ensures sys.Valid()
    ensures sys.files == old(sys.files)
    ensures var created := NeedsFilter(t.config) && !sys.tempFails(old(sys.serial));
      sys.serial == old(sys.serial) + (if created then 1 else 0)
    ensures NeedsFilter(t.config) && sys.tempFails(old(sys.serial)) ==>
      err == Some(TempFileFailed("filter")) && sys.trace == old(sys.trace)
    ensures !(NeedsFilter(t.config) && sys.tempFails(old(sys.serial))) && t.dryRun ==>
      err.None? && sys.trace == old(sys.trace)
    ensures !(NeedsFilter(t.config) && sys.tempFails(old(sys.serial))) && !t.dryRun ==>
      var filter := if NeedsFilter(t.config) then Some(sys.tempName(old(sys.serial))) else None;
      && sys.trace == old(sys.trace) + [Cmd("RCLONE", Argv(t.config, filter))]
      && err == sys.ResultAt(|old(sys.trace)|)
  {
    var c := t.config;
    var filterFile: Option<nat> := None;
    var filterName: Option<string> := None;
    if |c.excludes| > 0 || |c.includes| > 0 {
      var r := CreateFilterFile(c.includes, c.excludes, sys);
      if r.Failure? {
        return Some(r.error);
      }
      filterFile := r.value;
      filterName := Some(sys.tempName(filterFile.value));
    }
    var cmd := Command(c, filterName);

    if !t.dryRun {
      err := sys.Exec("RCLONE", cmd);
    } else {
      err := None;
    }

    // deferred os.Remove of the filter file
    if filterFile.Some? {
      sys.RemoveFile(filterFile.value);
    }
  }
}
