/** The rsync transport (transports/rsync.go). */
module Rsync {
  import opened Common
  import opened GoStrings
  import opened Configuration
  import opened Sys
  import opened Transports

  const RsyncCmd := "rsync"
  const FixedFlags := ["-avAXH", "--delete", "--numeric-ids"]

  /** NewRsyncTransport: source and destination directories must be set, and
      at most one of the two hosts; the checks are made in that order. */
  function New(c: Config, dryRun: bool): (r: Result<Transport, Error>)
    ensures r.Success? <==> c.sourceDir != "" && c.destDir != "" && (c.sourceHost == "" || c.destHost == "")
    ensures r.Success? ==> r.value == Transport(c, dryRun)
    ensures c.sourceDir == "" ==> r == Failure(SourceDirEmpty)
    ensures c.sourceDir != "" && c.destDir == "" ==> r == Failure(DestDirEmpty)
    ensures c.sourceDir != "" && c.destDir != "" && c.sourceHost != "" && c.destHost != "" ==>
      r == Failure(BothHostsSet)
  {
    if c.sourceDir == "" then Failure(SourceDirEmpty)
    else if c.destDir == "" then Failure(DestDirEmpty)
    else if c.sourceHost != "" && c.destHost != "" then Failure(BothHostsSet)
    else Success(Transport(c, dryRun))
  }

  /** The source with a trailing slash, so that rsync copies the directory's
      contents rather than the directory itself. */
  function Slashed(src: string): (s: string)
    ensures HasSuffix(s, "/")
    ensures HasPrefix(s, src)
    ensures HasSuffix(src, "/") ==> s == src
    ensures |s| <= |src| + 1
  {
    if HasSuffix(src, "/") then src else src + "/"
  }

  /** Adding the slash a second time changes nothing. */
  lemma SlashedIdempotent(src: string)
    ensures Slashed(Slashed(src)) == Slashed(src)
  {
  }

  /** The rsync command line, given the filter file's name when there is one. */
  function Argv(c: Config, filterFile: Option<string>): seq<string> {
    var filter := if filterFile.Some? then ["--filter=merge " + filterFile.value] else [];
    var deleteExcluded := if c.excludes != [] then ["--delete-excluded"] else [];
    Binary(c.customBin, RsyncCmd) + FixedFlags + filter + deleteExcluded + c.extraArgs
    + [Slashed(BuildSource(c, ":")), BuildDest(c, ":")]
  }

  /** Where each part of the rsync command line sits: the program, the fixed
      flags, the filter-file token when there is a filter file, then
      --delete-excluded when there are excludes, the extra arguments
      verbatim, and last the slashed source and the destination. */
  lemma ArgvShape(c: Config, filterFile: Option<string>)
    ensures var argv := Argv(c, filterFile);
            var bin := Binary(c.customBin, RsyncCmd);
            var f := |bin| + 3;
            var d := f + (if filterFile.Some? then 1 else 0);
            var e := d + (if c.excludes != [] then 1 else 0);
            && |argv| == e + |c.extraArgs| + 2
            && argv[..|bin|] == bin
            && argv[|bin|..f] == FixedFlags
            && (filterFile.Some? ==> argv[f] == "--filter=merge " + filterFile.value)
            && (c.excludes != [] ==> argv[d] == "--delete-excluded")
            && argv[e..e + |c.extraArgs|] == c.extraArgs
            && argv[|argv| - 2] == Slashed(BuildSource(c, ":"))
            && argv[|argv| - 1] == BuildDest(c, ":")
  {
    var bin := Binary(c.customBin, RsyncCmd);
    var filter := if filterFile.Some? then ["--filter=merge " + filterFile.value] else [];
    var deleteExcluded := if c.excludes != [] then ["--delete-excluded"] else [];
    var tail := [Slashed(BuildSource(c, ":")), BuildDest(c, ":")];
    Segments(bin, FixedFlags, filter, deleteExcluded, c.extraArgs, tail);
    assert Argv(c, filterFile) == bin + FixedFlags + filter + deleteExcluded + c.extraArgs + tail;
  }

  /** Exit status 24 ("some files vanished") counts as success; any other
      error is kept as it is. */
  function Promote24(err: Option<Error>): (r: Option<Error>)
    ensures r.None? <==> err.None? || ExitCode(err) == 24
    ensures r.Some? ==> r == err
  {
    if err.Some? && ExitCode(err) == 24 then None else err
  }

  /** The appends that build the command line in RsyncTransport.Run. */
  method Command(c: Config, filterFile: Option<string>) returns (cmd: seq<string>)
    ensures cmd == Argv(c, filterFile)
  {
    cmd := [RsyncCmd];
    if c.customBin != "" {
      cmd := Split(c.customBin, ' ');
    }
    cmd := cmd + FixedFlags;
    if filterFile.Some? {
      cmd := cmd + ["--filter=merge " + filterFile.value];
    }
    if |c.excludes| > 0 {
      cmd := cmd + ["--delete-excluded"];
    }
    cmd := cmd + c.extraArgs;

    var src := BuildSource(c, ":");
    if !HasSuffix(src, "/") {
      src := src + "/";
    }
    cmd := cmd + [src];
    cmd := cmd + [BuildDest(c, ":")];
  }

  /** What RsyncTransport.Run does once the filter file is in place: build
      the command line and, unless in dry-run mode, run it, treating exit
      status 24 as success. */
  method Perform(t: Transport, filterName: Option<string>, sys: System) returns (err: Option<Error>)
    modifies sys`trace
    ensures t.dryRun ==> err.None? && sys.trace == old(sys.trace)
    ensures !t.dryRun ==>
      && sys.trace == old(sys.trace) + [Cmd("RSYNC", Argv(t.config, filterName))]
      && err == Promote24(sys.ResultAt(|old(sys.trace)|))
  {
    var cmd := Command(t.config, filterName);
    if t.dryRun {
      err := None;
    } else {
      err := sys.Exec("RSYNC", cmd);
      if err.Some? {
        var rc := ExitCode(err);
        if rc == 24 {
          err := None;
        }
      }
    }
  }

  /** RsyncTransport.Run: write the filter file when there are patterns, build
      the command line, run it unless in dry-run mode, and remove the filter
      file on the way out. */
  method Run(t: Transport, sys: System) returns (err: Option<Error>)
    requires sys.Valid()
    modifies sys`trace, sys`files, sys`serial
    ensures sys.Valid()
    ensures sys.files == old(sys.files)
    ensures var created := NeedsFilter(t.config) && !sys.tempFails(old(sys.serial));
      sys.serial == old(sys.serial) + (if created then 1 else 0)
    ensures NeedsFilter(t.config) && sys.tempFails(old(sys.serial)) ==>
      err == Some(TempFileFailed("filter")) && sys.trace == old(sys.trace)
    ensures !(NeedsFilter(t.config) && sys.tempFails(old(sys.serial))) && t.dryRun ==>
      err.None? && sys.trace == old(sys.trace)
    ensures !(NeedsFilter(t.config) && sys.tempFails(old(sys.serial))) && !t.dryRun ==>
      var filter := if NeedsFilter(t.config) then Some(sys.tempName(old(sys.serial))) else None;
      && sys.trace == old(sys.trace) + [Cmd("RSYNC", Argv(t.config, filter))]
      && err == Promote24(sys.ResultAt(|old(sys.trace)|))
  {
    var c := t.config;
    var filterFile: Option<nat> := None;
    var filterName: Option<string> := None;
    if |c.includes| > 0 || |c.excludes| > 0 {
      var r := CreateFilterFile(c.includes, c.excludes, sys);
      if r.Failure? {
        return Some(r.error);
      }
      filterFile := r.value;
      filterName := Some(sys.tempName(filterFile.value));
    }

    err := Perform(t, filterName, sys);

    // deferred os.Remove of the filter file
    if filterFile.Some? {
      sys.RemoveFile(filterFile.value);
    }
  }
}
