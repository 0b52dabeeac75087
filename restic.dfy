/** The restic transport (transports/restic.go). */
module Restic {
  import opened Common
  import opened GoStrings
  import opened Configuration
  import opened Sys
  import opened Transports

  const ResticCmd := "restic"
  const Verbose := ["-v", "-v"]

  /** NewResticTransport: source and destination directories must be set,
      include patterns are refused and so is a source host; the destination
      host is allowed. The checks are made in that order. */
  function New(c: Config, dryRun: bool): (r: Result<Transport, Error>)
    ensures r.Success? <==> c.sourceDir != "" && c.destDir != "" && c.includes == [] && c.sourceHost == ""
    ensures r.Success? ==> r.value == Transport(c, dryRun)
    ensures c.sourceDir == "" ==> r == Failure(SourceDirEmpty)
    ensures c.sourceDir != "" && c.destDir == "" ==> r == Failure(DestDirEmpty)
    ensures c.sourceDir != "" && c.destDir != "" && c.includes != [] ==> r == Failure(IncludeUnsupported)
    ensures c.sourceDir != "" && c.destDir != "" && c.includes == [] && c.sourceHost != "" ==>
      r == Failure(SourceHostUnsupported)
  {
    if c.sourceDir == "" then Failure(SourceDirEmpty)
    else if c.destDir == "" then Failure(DestDirEmpty)
    else if |c.includes| != 0 then Failure(IncludeUnsupported)
    else if c.sourceHost != "" then Failure(SourceHostUnsupported)
    else Success(Transport(c, dryRun))
  }

  /** The backup command line, with the exclude-file token built from
      `excludeFile`. Run passes the outer variable of that name, which is
      never assigned (see Run), so the token names no file. */
  function Argv(c: Config, excludeFile: string): seq<string> {
    var exclude := if c.excludes != [] then ["--exclude-file=" + excludeFile] else [];
    Binary(c.customBin, ResticCmd) + Verbose + exclude + c.extraArgs
    + ["--repo", BuildDest(c, ":"), "backup", c.sourceDir]
  }

  /** What the expiry command adds to the backup command line. */
  function ExpiryArgs(c: Config): seq<string> {
    ["forget", "--keep-within=" + IntToString(c.expireDays) + "d", "--prune"]
  }

  /** The chain of commands: the backup, then, when an expiry is configured,
      the same command line extended with the expiry arguments. */
  function Commands(c: Config, excludeFile: string): seq<seq<string>> {
    [Argv(c, excludeFile)] + if c.expireDays != 0 then [Argv(c, excludeFile) + ExpiryArgs(c)] else []
  }

  /** Where each part of the backup command line sits: the program, `-v -v`,
      the exclude-file token exactly when there are excludes, the extra
      arguments verbatim, then `--repo <dest> backup <source dir>`. */
  lemma ArgvShape(c: Config, excludeFile: string)
    ensures var argv := Argv(c, excludeFile);
            var bin := Binary(c.customBin, ResticCmd);
            var f := |bin| + 2;
            var e := f + (if c.excludes != [] then 1 else 0);
            && |argv| == e + |c.extraArgs| + 4
            && argv[..|bin|] == bin
            && argv[|bin|..f] == Verbose
            && (c.excludes != [] ==> argv[f] == "--exclude-file=" + excludeFile)
            && argv[e..e + |c.extraArgs|] == c.extraArgs
            && argv[|argv| - 4..] == ["--repo", BuildDest(c, ":"), "backup", c.sourceDir]
  {
    var bin := Binary(c.customBin, ResticCmd);
    var exclude := if c.excludes != [] then ["--exclude-file=" + excludeFile] else [];
    var tail := ["--repo", BuildDest(c, ":"), "backup", c.sourceDir];
    var argv := Argv(c, excludeFile);
    assert argv == bin + Verbose + exclude + c.extraArgs + tail;
    FiveSegments(bin, Verbose, exclude, c.extraArgs, tail);
    assert |Verbose| == 2;
    assert |argv| == |bin| + 2 + |exclude| + |c.extraArgs| + 4;
  }

  /** The token Run puts on the command line, built from the never-assigned
      outer variable, is `--exclude-file=` with no file name; it is not the
      command line that would name the file the list was written to. */
  lemma ExcludeTokenNamesNoFile(c: Config, written: string)
    requires c.excludes != []
    ensures Argv(c, "")[|Binary(c.customBin, ResticCmd)| + 2] == "--exclude-file="
    ensures written != "" ==> Argv(c, "") != Argv(c, written)
  {
    ArgvShape(c, "");
    ArgvShape(c, written);
    var f := |Binary(c.customBin, ResticCmd)| + 2;
    if written != "" {
      assert Argv(c, "")[f] != Argv(c, written)[f] by {
        assert |"--exclude-file=" + written| > |"--exclude-file="|;
      }
    }
  }

  /** One command without an expiry, two with one; the second is the first
      followed by `forget --keep-within=<N>d --prune`. */
  lemma CommandsShape(c: Config, excludeFile: string)
    ensures var cmds := Commands(c, excludeFile);
            && |cmds| == (if c.expireDays == 0 then 1 else 2)
            && cmds[0] == Argv(c, excludeFile)
            && (c.expireDays != 0 ==>
                  && cmds[1][..|cmds[0]|] == cmds[0]
                  && cmds[1][|cmds[0]|..] == ["forget", "--keep-within=" + IntToString(c.expireDays) + "d", "--prune"])
  {
    if c.expireDays != 0 {
      var cmds := Commands(c, excludeFile);
      assert cmds[1] == Argv(c, excludeFile) + ExpiryArgs(c);
    }
  }

  /** The appends that build the backup command line in ResticTransport.Run;
      the exclude-file name passed in is the one the token is built from. */
  method Command(c: Config, excludeFile: string) returns (cmd: seq<string>)
    ensures cmd == Argv(c, excludeFile)
  {
    var resticBin := ResticCmd;
    if c.customBin != "" {
      resticBin := c.customBin;
    }
    cmd := Split(resticBin, ' ');
    if c.customBin == "" {
      SplitNoSep(ResticCmd, ' ');
    }
    cmd := cmd + Verbose;
    if |c.excludes| != 0 {
      cmd := cmd + ["--exclude-file=" + excludeFile];
    }
    cmd := cmd + c.extraArgs;
    cmd := cmd + ["--repo", BuildDest(c, ":")];
    cmd := cmd + ["backup", c.sourceDir];
  }

  /** The command chain: the backup command, then, with an expiry, the same
      command line extended with the expiry arguments. */
  method BuildCommands(c: Config, excludeFile: string) returns (cmds: seq<seq<string>>)
    ensures cmds == Commands(c, excludeFile)
  {
    var cmd := Command(c, excludeFile);
    cmds := [cmd];
    if c.expireDays != 0 {
      cmd := cmd + ["forget", "--keep-within=" + IntToString(c.expireDays) + "d", "--prune"];
      cmds := cmds + [cmd];
    }
  }

  /** The loop over the command chain: run each command in turn and stop at
      the first one that fails, returning its error. */
  method RunChain(cmds: seq<seq<string>>, sys: System) returns (err: Option<Error>)
    modifies sys`trace
    ensures var n := sys.Attempted(|old(sys.trace)|, |cmds|);
      && sys.trace == old(sys.trace) + Tagged("RESTIC", cmds[..n])
      && err == sys.ChainResult(|old(sys.trace)|, |cmds|)
  {
    ghost var start := |sys.trace|;
    err := None;
    var i := 0;
    while i < |cmds|
      invariant 0 <= i <= |cmds|
      invariant sys.trace == old(sys.trace) + Tagged("RESTIC", cmds[..i])
      invariant sys.Attempted(start, |cmds|) == i + sys.Attempted(start + i, |cmds| - i)
      invariant sys.ChainResult(start, |cmds|) == sys.ChainResult(start + i, |cmds| - i)
      invariant err.None?
    {
      assert cmds[..i + 1] == cmds[..i] + [cmds[i]];
      assert Tagged("RESTIC", cmds[..i + 1]) == Tagged("RESTIC", cmds[..i]) + [Cmd("RESTIC", cmds[i])];
      assert |sys.trace| == start + i;
      err := sys.Exec("RESTIC", cmds[i]);
      if err.Some? {
        assert sys.Attempted(start + i, |cmds| - i) == 1;
        assert err == sys.ChainResult(start + i, |cmds| - i);
        return;
      }
      assert sys.outcome(start + i).None?;
      assert sys.ChainResult(start + i, |cmds| - i) == sys.ChainResult(start + i + 1, |cmds| - i - 1);
      i := i + 1;
    }
    assert cmds[..i] == cmds;
  }

  /** What ResticTransport.Run does once the exclude file is in place:
      nothing in dry-run mode, otherwise the command chain, with the
      exclude-file token built from `excludeFile`. */
  method Perform(t: Transport, excludeFile: string, sys: System) returns (err: Option<Error>)
    modifies sys`trace
    ensures t.dryRun ==> err.None? && sys.trace == old(sys.trace)
    ensures !t.dryRun ==>
      var cmds := Commands(t.config, excludeFile);
      var n := sys.Attempted(|old(sys.trace)|, |cmds|);
      && sys.trace == old(sys.trace) + Tagged("RESTIC", cmds[..n])
      && err == sys.ChainResult(|old(sys.trace)|, |cmds|)
  {
    err := None;
    if !t.dryRun {
      var cmds := BuildCommands(t.config, excludeFile);
      err := RunChain(cmds, sys);
    }
  }

  /** ResticTransport.Run: write the exclude list when there are excludes,
      then, unless in dry-run mode, run the commands in order and stop at the
      first failure, returning it; the exclude file is removed on the way out.
      The name of the file written goes to a variable declared inside the
      `if`, which hides the outer `excludeFile`; the command line is built
      from the outer one, which stays empty. */
  method Run(t: Transport, sys: System) returns (err: Option<Error>)
    requires sys.Valid()
    modifies sys`trace, sys`files, sys`serial
    ensures sys.Valid()
    ensures sys.files == old(sys.files)
    ensures var created := t.config.excludes != [] && !sys.tempFails(old(sys.serial));
      sys.serial == old(sys.serial) + (if created then 1 else 0)
    ensures t.config.excludes != [] && sys.tempFails(old(sys.serial)) ==>
      err == Some(TempFileFailed("exclude")) && sys.trace == old(sys.trace)
    ensures !(t.config.excludes != [] && sys.tempFails(old(sys.serial))) && t.dryRun ==>
      err.None? && sys.trace == old(sys.trace)
    ensures !(t.config.excludes != [] && sys.tempFails(old(sys.serial))) && !t.dryRun ==>
      var cmds := Commands(t.config, "");
      var n := sys.Attempted(|old(sys.trace)|, |cmds|);
      && sys.trace == old(sys.trace) + Tagged("RESTIC", cmds[..n])
      && err == sys.ChainResult(|old(sys.trace)|, |cmds|)
  {
    var excludeFile := "";
    var written: Option<nat> := None;
    if |t.config.excludes| != 0 {
      var r := WriteList("exclude", t.config.excludes, sys);
      if r.Failure? {
        return Some(r.error);
      }
      var excludeFile := sys.tempName(r.value);
      // deferred os.Remove(excludeFile)
      written := Some(r.value);
    }

    err := Perform(t, excludeFile, sys);

    if written.Some? {
      sys.RemoveFile(written.value);
    }
  }
}
