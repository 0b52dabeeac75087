/** The rdiff-backup transport (transports/rdiff_backup.go). The file is
    written against an older version of the transport package: its exclude
    and include files, its output writer and its maximum age come from
    helpers and fields that package no longer has. The model gives them the
    meaning their names and uses carry (see the README). */
module RdiffBackup {
  import opened Common
  import opened GoStrings
  import opened Configuration
  import opened Sys
  import opened Transports

  const RdiffBackupCmd := "rdiff-backup"

  /** The fixed start of the backup command line. */
  const Fixed := [RdiffBackupCmd, "--verbosity=5", "--terminal-verbosity=5", "--preserve-numerical-ids",
                  "--exclude-sockets", "--exclude-other-filesystems", "--force"]

  /** Output lines containing any of these are not copied to the output log.
      They are plain substrings: the `.*` in one of them is not a wildcard. */
  const Spam := ["POSIX ACLs not supported",
                 "Unable to import win32security module",
                 "not supported by filesystem at",
                 "escape_dos_devices not required by filesystem at",
                 "Reading globbing filelist",
                 "Updated mirror temp file.* does not match source",
                 "/.gvfs"]

  /** NewRdiffBackupTransport: source and destination directories must be
      set, and at most one of the two hosts; the checks are made in that order. */
  function New(c: Config, dryRun: bool): (r: Result<Transport, Error>)
    ensures r.Success? <==> c.sourceDir != "" && c.destDir != "" && (c.sourceHost == "" || c.destHost == "")
    ensures r.Success? ==> r.value == Transport(c, dryRun)
    ensures c.sourceDir == "" ==> r == Failure(SourceDirEmpty)
    ensures c.sourceDir != "" && c.destDir == "" ==> r == Failure(DestDirEmpty)
    ensures c.sourceDir != "" && c.destDir != "" && c.sourceHost != "" && c.destHost != "" ==>
      r == Failure(BothHostsSet)
  {
    if c.sourceDir == "" then Failure(SourceDirEmpty)
    else if c.destDir == "" then Failure(DestDirEmpty)
    else if c.sourceHost != "" && c.destHost != "" then Failure(BothHostsSet)
    else Success(Transport(c, dryRun))
  }

  /** Whether some entry of `slice` occurs in `s`. */
  predicate Matches(slice: seq<string>, s: string) {
    exists k | 0 <= k < |slice| :: Contains(s, slice[k])
  }

  /** matchSlice: a search over the entries that stops at the first one
      contained in `s`. */
  method MatchSlice(slice: seq<string>, s: string) returns (found: bool)
    ensures found <==> Matches(slice, s)
    ensures slice == [] ==> !found
  {
    var k := 0;
    while k < |slice|
      invariant 0 <= k <= |slice|
      invariant forall j | 0 <= j < k :: !Contains(s, slice[j])
    {
      if Contains(s, slice[k]) {
        return true;
      }
      k := k + 1;
    }
    return false;
  }

  /** The output callback's test: a line reaches the output log exactly when
      it contains no spam entry. */
  predicate NotSpam(line: string) {
    !Matches(Spam, line)
  }

  /** A substring holding a character the string lacks does not occur in it. */
  lemma {:induction false} MissingCharNotContained(s: string, sub: string, c: char)
    requires c in sub && c !in s
    ensures !Contains(s, sub)
  {
    var j :| 0 <= j < |sub| && sub[j] == c;
    forall i | 0 <= i <= |s| - |sub|
      ensures !OccursAt(s, sub, i)
    {
      assert s[i..i + |sub|][j] == s[i + j] != c;
    }
  }

  /** The spam entries are literal text, not patterns: the entry
      `Updated mirror temp file.* does not match source` holds back only lines
      with a literal `*` in them, so a line such as `Updated mirror temp file
      x does not match source`, which the pattern was evidently meant to
      catch, still reaches the output log through that entry. */
  lemma WildcardIsLiteral(line: string)
    requires '*' !in line
    ensures !Contains(line, Spam[5])
  {
    assert Spam[5][25] == '*';
    MissingCharNotContained(line, Spam[5], '*');
  }

  /** A line quoting an entry verbatim is spam and is held back. */
  lemma QuotedEntryIsSpam(prefix: string, k: nat, suffix: string)
    requires k < |Spam|
    ensures !NotSpam(prefix + Spam[k] + suffix)
  {
    var line := prefix + Spam[k] + suffix;
    assert line[|prefix|..|prefix| + |Spam[k]|] == Spam[k];
    assert OccursAt(line, Spam[k], |prefix|);
  }

  /** The extra arguments, which this transport takes as one string. */
  function ExtraArgs(c: Config): string {
    Join(c.extraArgs, " ")
  }

  /** The backup command line, given the names of the exclude and include
      files when there are any. */
  function Argv(c: Config, excludeFile: Option<string>, includeFile: Option<string>): seq<string> {
    var exclude := if excludeFile.Some? then ["--exclude-globbing-filelist=" + excludeFile.value] else [];
    var incl := if includeFile.Some? then ["--include-globbing-filelist=" + includeFile.value] else [];
    var extra := if ExtraArgs(c) != "" then [ExtraArgs(c)] else [];
    Fixed + exclude + incl + extra + [BuildSource(c, "::"), BuildDest(c, "::")]
  }

  /** Where each part of the backup command line sits: the seven fixed
      tokens, the exclude-list token, then the include-list token, each only
      with its file, the extra arguments as a single token when there are
      any, then the source and the destination, both with `::` after a host. */
  lemma ArgvShape(c: Config, excludeFile: Option<string>, includeFile: Option<string>)
    ensures var argv := Argv(c, excludeFile, includeFile);
            var i := 7 + (if excludeFile.Some? then 1 else 0);
            var x := i + (if includeFile.Some? then 1 else 0);
            && |argv| == x + (if ExtraArgs(c) != "" then 1 else 0) + 2
            && argv[..7] == Fixed
            && (excludeFile.Some? ==> argv[7] == "--exclude-globbing-filelist=" + excludeFile.value)
            && (includeFile.Some? ==> argv[i] == "--include-globbing-filelist=" + includeFile.value)
            && (ExtraArgs(c) != "" ==> argv[x] == ExtraArgs(c))
            && argv[|argv| - 2] == BuildSource(c, "::")
            && argv[|argv| - 1] == BuildDest(c, "::")
  {
    var exclude := if excludeFile.Some? then ["--exclude-globbing-filelist=" + excludeFile.value] else [];
    var incl := if includeFile.Some? then ["--include-globbing-filelist=" + includeFile.value] else [];
    var extra := if ExtraArgs(c) != "" then [ExtraArgs(c)] else [];
    var tail := [BuildSource(c, "::"), BuildDest(c, "::")];
    var argv := Argv(c, excludeFile, includeFile);
    assert argv == Fixed + exclude + incl + extra + tail;
    FiveSegments(Fixed, exclude, incl, extra, tail);
    assert |Fixed| == 7;
  }

  /** The expiry command: remove increments older than the maximum age. */
  function ExpiryArgv(c: Config): seq<string> {
    [RdiffBackupCmd, "--remove-older-than=" + IntToString(c.expireDays) + "D", "--force", BuildDest(c, "::")]
  }

  /** The appends that build the backup command line in Run. */
  method Command(c: Config, excludeFile: Option<string>, includeFile: Option<string>) returns (cmd: seq<string>)
    ensures cmd == Argv(c, excludeFile, includeFile)
  {
    ghost var exclude := if excludeFile.Some? then ["--exclude-globbing-filelist=" + excludeFile.value] else [];
    ghost var incl := if includeFile.Some? then ["--include-globbing-filelist=" + includeFile.value] else [];
    cmd := Fixed;
    if excludeFile.Some? {
      cmd := cmd + ["--exclude-globbing-filelist=" + excludeFile.value];
    }
    assert cmd == Fixed + exclude;
    if includeFile.Some? {
      cmd := cmd + ["--include-globbing-filelist=" + includeFile.value];
    }
    assert cmd == Fixed + exclude + incl;
    var extra := Join(c.extraArgs, " ");
    if extra != "" {
      cmd := cmd + [extra];
    }
    var src := c.sourceDir;
    if c.sourceHost != "" {
      src := c.sourceHost + "::" + src;
    }
    var dst := c.destDir;
    if c.destHost != "" {
      dst := c.destHost + "::" + dst;
    }
    assert src == BuildSource(c, "::") && dst == BuildDest(c, "::");
    cmd := cmd + [src];
    cmd := cmd + [dst];
  }

  /** runCmd: nothing in dry-run mode; otherwise the command is run with both
      of its output streams going through the spam filter into the output log,
      and its error is returned. */
  method RunCmd(t: Transport, cmd: seq<string>, sys: System) returns (err: Option<Error>)
    modifies sys`trace, sys`outLog
    ensures t.dryRun ==> err.None? && sys.trace == old(sys.trace) && sys.outLog == old(sys.outLog)
    ensures !t.dryRun ==>
      && sys.trace == old(sys.trace) + [Cmd("", cmd)]
      && sys.outLog == old(sys.outLog) + Filter(sys.printed(|old(sys.trace)|), NotSpam)
      && err == sys.ResultAt(|old(sys.trace)|)
  {
    if t.dryRun {
      return None;
    }
    err := sys.ExecFiltered(cmd, NotSpam);
  }

  /** The command chain: the backup command line, then the expiry command
      when a maximum age is configured. */
  function Chain(c: Config, backup: seq<string>): seq<seq<string>> {
    [backup] + if c.expireDays != 0 then [ExpiryArgv(c)] else []
  }

  /** The part of Run after the pattern files are written: the backup
      command, then, only when it succeeded and a maximum age is set, the
      expiry command. */
  method Perform(t: Transport, backup: seq<string>, sys: System) returns (err: Option<Error>)
    modifies sys`trace, sys`outLog
    ensures t.dryRun ==> err.None? && sys.trace == old(sys.trace) && sys.outLog == old(sys.outLog)
    ensures !t.dryRun ==>
      var cmds := Chain(t.config, backup);
      var n := sys.Attempted(|old(sys.trace)|, |cmds|);
      && sys.trace == old(sys.trace) + Tagged("", cmds[..n])
      && sys.outLog == old(sys.outLog) + sys.ChainLog(|old(sys.trace)|, n, NotSpam)
      && err == sys.ChainResult(|old(sys.trace)|, |cmds|)
  {
    ghost var start := |sys.trace|;
    ghost var cmds := Chain(t.config, backup);
    ghost var log0 := sys.outLog;
    err := RunCmd(t, backup, sys);
    if err.Some? {
      sys.ChainOfOne(start, NotSpam);
      sys.ChainOfTwo(start, NotSpam);
      assert cmds[..1] == [backup];
      return;
    }
    if t.config.expireDays != 0 {
      var expiry := ExpiryArgv(t.config);
      err := RunCmd(t, expiry, sys);
      if !t.dryRun {
        sys.ChainOfTwo(start, NotSpam);
        assert cmds[..2] == [backup, expiry];
        assert sys.outLog == log0 + (Filter(sys.printed(start), NotSpam) + Filter(sys.printed(start + 1), NotSpam));
      }
    } else {
      sys.ChainOfOne(start, NotSpam);
      assert cmds[..1] == [backup];
    }
  }

  /** The temporary files Run writes: the exclude list and the include list,
      each when it has patterns. */
  datatype Lists = Lists(excludeList: Option<nat>, includeList: Option<nat>)

  /** The tokens of the files in `l`. */
  function Tokens(l: Lists): set<nat> {
    (if l.excludeList.Some? then {l.excludeList.value} else {}) + (if l.includeList.Some? then {l.includeList.value} else {})
  }

  /** How many temporary files the first part of Run creates, starting
      from token `s0`: the exclude list when there are excludes and it can be
      created, then the include list when there are includes and it can be
      created; nothing after a failure. */
  function Created(c: Config, fails: nat -> bool, s0: nat): (n: nat)
    ensures n <= (if c.excludes != [] then 1 else 0) + (if c.includes != [] then 1 else 0)
  {
    if c.excludes != [] && fails(s0) then 0
    else
      var s1 := if c.excludes != [] then s0 + 1 else s0;
      (s1 - s0) + (if c.includes != [] && !fails(s1) then 1 else 0)
  }

  /** The first part of Run: the exclude list is written when there are
      excludes, then the include list when there are includes; when the second
      cannot be created the first is removed again. */
  method WriteLists(c: Config, sys: System) returns (r: Result<Lists, Error>)
    requires sys.Valid()
    modifies sys`files, sys`serial
    ensures sys.Valid()
    ensures sys.serial == old(sys.serial) + Created(c, sys.tempFails, old(sys.serial))
    ensures var s0 := old(sys.serial);
      c.excludes != [] && sys.tempFails(s0) ==>
        r == Failure(TempFileFailed("exclude")) && sys.files == old(sys.files)
    ensures var s0 := old(sys.serial);
      var s1 := if c.excludes != [] then s0 + 1 else s0;
      !(c.excludes != [] && sys.tempFails(s0)) && c.includes != [] && sys.tempFails(s1) ==>
        r == Failure(TempFileFailed("include")) && sys.files == old(sys.files)
    ensures var s0 := old(sys.serial);
      var s1 := if c.excludes != [] then s0 + 1 else s0;
      !(c.excludes != [] && sys.tempFails(s0)) && !(c.includes != [] && sys.tempFails(s1)) ==>
        && r.Success?
        && r.value.excludeList == (if c.excludes != [] then Some(s0) else None)
        && r.value.includeList == (if c.includes != [] then Some(s1) else None)
        && (c.excludes != [] ==> s0 in sys.files && sys.files[s0] == Terminated(c.excludes))
        && (c.includes != [] ==> s1 in sys.files && sys.files[s1] == Terminated(c.includes))
        && sys.files - Tokens(r.value) == old(sys.files)
  {
    var exclude: Option<nat> := None;
    if |c.excludes| != 0 {
      var w := WriteList("exclude", c.excludes, sys);
      if w.Failure? {
        return Failure(w.error);
      }
      exclude := Some(w.value);
    }
    ghost var mid := sys.files;
    var incl: Option<nat> := None;
    if |c.includes| != 0 {
      var w := WriteList("include", c.includes, sys);
      if w.Failure? {
        // deferred os.Remove of the exclude file
        if exclude.Some? {
          sys.RemoveFile(exclude.value);
          assert sys.files == old(sys.files);
        }
        return Failure(w.error);
      }
      incl := Some(w.value);
    }
    r := Success(Lists(exclude, incl));
    assert sys.files - Tokens(r.value) == old(sys.files);
  }

  /** The deferred removals of Run: the include file, then the exclude file. */
  method RemoveLists(l: Lists, sys: System)
    modifies sys`files
    ensures sys.files == old(sys.files) - Tokens(l)
  {
    if l.includeList.Some? {
      sys.RemoveFile(l.includeList.value);
    }
    if l.excludeList.Some? {
      sys.RemoveFile(l.excludeList.value);
    }
    assert sys.files == old(sys.files) - Tokens(l);
  }

  /** RdiffBackupTransport.Run: write the exclude list, then the include
      list, each only when it has patterns; run the chain; remove the files
      on the way out, whichever way that is. */
  method Run(t: Transport, sys: System) returns (err: Option<Error>)
    requires sys.Valid()
    modifies sys`trace, sys`files, sys`serial, sys`outLog
    ensures sys.Valid()
    ensures sys.files == old(sys.files)
    ensures sys.serial == old(sys.serial) + Created(t.config, sys.tempFails, old(sys.serial))
    ensures var s0 := old(sys.serial);
      t.config.excludes != [] && sys.tempFails(s0) ==>
        err == Some(TempFileFailed("exclude")) && sys.trace == old(sys.trace) && sys.outLog == old(sys.outLog)
    ensures var s0 := old(sys.serial);
      var s1 := if t.config.excludes != [] then s0 + 1 else s0;
      !(t.config.excludes != [] && sys.tempFails(s0)) && t.config.includes != [] && sys.tempFails(s1) ==>
        err == Some(TempFileFailed("include")) && sys.trace == old(sys.trace) && sys.outLog == old(sys.outLog)
    ensures var s0 := old(sys.serial);
      var s1 := if t.config.excludes != [] then s0 + 1 else s0;
      var written := !(t.config.excludes != [] && sys.tempFails(s0)) && !(t.config.includes != [] && sys.tempFails(s1));
      written && t.dryRun ==> err.None? && sys.trace == old(sys.trace) && sys.outLog == old(sys.outLog)
    ensures var s0 := old(sys.serial);
      var s1 := if t.config.excludes != [] then s0 + 1 else s0;
      var written := !(t.config.excludes != [] && sys.tempFails(s0)) && !(t.config.includes != [] && sys.tempFails(s1));
      var exclude := if t.config.excludes != [] then Some(sys.tempName(s0)) else None;
      var incl := if t.config.includes != [] then Some(sys.tempName(s1)) else None;
      var cmds := Chain(t.config, Argv(t.config, exclude, incl));
      var n := sys.Attempted(|old(sys.trace)|, |cmds|);
      written && !t.dryRun ==>
        && sys.trace == old(sys.trace) + Tagged("", cmds[..n])
        && sys.outLog == old(sys.outLog) + sys.ChainLog(|old(sys.trace)|, n, NotSpam)
        && err == sys.ChainResult(|old(sys.trace)|, |cmds|)
  {
    var lists := WriteLists(t.config, sys);
    if lists.Failure? {
      return Some(lists.error);
    }
    var l := lists.value;
    var excludeName := if l.excludeList.Some? then Some(sys.tempName(l.excludeList.value)) else None;
    var includeName := if l.includeList.Some? then Some(sys.tempName(l.includeList.value)) else None;
    var cmd := Command(t.config, excludeName, includeName);
    err := Perform(t, cmd, sys);

    RemoveLists(l, sys);
  }
}
