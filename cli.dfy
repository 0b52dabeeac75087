/** The deterministic parts of the command-line front end (main.go): the
    /proc/mounts scan of isMounted, the name of the output log, and what
    happens once the backup has run. */
module Cli {
  import opened Common
  import opened GoStrings
  import opened Configuration
  import Prom

  const ProgName := "netbackup"

  /** A /proc/mounts line names `dir` as its mount point: split on single
      spaces, it has at least two fields and the second is `dir`. */
  predicate FieldMatches(line: string, dir: string) {
    var f := Split(line, ' ');
    |f| > 1 && f[1] == dir
  }

  /** Some newline-separated line of the mount table names `dir`. */
  predicate MountedIn(table: string, dir: string) {
    var lines := Split(table, '\n');
    exists k | 0 <= k < |lines| :: FieldMatches(lines[k], dir)
  }

  /** isMounted: an unreadable mount table is an error; otherwise the lines
      are scanned in order and the scan stops at the first that names the
      directory. */
  method IsMounted(procMounts: Option<string>, dirname: string) returns (r: Result<bool, Error>)
    ensures procMounts.None? ==> r == Failure(MountCheckFailed)
    ensures procMounts.Some? ==> r == Success(MountedIn(procMounts.value, dirname))
  {
    if procMounts.None? {
      return Failure(MountCheckFailed);
    }
    var cslice := Split(procMounts.value, '\n');
    var i := 0;
    while i < |cslice|
      invariant 0 <= i <= |cslice|
      invariant forall k | 0 <= k < i :: !FieldMatches(cslice[k], dirname)
    {
      var f := Split(cslice[i], ' ');
      if |f| > 1 && f[1] == dirname {
        return Success(true);
      }
      i := i + 1;
    }
    return Success(false);
  }

  /** A line without a space has a single field and never names a mount
      point, whatever the directory. */
  lemma OneFieldNeverMatches(line: string, dir: string)
    requires ' ' !in line
    ensures !FieldMatches(line, dir)
  {
    SplitNoSep(line, ' ');
  }

  /** A /proc/mounts entry `<device> <dir> <rest>` names `dir` when neither
      the device nor the directory holds a space, and names no other
      directory. */
  lemma EntryNamesItsDir(device: string, dir: string, rest: string, other: string)
    requires ' ' !in device && ' ' !in dir
    ensures FieldMatches(device + " " + dir + " " + rest, dir)
    ensures other != dir ==> !FieldMatches(device + " " + dir + " " + rest, other)
  {
    var line := device + " " + dir + " " + rest;
    assert line == device + [' '] + (dir + [' '] + rest);
    SplitAfter(device, ' ', dir + [' '] + rest);
    SplitAfter(dir, ' ', rest);
  }

  /** A mount table made of lines is mounted-in `dir` exactly when one of
      its lines names `dir`. */
  lemma MountedInLines(lines: seq<string>, dir: string)
    requires lines != []
    requires forall k | 0 <= k < |lines| :: '\n' !in lines[k]
    ensures MountedIn(Join(lines, "\n"), dir) <==> exists k | 0 <= k < |lines| :: FieldMatches(lines[k], dir)
  {
    SplitJoin(lines, '\n');
  }

  /** A directory whose name holds a space is never found: no field does. */
  lemma SpacedDirNeverMounted(table: string, dir: string)
    requires ' ' in dir
    ensures !MountedIn(table, dir)
  {
    var lines := Split(table, '\n');
    forall k | 0 <= k < |lines|
      ensures !FieldMatches(lines[k], dir)
    {
      var f := Split(lines[k], ' ');
      if |f| > 1 {
        assert ' ' !in f[1];
      }
    }
  }

  /** filepath.Join of two elements, leaving out an empty one. The result is
      not cleaned: repeated or trailing slashes are kept. */
  function JoinPath(a: string, b: string): string {
    if a == "" then b else if b == "" then a else a + "/" + b
  }

  /** The name of the dated log file of a backup. */
  function LogFile(name: string, ymd: string): string {
    ProgName + "-" + name + "." + ymd + ".log"
  }

  /** logPath: the dated log file inside the directory `<logDir>/<name>`. */
  function LogPath(name: string, logDir: string, ymd: string): string {
    JoinPath(JoinPath(logDir, name), LogFile(name, ymd))
  }

  /** Index of the last slash in `p`, or -1 when there is none. */
  function LastSlash(p: string): (k: int)
    ensures -1 <= k < |p|
    ensures k >= 0 ==> p[k] == '/'
    ensures forall j | k < j < |p| :: p[j] != '/'
    decreases |p|
  {
    if p == [] then -1
    else if p[|p| - 1] == '/' then |p| - 1
    else LastSlash(p[..|p| - 1])
  }

  /** The directory part of a path: everything before its last slash. */
  function Dir(p: string): string {
    var k := LastSlash(p);
    if k < 0 then "" else p[..k]
  }

  /** The file part of a path: everything after its last slash. */
  function Base(p: string): string {
    p[LastSlash(p) + 1..]
  }

  /** logPath puts the file `netbackup-<name>.<ymd>.log` in the directory
      `<logDir>/<name>` whenever neither the name nor the date holds a
      slash. */
  lemma LogPathPlacesFile(name: string, logDir: string, ymd: string)
    requires '/' !in name && '/' !in ymd
    ensures Base(LogPath(name, logDir, ymd)) == LogFile(name, ymd)
    ensures Dir(LogPath(name, logDir, ymd)) == JoinPath(logDir, name)
  {
    var dir := JoinPath(logDir, name);
    var file := LogFile(name, ymd);
    var p := LogPath(name, logDir, ymd);
    assert '/' !in file by {
      assert file == ProgName + "-" + name + "." + ymd + ".log";
    }
    if dir == "" {
      assert p == file;
      assert LastSlash(p) == -1;
    } else {
      assert p == dir + "/" + file;
      assert p[|dir|] == '/';
      assert LastSlash(p) == |dir|;
      assert p[..|dir|] == dir;
    }
  }

  /** The output log of a run: the configured log file verbatim when there
      is one, otherwise the dated file under the log directory. */
  method LogFileName(c: Config, ymd: string) returns (path: string)
    ensures c.logFile != "" ==> path == c.logFile
    ensures c.logFile == "" ==> path == LogPath(c.name, c.logDir, ymd)
  {
    path := c.logFile;
    if path == "" {
      path := LogPath(c.name, c.logDir, ymd);
    }
  }

  /** How the program ends after the backup has run. */
  datatype Ending =
      // log.Fatalln with the backup's error: a failing exit, nothing more
    | Fatal(err: Error)
      // the run succeeded; the new textfile contents, if one was written,
      // and whether a warning about an unwritable textfile was logged
    | Finished(textfile: Option<string>, warned: bool)

  /** The end of main: a failed backup is fatal; otherwise, when a textfile
      is configured, its rebuilt contents are written, and a textfile that
      cannot be read or written (`current` is None) only costs a warning. */
  function Finish(c: Config, runErr: Option<Error>, current: Option<string>, now: int): (e: Ending)
    ensures e.Fatal? <==> runErr.Some?
    ensures e.Fatal? ==> e.err == runErr.value
    ensures e.Finished? && e.textfile.Some? ==>
      c.promTextFile != "" && current.Some? && e.textfile.value == Prom.Rebuilt(current.value, c.name, now)
    ensures e.Finished? ==> (e.warned <==> c.promTextFile != "" && current.None?)
    ensures e.Finished? && c.promTextFile != "" && current.Some? ==> e.textfile.Some?
  {
    if runErr.Some? then Fatal(runErr.value)
    else if c.promTextFile == "" then Finished(None, false)
    else if current.None? then Finished(None, true)
    else Finished(Some(Prom.Rebuilt(current.value, c.name, now)), false)
  }
}
