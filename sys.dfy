/** The outside world as netbackup sees it: an executor that records every
    command it is asked to run and answers from an oracle, the same way the
    transport tests' fake executor records what it is given, plus the
    temporary files and directories the program creates and removes. */
module Sys {
  import opened Common

  /** One externally visible step, in the order the program takes it. */
  datatype Event =
      // An external command: the tag execute.Run or RunCommand is given
      // (empty for a direct Executor.Exec call) and the argument vector.
    | Cmd(tag: string, argv: seq<string>)
      // time.Sleep
    | Pause(seconds: nat)
      // os.Remove of a temporary directory
    | Rmdir(path: string)

  /** What reaches a writer when every line passes through a callback that
      writes only the lines `keep` accepts. */
  function Filter(lines: seq<string>, keep: string -> bool): seq<string>
    decreases |lines|
  {
    if lines == [] then []
    else if keep(lines[0]) then [lines[0]] + Filter(lines[1..], keep)
    else Filter(lines[1..], keep)
  }

  /** The filtered lines are exactly the accepted ones, in their order: no
      more of them than there were lines, every one accepted and among the
      lines, and every accepted line among them. */
  lemma {:induction false} FilterKeepsAccepted(lines: seq<string>, keep: string -> bool)
    ensures var kept := Filter(lines, keep);
      && |kept| <= |lines|
      && (forall x | x in kept :: keep(x) && x in lines)
      && (forall x | x in lines && keep(x) :: x in kept)
    decreases |lines|
  {
    if lines != [] {
      FilterKeepsAccepted(lines[1..], keep);
      assert lines == [lines[0]] + lines[1..];
    }
  }

  /** The events of running each argument vector under one tag, in order. */
  function Tagged(tag: string, argvs: seq<seq<string>>): (events: seq<Event>)
    ensures |events| == |argvs|
    ensures forall k | 0 <= k < |argvs| :: events[k] == Cmd(tag, argvs[k])
    decreases |argvs|
  {
    if argvs == [] then [] else [Cmd(tag, argvs[0])] + Tagged(tag, argvs[1..])
  }

  class System {
    /** Every command, pause and directory removal so far. */
    var trace: seq<Event>
    /** Open temporary files: token -> contents. */
    var files: map<nat, string>
    /** Temporary directories that exist. */
    var dirs: set<nat>
    /** The next token handed out for a temporary file or directory. */
    var serial: nat
    /** Lines written to the backup's output log by output callbacks. */
    var outLog: seq<string>

    /** Outcome of the command recorded at trace position i: None for
        success, Some(status) for a failure with that exit status. */
    const outcome: nat -> Option<nat>
    /** Lines the command recorded at trace position i prints. */
    const printed: nat -> seq<string>
    /** Whether creating the temporary file or directory with token n fails. */
    const tempFails: nat -> bool
    /** The path name of the temporary file or directory with token n. */
    const tempName: nat -> string
    /** Whether os.Remove of the temporary directory with token n fails, as
        it does with EBUSY while the directory is still mounted. */
    const removeFails: nat -> bool
    /** The shell execute.WithShell runs commands with. */
    const shell: string
    /** Contents of /proc/mounts, or None when it cannot be read. */
    const procMounts: Option<string>
    /** Whether a path exists (os.Stat succeeds). */
    const present: string -> bool

    ghost predicate Valid()
      reads this`files, this`dirs, this`serial
    {
      && (forall id | id in files :: id < serial)
      && (forall id | id in dirs :: id < serial)
    }

    constructor (outcome: nat -> Option<nat>, printed: nat -> seq<string>,
                 tempFails: nat -> bool, tempName: nat -> string, removeFails: nat -> bool,
                 shell: string, procMounts: Option<string>, present: string -> bool)
      ensures Valid()
      ensures trace == [] && files == map[] && dirs == {} && serial == 0 && outLog == []
      ensures this.outcome == outcome && this.printed == printed
      ensures this.tempFails == tempFails && this.tempName == tempName && this.removeFails == removeFails
      ensures this.shell == shell && this.procMounts == procMounts && this.present == present
    {
      this.outcome := outcome;
      this.printed := printed;
      this.tempFails := tempFails;
      this.tempName := tempName;
      this.removeFails := removeFails;
      this.shell := shell;
      this.procMounts := procMounts;
      this.present := present;
      trace := [];
      files := map[];
      dirs := {};
      serial := 0;
      outLog := [];
    }

    /** The error the executor returns for the command at trace position i. */
    function ResultAt(i: nat): (err: Option<Error>)
      ensures err.None? <==> outcome(i).None?
      ensures err.Some? ==> ExitCode(err) == outcome(i).value
    {
      match outcome(i)
      case None => None
      case Some(status) => Some(CommandFailed(status))
    }

    /** How many of `count` commands run one after another from trace
        position `start` are attempted when the chain stops at the first
        failure. */
    function Attempted(start: nat, count: nat): (n: nat)
      ensures n <= count && (count > 0 ==> n >= 1)
      decreases count
    {
      if count == 0 then 0
      else if outcome(start).Some? then 1
      else 1 + Attempted(start + 1, count - 1)
    }

    /** The error such a chain returns: the one of the first command that
        fails, if any. */
    function ChainResult(start: nat, count: nat): (err: Option<Error>)
      ensures err.Some? ==> count > 0
      decreases count
    {
      if count == 0 then None
      else if outcome(start).Some? then ResultAt(start)
      else ChainResult(start + 1, count - 1)
    }

    /** Every command before the last one attempted succeeded, and when not
        all were attempted the last one attempted failed. */
    lemma {:induction false} AttemptedStopsAtFailure(start: nat, count: nat)
      ensures var n := Attempted(start, count);
        && (forall i | start <= i < start + n - 1 :: outcome(i).None?)
        && (n < count ==> outcome(start + n - 1).Some?)
      decreases count
    {
      if count > 0 && outcome(start).None? {
        AttemptedStopsAtFailure(start + 1, count - 1);
      }
    }

    /** The chain returns no error exactly when every command succeeds, and
        otherwise the error of the last command attempted. */
    lemma {:induction false} ChainResultMeaning(start: nat, count: nat)
      ensures ChainResult(start, count).None? <==> forall i | start <= i < start + count :: outcome(i).None?
      ensures ChainResult(start, count).Some? ==>
        ChainResult(start, count) == ResultAt(start + Attempted(start, count) - 1)
      decreases count
    {
      if count > 0 && outcome(start).None? {
        ChainResultMeaning(start + 1, count - 1);
      }
    }

    /** The lines the first `n` commands of a chain run from trace position
        `start` leave in the output log when each line goes through `keep`. */
    function ChainLog(start: nat, n: nat, keep: string -> bool): seq<string>
      decreases n
    {
      if n == 0 then [] else ChainLog(start, n - 1, keep) + Filter(printed(start + n - 1), keep)
    }

    /** A chain of one command: it is attempted, and its error and output
        are the chain's. */
    lemma ChainOfOne(start: nat, keep: string -> bool)
      ensures Attempted(start, 1) == 1
      ensures ChainResult(start, 1) == ResultAt(start)
      ensures ChainLog(start, 1, keep) == Filter(printed(start), keep)
    {
      assert ChainLog(start, 1, keep) == [] + Filter(printed(start), keep);
    }

    /** A chain of two commands stops after the first when that one fails,
        and otherwise runs the second as well. */
    lemma ChainOfTwo(start: nat, keep: string -> bool)
      ensures outcome(start).Some? ==>
        && Attempted(start, 2) == 1
        && ChainResult(start, 2) == ResultAt(start)
      ensures outcome(start).None? ==>
        && Attempted(start, 2) == 2
        && ChainResult(start, 2) == ResultAt(start + 1)
        && ChainLog(start, 2, keep) == Filter(printed(start), keep) + Filter(printed(start + 1), keep)
    {
      ChainOfOne(start, keep);
      ChainOfOne(start + 1, keep);
    }

    /** execute.WithShell: run a command line through the shell. */
    function WithShell(command: string): seq<string> {
      [shell, "-c", "--", command]
    }

    /** Run a command: it is recorded, and its result is the oracle's. */
    method Exec(tag: string, argv: seq<string>) returns (err: Option<Error>)
      modifies this`trace
      ensures trace == old(trace) + [Cmd(tag, argv)]
      ensures err == ResultAt(|old(trace)|)
    {
      err := ResultAt(|trace|);
      trace := trace + [Cmd(tag, argv)];
    }

    /** Run a command whose standard output and error go through a callback
        that writes to the output log only the lines `keep` accepts. */
    method ExecFiltered(argv: seq<string>, keep: string -> bool) returns (err: Option<Error>)
      modifies this`trace, this`outLog
      ensures trace == old(trace) + [Cmd("", argv)]
      ensures outLog == old(outLog) + Filter(printed(|old(trace)|), keep)
      ensures err == ResultAt(|old(trace)|)
    {
      err := ResultAt(|trace|);
      outLog := outLog + Filter(printed(|trace|), keep);
      trace := trace + [Cmd("", argv)];
    }

    method Sleep(seconds: nat)
      modifies this`trace
      ensures trace == old(trace) + [Pause(seconds)]
    {
      trace := trace + [Pause(seconds)];
    }

    /** os.CreateTemp: a new empty file with a fresh token, or an error. */
    method CreateTemp(prefix: string) returns (r: Result<nat, Error>)
      requires Valid()
      modifies this`files, this`serial
      ensures Valid()
      ensures tempFails(old(serial)) ==>
        r == Failure(TempFileFailed(prefix)) && files == old(files) && serial == old(serial)
      ensures !tempFails(old(serial)) ==>
        && r == Success(old(serial)) && r.value !in old(files)
        && files == old(files)[r.value := ""] && serial == old(serial) + 1
    {
      if tempFails(serial) {
        return Failure(TempFileFailed(prefix));
      }
      r := Success(serial);
      files := files[serial := ""];
      serial := serial + 1;
    }

    /** Append text to an open temporary file. */
    method Write(id: nat, text: string)
      requires id in files
      modifies this`files
      ensures files == old(files)[id := old(files)[id] + text]
    {
      files := files[id := files[id] + text];
    }

    /** os.Remove of a temporary file. */
    method RemoveFile(id: nat)
      modifies this`files
      ensures files == old(files) - {id}
    {
      files := files - {id};
    }

    /** os.MkdirTemp: a new directory with a fresh token, or an error. */
    method MkdirTemp() returns (r: Result<nat, Error>)
      requires Valid()
      modifies this`dirs, this`serial
      ensures Valid()
      ensures tempFails(old(serial)) ==>
        r == Failure(TempDirFailed) && dirs == old(dirs) && serial == old(serial)
      ensures !tempFails(old(serial)) ==>
        && r == Success(old(serial)) && r.value !in old(dirs)
        && dirs == old(dirs) + {r.value} && serial == old(serial) + 1
    {
      if tempFails(serial) {
        return Failure(TempDirFailed);
      }
      r := Success(serial);
      dirs := dirs + {serial};
      serial := serial + 1;
    }

    /** os.Remove of a temporary directory; recorded, since its place among
        the teardown commands matters. A failed removal leaves the directory
        where it is. */
    method RemoveDir(id: nat) returns (ok: bool)
      modifies this`trace, this`dirs
      ensures ok <==> !removeFails(id)
      ensures dirs == if ok then old(dirs) - {id} else old(dirs)
      ensures trace == old(trace) + [Rmdir(tempName(id))]
    {
      ok := !removeFails(id);
      if ok {
        dirs := dirs - {id};
      }
      trace := trace + [Rmdir(tempName(id))];
    }
  }
}
