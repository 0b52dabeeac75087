/** The backup orchestrator (backup.go): the steps around a transport run,
    in the order they are taken, and the deferred teardown that undoes them. */
module Backups {
  import opened Common
  import opened Configuration
  import opened Sys
  import opened Transports
  import Cli
  import Rsync
  import Rclone
  import Restic
  import Custom
  import RdiffBackup

  const MountCmd := "mount"
  const UmountCmd := "umount"
  const CryptSetupCmd := "cryptsetup"
  const FsckCmd := "fsck"
  const TunefsCmd := "tune2fs"
  const DevMapperDir := "/dev/mapper"
  /** Seconds of the pauses that precede an unmount and a LUKS close. */
  const Settle := 2
  /** What a dry run puts in place of the device and directory it would
      have set up. */
  const DummyDestDev := "dummy_dest_dev"
  const DummyDestDir := "dummy_dest_dir"

  /** The /dev/mapper name a LUKS destination is luksOpen under. */
  function MapperName(name: string): string {
    "netbackup_" + name
  }

  function MapperPath(name: string): string {
    Cli.JoinPath(DevMapperDir, MapperName(name))
  }

  function LuksOpenArgv(c: Config): seq<string> {
    [CryptSetupCmd] + (if c.luksKeyFile != "" then ["--key-file=" + c.luksKeyFile] else [])
    + ["luksOpen", c.luksDestDev, MapperName(c.name)]
  }

  function LuksCloseArgv(dev: string): seq<string> {
    [CryptSetupCmd, "luksClose", dev]
  }

  function FsckArgv(dev: string): seq<string> {
    [FsckCmd, "-n", dev]
  }

  function TunefsArgv(dev: string): seq<string> {
    [TunefsCmd, "-C", "0", "-T", "now", dev]
  }

  function MountArgv(dev: string, dir: string): seq<string> {
    [MountCmd, dev, dir]
  }

  function UmountArgv(dev: string): seq<string> {
    [UmountCmd, dev]
  }

  /** The cryptsetup command line: the program, the key file when there is
      one, then `luksOpen <device> netbackup_<name>`. */
  lemma LuksOpenArgvShape(c: Config)
    ensures var argv := LuksOpenArgv(c);
      && argv[0] == CryptSetupCmd
      && |argv| == (if c.luksKeyFile != "" then 5 else 4)
      && (c.luksKeyFile != "" ==> argv[1] == "--key-file=" + c.luksKeyFile)
      && argv[|argv| - 3..] == ["luksOpen", c.luksDestDev, MapperName(c.name)]
      && MapperPath(c.name) == DevMapperDir + "/" + argv[|argv| - 1]
  {
  }

  /** What a dry run does to the configuration before anything else: a LUKS
      destination gets a dummy device, and then a device destination gets a
      dummy directory, so the transports can show a full command line. */
  function DryRunConfig(c: Config): (d: Config)
    ensures d.(destDev := c.destDev, destDir := c.destDir) == c
    ensures d.destDev == if c.luksDestDev != "" then DummyDestDev else c.destDev
    ensures d.destDir == if d.destDev != "" then DummyDestDir else c.destDir
  {
    var c1 := if c.luksDestDev != "" then c.(destDev := DummyDestDev) else c;
    if c1.destDev != "" then c1.(destDir := DummyDestDir) else c1
  }

  /** An action registered with `defer`. The LUKS close and the unmount read
      the device from the configuration when they run; the mount point to
      remove is fixed when the action is registered. */
  datatype Deferred = LuksClose | Sleep | Unmount | RemoveDir(id: nat)

  /** What a successful LUKS open registers, in registration order. */
  const LuksFrame: seq<Deferred> := [LuksClose, Sleep]

  /** What a successful mount registers, in registration order. */
  function MountFrame(id: nat): seq<Deferred> {
    [RemoveDir(id), Unmount, Sleep]
  }

  /** The event one deferred action leaves. */
  function DeferredEvent(d: Deferred, dev: string, names: nat -> string): Event {
    match d
    case LuksClose => Cmd("LUKS_CLOSE", LuksCloseArgv(dev))
    case Sleep => Pause(Settle)
    case Unmount => Cmd("UMOUNT", UmountArgv(dev))
    case RemoveDir(id) => Rmdir(names(id))
  }

  /** The events of running a defer stack: the last action registered runs
      first. */
  function TeardownEvents(stack: seq<Deferred>, dev: string, names: nat -> string): seq<Event>
    decreases |stack|
  {
    if stack == [] then []
    else [DeferredEvent(stack[|stack| - 1], dev, names)] + TeardownEvents(stack[..|stack| - 1], dev, names)
  }

  /** The temporary directories a defer stack's os.Remove calls name. */
  function RemovedDirs(stack: seq<Deferred>): set<nat>
    decreases |stack|
  {
    if stack == [] then {}
    else (if stack[|stack| - 1].RemoveDir? then {stack[|stack| - 1].id} else {}) + RemovedDirs(stack[..|stack| - 1])
  }

  /** The temporary directories a defer stack actually removes: those its
      os.Remove calls name, less those whose removal `fails`. */
  function Removed(stack: seq<Deferred>, fails: nat -> bool): set<nat> {
    set id | id in RemovedDirs(stack) && !fails(id)
  }

  /** Actions registered later are undone first: the teardown of two
      registrations in turn is the teardown of the second followed by that
      of the first. */
  lemma {:induction false} TeardownReverses(a: seq<Deferred>, b: seq<Deferred>, dev: string, names: nat -> string)
    ensures TeardownEvents(a + b, dev, names) == TeardownEvents(b, dev, names) + TeardownEvents(a, dev, names)
    decreases |b|
  {
    if b == [] {
      assert a + b == a;
    } else {
      var n := |b| - 1;
      assert (a + b)[..|a + b| - 1] == a + b[..n];
      assert (a + b)[|a + b| - 1] == b[n];
      TeardownReverses(a, b[..n], dev, names);
    }
  }

  /** The teardown of a mount: pause, unmount, remove the mount point. */
  lemma MountTeardown(id: nat, dev: string, names: nat -> string)
    ensures TeardownEvents(MountFrame(id), dev, names) ==
      [Pause(Settle), Cmd("UMOUNT", UmountArgv(dev)), Rmdir(names(id))]
  {
    var m := MountFrame(id);
    assert m[..2] == [RemoveDir(id), Unmount];
    assert m[..2][..1] == [RemoveDir(id)];
    assert m[..2][..1][..0] == [];
    assert TeardownEvents(m[..2][..1], dev, names) == [Rmdir(names(id))];
    assert TeardownEvents(m[..2], dev, names) == [Cmd("UMOUNT", UmountArgv(dev)), Rmdir(names(id))];
  }

  /** After a mount, the mount point is gone exactly when its removal, which
      runs after the pause and the unmount, succeeds; a removal that fails
      (a directory still mounted because the unmount failed) leaves it.
      A LUKS frame below the mount frame removes nothing more. */
  lemma MountTeardownRemoves(id: nat, fails: nat -> bool)
    ensures Removed(MountFrame(id), fails) == (if fails(id) then {} else {id})
    ensures Removed(LuksFrame + MountFrame(id), fails) == (if fails(id) then {} else {id})
  {
    FramesRemove(id);
  }

  /** The teardown of a LUKS open: pause, close the device. */
  lemma LuksTeardown(dev: string, names: nat -> string)
    ensures TeardownEvents(LuksFrame, dev, names) == [Pause(Settle), Cmd("LUKS_CLOSE", LuksCloseArgv(dev))]
  {
    assert LuksFrame[..1] == [LuksClose];
    assert LuksFrame[..1][..0] == [];
    assert TeardownEvents(LuksFrame[..1], dev, names) == [Cmd("LUKS_CLOSE", LuksCloseArgv(dev))];
  }

  /** The full teardown after a LUKS open and a mount: pause, unmount,
      remove the mount point, pause, close the LUKS device. */
  lemma FullTeardown(id: nat, dev: string, names: nat -> string)
    ensures TeardownEvents(LuksFrame + MountFrame(id), dev, names) ==
      [Pause(Settle), Cmd("UMOUNT", UmountArgv(dev)), Rmdir(names(id)), Pause(Settle), Cmd("LUKS_CLOSE", LuksCloseArgv(dev))]
  {
    TeardownReverses(LuksFrame, MountFrame(id), dev, names);
    MountTeardown(id, dev, names);
    LuksTeardown(dev, names);
  }

  /** The outcome of one acquisition step, or of all of them: the events it
      left, its error, the destination device and directory after it, the
      teardown actions it registered and the temporary directory it made,
      if any. */
  datatype Phase = Phase(events: seq<Event>, err: Option<Error>, dev: string, dir: string,
                         frame: seq<Deferred>, made: Option<nat>)

  /** The configuration after a phase: only the destination device and
      directory change. */
  function Applied(c: Config, p: Phase): (d: Config)
    ensures d.destDev == p.dev && d.destDir == p.dir
    ensures d.(destDev := c.destDev, destDir := c.destDir) == c
  {
    c.(destDev := p.dev, destDir := p.dir)
  }

  /** One phase followed by another that ran after it. */
  function Then(l: Phase, d: Phase): Phase {
    Phase(l.events + d.events, d.err, d.dev, d.dir, l.frame + d.frame, d.made)
  }

  /** The source mount-point check: required only when configured; an
      unreadable mount table and an unmounted source are both errors. */
  function SourceCheck(c: Config, table: Option<string>): Option<Error> {
    if !c.sourceIsMountPoint then None
    else if table.None? then Some(MountCheckFailed)
    else if Cli.MountedIn(table.value, c.sourceDir) then None
    else Some(SourceNotMounted(c.sourceDir))
  }

  /** Opening the LUKS destination, when there is one, with the command at
      trace position `pos`: refused when the mapper device already exists;
      on success the device becomes the mapper device and the close is
      registered, followed by a pause. */
  function LuksPhase(c: Config, sys: System, pos: nat): Phase {
    var mapper := MapperPath(c.name);
    if c.luksDestDev == "" then Phase([], None, c.destDev, c.destDir, [], None)
    else if sys.present(mapper) then
      Phase([], Some(LuksOpenFailed(c.luksDestDev, MapperExists(mapper))), c.destDev, c.destDir, [], None)
    else
      var open := [Cmd("LUKS_OPEN", LuksOpenArgv(c))];
      match sys.ResultAt(pos)
      case Some(e) => Phase(open, Some(LuksOpenFailed(c.luksDestDev, e)), c.destDev, c.destDir, [], None)
      case None => Phase(open, None, mapper, c.destDir, LuksFrame, None)
  }

  /** The file-system cleanup of the device `dev`, when configured: a
      read-only fsck, then, only when it succeeded, tune2fs. */
  function CleanPhase(fsCleanup: bool, dev: string, dir: string, sys: System, pos: nat): Phase {
    if !fsCleanup then Phase([], None, dev, dir, [], None)
    else
      var fsck := Cmd("FS_CLEANUP", FsckArgv(dev));
      match sys.ResultAt(pos)
      case Some(e) => Phase([fsck], Some(CleanupFailed(dev, FsckFailed(FsckArgv(dev), e))), dev, dir, [], None)
      case None =>
        var tune := Cmd("FS_CLEANUP", TunefsArgv(dev));
        match sys.ResultAt(pos + 1)
        case Some(e) => Phase([fsck, tune], Some(CleanupFailed(dev, e)), dev, dir, [], None)
        case None => Phase([fsck, tune], None, dev, dir, [], None)
  }

  /** Mounting a device destination on a new temporary directory: on success
      the directory becomes the destination and the removal of the mount
      point, the unmount and a pause are registered. A mount point whose
      mount fails is left behind. */
  function MountPhase(dev: string, dir: string, sys: System, pos: nat, serial: nat): Phase {
    if dev == "" then Phase([], None, dev, dir, [], None)
    else if sys.tempFails(serial) then Phase([], Some(MountFailed(dev, TempDirFailed)), dev, dir, [], None)
    else
      var tmp := sys.tempName(serial);
      var mount := [Cmd("MOUNT", MountArgv(dev, tmp))];
      match sys.ResultAt(pos)
      case Some(e) => Phase(mount, Some(MountFailed(dev, e)), dev, dir, [], Some(serial))
      case None => Phase(mount, None, dev, tmp, MountFrame(serial), Some(serial))
  }

  /** The destination preparation after the LUKS step: the cleanup, then,
      when it succeeded, the mount. */
  function PrepareDest(fsCleanup: bool, dev: string, dir: string, sys: System, pos: nat, serial: nat): Phase {
    var clean := CleanPhase(fsCleanup, dev, dir, sys, pos);
    if clean.err.Some? then clean
    else Then(clean, MountPhase(dev, dir, sys, pos + |clean.events|, serial))
  }

  /** The device steps after the source check: open the LUKS device, then
      prepare the destination it leads to. */
  function OpenAndPrepare(c: Config, sys: System, pos: nat, serial: nat): Phase {
    var luks := LuksPhase(c, sys, pos);
    if luks.err.Some? then luks
    else Then(luks, PrepareDest(c.fsCleanup, luks.dev, luks.dir, sys, pos + |luks.events|, serial))
  }

  /** Everything Backup.Run does before it picks the transport, outside a
      dry run: the steps in order, stopping at the first error, with the
      registrations of the steps that succeeded. */
  function Acquisition(c: Config, sys: System, pos: nat, serial: nat): Phase {
    var src := SourceCheck(c, sys.procMounts);
    if src.Some? then Phase([], src, c.destDev, c.destDir, [], None)
    else OpenAndPrepare(c, sys, pos, serial)
  }

  /** The temporary directory a phase made, as a set. */
  function Made(m: Option<nat>): set<nat> {
    if m.Some? then {m.value} else {}
  }

  /** The transports Backup.Run can pick. */
  datatype Kind = CustomKind | RcloneKind | RdiffBackupKind | ResticKind | RsyncKind

  /** The configuration name of each transport. */
  function KindName(k: Kind): string {
    match k
    case CustomKind => "custom"
    case RcloneKind => "rclone"
    case RdiffBackupKind => "rdiff-backup"
    case ResticKind => "restic"
    case RsyncKind => "rsync"
  }

  /** The switch on the configured transport name; None for the default
      branch. */
  function KindOf(name: string): Option<Kind> {
    if name == "custom" then Some(CustomKind)
    else if name == "rclone" then Some(RcloneKind)
    else if name == "rdiff-backup" then Some(RdiffBackupKind)
    else if name == "restic" then Some(ResticKind)
    else if name == "rsync" then Some(RsyncKind)
    else None
  }

  /** Exactly the five names are recognised, each as its own transport. */
  lemma KindNames(name: string, k: Kind)
    ensures KindOf(KindName(k)) == Some(k)
    ensures KindOf(name).Some? ==> KindName(KindOf(name).value) == name
  {
  }

  /** The constructor of the chosen transport: its configuration check,
      then a transport over the configuration and the dry-run flag. */
  function NewTransport(k: Kind, c: Config, dryRun: bool): (r: Result<Transport, Error>)
    ensures r.Success? ==> r.value == Transport(c, dryRun)
  {
    match k
    case CustomKind => Custom.New(c, dryRun)
    case RcloneKind => Rclone.New(c, dryRun)
    case RdiffBackupKind => RdiffBackup.New(c, dryRun)
    case ResticKind => Restic.New(c, dryRun)
    case RsyncKind => Rsync.New(c, dryRun)
  }

  /** transp.Run for the chosen transport: whatever it runs is appended to
      the trace, its temporary files are gone afterwards, and a dry run runs
      nothing. */
  method RunTransport(k: Kind, t: Transport, sys: System) returns (err: Option<Error>)
    requires sys.Valid()
    modifies sys`trace, sys`files, sys`serial, sys`outLog
    ensures sys.Valid()
    ensures sys.files == old(sys.files)
    ensures |old(sys.trace)| <= |sys.trace| && sys.trace[..|old(sys.trace)|] == old(sys.trace)
    ensures t.dryRun ==> sys.trace == old(sys.trace)
    ensures old(sys.serial) <= sys.serial
    ensures old(sys.outLog) <= sys.outLog && (t.dryRun ==> sys.outLog == old(sys.outLog))
  {
    match k
    case CustomKind => err := Custom.Run(t, sys);
    case RcloneKind => err := Rclone.Run(t, sys);
    case RdiffBackupKind => err := RdiffBackup.Run(t, sys);
    case ResticKind => err := Restic.Run(t, sys);
    case RsyncKind => err := Rsync.Run(t, sys);
  }

  /** Some events and the error they end in. */
  datatype Step = Step(events: seq<Event>, err: Option<Error>)

  /** The pre-command, when there is one and this is not a dry run. */
  function PreHook(c: Config, dryRun: bool, sys: System): seq<Event> {
    if c.preCommand != "" && !dryRun then [Cmd("PRE-COMMAND", sys.WithShell(c.preCommand))] else []
  }

  /** What follows the transport run, with the next command at trace
      position `at`: the fail-command after a failed transport, whose own
      failure is ignored so that the transport's error is the result; the
      post-command after a successful one, whose failure is an error. No
      hook runs in a dry run. */
  function AfterHooks(c: Config, dryRun: bool, sys: System, at: nat, terr: Option<Error>): Step {
    if terr.Some? then
      Step(if c.failCommand != "" && !dryRun then [Cmd("FAIL-COMMAND", sys.WithShell(c.failCommand))] else [], terr)
    else if c.postCommand != "" && !dryRun then
      Step([Cmd("POST-COMMAND", sys.WithShell(c.postCommand))],
           if sys.outcome(at).Some? then Some(PostCommandFailed(sys.ResultAt(at).value)) else None)
    else Step([], None)
  }

  /** The hooks around the transport, given the events `tr` and the error
      `terr` of the transport run: the pre-command first, and when it fails
      nothing else; then the transport; then the fail- or post-command. */
  function HookedRun(c: Config, dryRun: bool, sys: System, pos: nat,
                     tr: seq<Event>, terr: Option<Error>): Step
  {
    var pre := PreHook(c, dryRun, sys);
    if pre != [] && sys.outcome(pos).Some? then Step(pre, Some(PreCommandFailed(sys.ResultAt(pos).value)))
    else
      var after := AfterHooks(c, dryRun, sys, pos + |pre| + |tr|, terr);
      Step(pre + tr + after.events, after.err)
  }

  /** The transport switch of Run and, when a transport could be made,
      its hooked run. */
  function PickedRun(c: Config, dryRun: bool, sys: System, pos: nat,
                     tr: seq<Event>, terr: Option<Error>): Step
  {
    var kind := KindOf(c.transport);
    if kind.None? then Step([], Some(UnknownTransport(c.transport)))
    else
      var made := NewTransport(kind.value, c, dryRun);
      if made.Failure? then Step([], Some(TransportSetupFailed(c.transport, made.error)))
      else HookedRun(c, dryRun, sys, pos, tr, terr)
  }

  /** A source that must be a mount point and is not, or whose mount
      table cannot be read, stops the run before any command and before
      anything is registered. */
  lemma SourceGuard(c: Config, sys: System, pos: nat, serial: nat)
    requires c.sourceIsMountPoint
    requires sys.procMounts.None? || !Cli.MountedIn(sys.procMounts.value, c.sourceDir)
    ensures var a := Acquisition(c, sys, pos, serial);
      && a.events == [] && a.frame == [] && a.made.None?
      && a.err == Some(if sys.procMounts.None? then MountCheckFailed else SourceNotMounted(c.sourceDir))
  {
  }

  /** The cleanup runs fsck first and tune2fs only after a successful fsck,
      and succeeds exactly when it is off or both commands succeed. */
  lemma CleanupOrder(c: Config, sys: System, pos: nat)
    ensures var p := CleanPhase(c.fsCleanup, c.destDev, c.destDir, sys, pos);
      && |p.events| <= 2
      && (p.events != [] ==> c.fsCleanup && p.events[0] == Cmd("FS_CLEANUP", FsckArgv(c.destDev)))
      && (|p.events| == 2 ==> sys.outcome(pos).None? && p.events[1] == Cmd("FS_CLEANUP", TunefsArgv(c.destDev)))
      && (p.err.None? <==> !c.fsCleanup || (sys.outcome(pos).None? && sys.outcome(pos + 1).None?))
  {
  }

  /** The mount teardown removes exactly its mount point; the LUKS
      teardown removes none. */
  lemma FramesRemove(id: nat)
    ensures RemovedDirs(MountFrame(id)) == {id}
    ensures RemovedDirs(LuksFrame) == {}
    ensures RemovedDirs(LuksFrame + MountFrame(id)) == {id}
  {
    var m := MountFrame(id);
    assert m[..2] == [RemoveDir(id), Unmount];
    assert m[..2][..1] == [RemoveDir(id)];
    assert m[..2][..1][..0] == [];
    assert RemovedDirs(m[..2][..1]) == {id};
    assert RemovedDirs(m[..2]) == {id};
    assert m[..|m| - 1] == m[..2];
    assert LuksFrame[..1] == [LuksClose];
    assert LuksFrame[..1][..0] == [];
    RemovedDirsSplit(LuksFrame, m);
  }

  /** Whether the LUKS step opens the device: a LUKS destination whose
      mapper device does not exist yet, and whose open command, at trace
      position `pos`, succeeds. */
  predicate LuksOpened(c: Config, sys: System, pos: nat) {
    c.luksDestDev != "" && !sys.present(MapperPath(c.name)) && sys.outcome(pos).None?
  }

  /** The defer stack after the device steps: the LUKS teardown when the
      device was luksOpen, then the mount teardown when it was mounted. */
  function Registered(luksOpen: bool, mounted: bool, id: nat): seq<Deferred> {
    (if luksOpen then LuksFrame else []) + (if mounted then MountFrame(id) else [])
  }

  /** Only the mount teardown removes a directory, its own mount point, and
      only the LUKS teardown closes the device. */
  lemma RegisteredParts(luksOpen: bool, mounted: bool, id: nat)
    ensures RemovedDirs(Registered(luksOpen, mounted, id)) == (if mounted then {id} else {})
    ensures LuksClose in Registered(luksOpen, mounted, id) <==> luksOpen
  {
    FramesRemove(id);
    assert LuksClose !in MountFrame(id);
    var r := Registered(luksOpen, mounted, id);
    if !mounted {
      assert r == (if luksOpen then LuksFrame else []);
    } else if !luksOpen {
      assert r == MountFrame(id);
    }
  }

  /** The LUKS step registers the close exactly when it opened the
      device, and it fails exactly when a LUKS destination was not opened. */
  lemma LuksPhaseFrame(c: Config, sys: System, pos: nat)
    ensures var p := LuksPhase(c, sys, pos);
      && p.made.None?
      && p.frame == (if LuksOpened(c, sys, pos) then LuksFrame else [])
      && (p.err.None? <==> LuksOpened(c, sys, pos) || c.luksDestDev == "")
  {
  }

  /** The LUKS step runs at most the open, as its only command when it
      opened the device, which then becomes the mapper device. */
  lemma LuksPhaseDevice(c: Config, sys: System, pos: nat)
    ensures var p := LuksPhase(c, sys, pos);
      && |p.events| == (if c.luksDestDev != "" && !sys.present(MapperPath(c.name)) then 1 else 0)
      && p.dir == c.destDir
      && p.dev == (if LuksOpened(c, sys, pos) then MapperPath(c.name) else c.destDev)
      && (LuksOpened(c, sys, pos) ==> p.events == [Cmd("LUKS_OPEN", LuksOpenArgv(c))])
      && (p.err.None? <==> LuksOpened(c, sys, pos) || c.luksDestDev == "")
  {
  }

  /** The destination preparation makes a mount point only for a device
      destination, and it registers the mount teardown exactly when it
      succeeds after making one. */
  lemma PrepareDestFrame(fsCleanup: bool, dev: string, dir: string, sys: System, pos: nat, serial: nat)
    ensures var p := PrepareDest(fsCleanup, dev, dir, sys, pos, serial);
      && p.frame == (if p.err.None? && p.made.Some? then MountFrame(serial) else [])
      && (p.made.Some? ==> p.made.value == serial && dev != "")
      && (p.err.None? ==> (p.made.Some? <==> dev != ""))
  {
  }

  /** After the destination preparation the device is unchanged, and after
      a successful mount the directory is the new mount point. */
  lemma PrepareDestDevice(fsCleanup: bool, dev: string, dir: string, sys: System, pos: nat, serial: nat)
    ensures var p := PrepareDest(fsCleanup, dev, dir, sys, pos, serial);
      && p.dev == dev
      && p.dir == (if p.err.None? && dev != "" then sys.tempName(serial) else dir)
  {
  }

  /** A mount point the destination preparation made but did not register
      for removal belongs to a failed mount, its last command. */
  lemma PrepareDestLeaves(fsCleanup: bool, dev: string, dir: string, sys: System, pos: nat, serial: nat)
    ensures var p := PrepareDest(fsCleanup, dev, dir, sys, pos, serial);
      p.made.Some? && p.err.Some? ==>
        && p.events != []
        && p.events[|p.events| - 1] == Cmd("MOUNT", MountArgv(dev, sys.tempName(serial)))
        && sys.outcome(pos + |p.events| - 1).Some?
        && p.err == Some(MountFailed(dev, sys.ResultAt(pos + |p.events| - 1).value))
  {
  }

  /** Every command of the destination preparation but the last succeeded,
      and all did when it succeeded. */
  lemma PrepareDestStops(fsCleanup: bool, dev: string, dir: string, sys: System, pos: nat, serial: nat)
    ensures var p := PrepareDest(fsCleanup, dev, dir, sys, pos, serial);
      forall i | pos <= i < pos + |p.events| - 1 :: sys.outcome(i).None?
    ensures var p := PrepareDest(fsCleanup, dev, dir, sys, pos, serial);
      p.err.None? ==> forall i | pos <= i < pos + |p.events| :: sys.outcome(i).None?
  {
    var clean := CleanPhase(fsCleanup, dev, dir, sys, pos);
    assert |clean.events| <= 2;
  }

  /** Commands that stop at the first failure, run after at most one
      command that succeeded, still stop at the first failure. */
  lemma StopsAfterOne(sys: System, pos: nat, first: nat, rest: nat, restOk: bool)
    requires first <= 1 && (first == 1 ==> sys.outcome(pos).None?)
    requires forall i | pos + first <= i < pos + first + rest - 1 :: sys.outcome(i).None?
    requires restOk ==> forall i | pos + first <= i < pos + first + rest :: sys.outcome(i).None?
    ensures forall i | pos <= i < pos + first + rest - 1 :: sys.outcome(i).None?
    ensures restOk ==> forall i | pos <= i < pos + first + rest :: sys.outcome(i).None?
  {
  }

  /** The commands of the device steps stop at the first failure. */
  lemma OpenAndPrepareStops(c: Config, sys: System, pos: nat, serial: nat)
    ensures var a := OpenAndPrepare(c, sys, pos, serial);
      forall i | pos <= i < pos + |a.events| - 1 :: sys.outcome(i).None?
    ensures var a := OpenAndPrepare(c, sys, pos, serial);
      a.err.None? ==> forall i | pos <= i < pos + |a.events| :: sys.outcome(i).None?
  {
    var luks := LuksPhase(c, sys, pos);
    LuksPhaseDevice(c, sys, pos);
    OpenAndPrepareSplit(c, sys, pos, serial);
    if luks.err.None? {
      var at := pos + |luks.events|;
      var dest := PrepareDest(c.fsCleanup, luks.dev, luks.dir, sys, at, serial);
      PrepareDestStops(c.fsCleanup, luks.dev, luks.dir, sys, at, serial);
      assert |luks.events| == 1 ==> sys.outcome(pos).None?;
      StopsAfterOne(sys, pos, |luks.events|, |dest.events|, dest.err.None?);
    }
  }

  /** The commands of the acquisition stop at the first failure: every
      command but the last succeeded, and all of them did when the
      acquisition succeeded. */
  lemma AcquisitionStopsAtFirstFailure(c: Config, sys: System, pos: nat, serial: nat)
    ensures var a := Acquisition(c, sys, pos, serial);
      forall i | pos <= i < pos + |a.events| - 1 :: sys.outcome(i).None?
    ensures var a := Acquisition(c, sys, pos, serial);
      a.err.None? ==> forall i | pos <= i < pos + |a.events| :: sys.outcome(i).None?
  {
    if SourceCheck(c, sys.procMounts).None? {
      OpenAndPrepareStops(c, sys, pos, serial);
    }
  }

  /** The first event of a concatenation comes from its first part when
      that has one, and the last from its second part when that has one. */
  lemma AppendEnds(l: seq<Event>, d: seq<Event>)
    ensures l != [] ==> (l + d)[0] == l[0]
    ensures d != [] ==> (l + d)[|l + d| - 1] == d[|d| - 1]
  {
  }

  /** The device steps after a successful LUKS step. */
  lemma OpenAndPrepareThen(c: Config, sys: System, pos: nat, serial: nat, luks: Phase, dest: Phase)
    requires luks == LuksPhase(c, sys, pos) && luks.err.None?
    requires dest == PrepareDest(c.fsCleanup, luks.dev, luks.dir, sys, pos + |luks.events|, serial)
    ensures OpenAndPrepare(c, sys, pos, serial) == Then(luks, dest)
  {
  }

  /** The device steps field by field: the LUKS step alone when it
      failed, otherwise the LUKS step followed by the preparation. */
  lemma OpenAndPrepareSplit(c: Config, sys: System, pos: nat, serial: nat)
    ensures var luks := LuksPhase(c, sys, pos);
      var a := OpenAndPrepare(c, sys, pos, serial);
      luks.err.Some? ==> a.err == luks.err && a.made == luks.made && a.frame == luks.frame && |a.events| == |luks.events|
    ensures var luks := LuksPhase(c, sys, pos);
      var dest := PrepareDest(c.fsCleanup, luks.dev, luks.dir, sys, pos + |luks.events|, serial);
      var a := OpenAndPrepare(c, sys, pos, serial);
      luks.err.None? ==>
        a.err == dest.err && a.made == dest.made && a.frame == luks.frame + dest.frame &&
        |a.events| == |luks.events| + |dest.events|
  {
  }

  /** The device steps' events, device and directory: those of the LUKS
      step alone when it failed, otherwise those of the preparation after
      the LUKS step's events. */
  lemma OpenAndPrepareSplitDevice(c: Config, sys: System, pos: nat, serial: nat)
    ensures var luks := LuksPhase(c, sys, pos);
      var a := OpenAndPrepare(c, sys, pos, serial);
      luks.err.Some? ==> a.events == luks.events && a.dev == luks.dev && a.dir == luks.dir
    ensures var luks := LuksPhase(c, sys, pos);
      var dest := PrepareDest(c.fsCleanup, luks.dev, luks.dir, sys, pos + |luks.events|, serial);
      var a := OpenAndPrepare(c, sys, pos, serial);
      luks.err.None? ==> a.events == luks.events + dest.events && a.dev == dest.dev && a.dir == dest.dir
  {
  }

  /** The defer stack the device steps leave: the LUKS teardown when the
      open succeeded, then the mount teardown when the whole preparation
      succeeded and made a mount point. */
  lemma OpenAndPrepareFrame(c: Config, sys: System, pos: nat, serial: nat)
    ensures var a := OpenAndPrepare(c, sys, pos, serial);
      a.frame == Registered(LuksOpened(c, sys, pos), a.err.None? && a.made.Some?, serial)
    ensures var a := OpenAndPrepare(c, sys, pos, serial);
      a.made.Some? ==> a.made.value == serial
  {
    var luks := LuksPhase(c, sys, pos);
    LuksPhaseFrame(c, sys, pos);
    OpenAndPrepareSplit(c, sys, pos, serial);
    if luks.err.None? {
      PrepareDestFrame(c.fsCleanup, luks.dev, luks.dir, sys, pos + |luks.events|, serial);
    }
  }

  /** When the LUKS step opens the device, the open is the first command. */
  lemma OpenAndPrepareOpensFirst(c: Config, sys: System, pos: nat, serial: nat)
    ensures var a := OpenAndPrepare(c, sys, pos, serial);
      LuksOpened(c, sys, pos) ==> a.events != [] && a.events[0] == Cmd("LUKS_OPEN", LuksOpenArgv(c))
  {
    var luks := LuksPhase(c, sys, pos);
    LuksPhaseDevice(c, sys, pos);
    OpenAndPrepareSplitDevice(c, sys, pos, serial);
    if luks.err.None? {
      var dest := PrepareDest(c.fsCleanup, luks.dev, luks.dir, sys, pos + |luks.events|, serial);
      AppendEnds(luks.events, dest.events);
    }
  }

  /** The device steps after success (see SuccessfulAcquisition). */
  lemma OpenAndPrepareSucceeded(c: Config, sys: System, pos: nat, serial: nat)
    requires OpenAndPrepare(c, sys, pos, serial).err.None?
    ensures var a := OpenAndPrepare(c, sys, pos, serial);
      && a.dev == (if c.luksDestDev != "" then MapperPath(c.name) else c.destDev)
      && a.dir == (if a.dev != "" then sys.tempName(serial) else c.destDir)
      && a.made == (if a.dev != "" then Some(serial) else None)
  {
    var luks := LuksPhase(c, sys, pos);
    LuksPhaseFrame(c, sys, pos);
    LuksPhaseDevice(c, sys, pos);
    OpenAndPrepareSplit(c, sys, pos, serial);
    OpenAndPrepareSplitDevice(c, sys, pos, serial);
    PrepareDestFrame(c.fsCleanup, luks.dev, luks.dir, sys, pos + |luks.events|, serial);
    PrepareDestDevice(c.fsCleanup, luks.dev, luks.dir, sys, pos + |luks.events|, serial);
  }

  /** What the acquisition registers: the LUKS teardown exactly when the
      LUKS open ran, as the first command, and succeeded; then the mount
      teardown exactly when every step succeeded and a mount point was
      made. The mount point is removed at the end exactly when the
      acquisition made it and succeeded, so a mount point whose mount
      failed is left behind. */
  lemma AcquisitionRegistrations(c: Config, sys: System, pos: nat, serial: nat)
    ensures var a := Acquisition(c, sys, pos, serial);
      var luksOpen := SourceCheck(c, sys.procMounts).None? && LuksOpened(c, sys, pos);
      && a.frame == Registered(luksOpen, a.err.None? && a.made.Some?, serial)
      && (LuksClose in a.frame <==> luksOpen)
      && (luksOpen ==> a.events != [] && a.events[0] == Cmd("LUKS_OPEN", LuksOpenArgv(c)))
    ensures var a := Acquisition(c, sys, pos, serial);
      a.made.Some? ==> a.made == Some(serial) && RemovedDirs(a.frame) == (if a.err.None? then {serial} else {})
    ensures var a := Acquisition(c, sys, pos, serial);
      a.made.None? ==> RemovedDirs(a.frame) == {}
  {
    var a := Acquisition(c, sys, pos, serial);
    var luksOpen := SourceCheck(c, sys.procMounts).None? && LuksOpened(c, sys, pos);
    if SourceCheck(c, sys.procMounts).None? {
      OpenAndPrepareFrame(c, sys, pos, serial);
      OpenAndPrepareOpensFirst(c, sys, pos, serial);
    } else {
      assert a.frame == [] + [];
    }
    RegisteredParts(luksOpen, a.err.None? && a.made.Some?, serial);
  }

  /** What Run's teardown leaves of the acquisition: the temporary directory
      it made stays exactly when the mount on it failed, so that its removal
      was never registered, or when that removal fails, as it does while the
      directory is still mounted after a failed unmount. */
  lemma AcquisitionLeaves(c: Config, sys: System, pos: nat, serial: nat)
    ensures var a := Acquisition(c, sys, pos, serial);
      Made(a.made) - Removed(a.frame, sys.removeFails) ==
        (if a.made.Some? && (a.err.Some? || sys.removeFails(serial)) then {serial} else {})
  {
    AcquisitionRegistrations(c, sys, pos, serial);
  }

  /** After a successful acquisition a LUKS destination is reached through
      its mapper device, and a device destination is backed up into the
      mount point the acquisition made; without a device the destination
      directory is the configured one. */
  lemma SuccessfulAcquisition(c: Config, sys: System, pos: nat, serial: nat)
    requires Acquisition(c, sys, pos, serial).err.None?
    ensures var a := Acquisition(c, sys, pos, serial);
      && a.dev == (if c.luksDestDev != "" then MapperPath(c.name) else c.destDev)
      && a.dir == (if a.dev != "" then sys.tempName(serial) else c.destDir)
      && a.made == (if a.dev != "" then Some(serial) else None)
  {
    OpenAndPrepareSucceeded(c, sys, pos, serial);
  }

  /** The hooks: none in a dry run; a failed pre-command ends the run
      before the transport; after a failed transport the result is the
      transport's error whatever the fail-command does; the post-command
      runs last and only after a successful transport; and the run
      succeeds exactly when the pre-command, the transport and the
      post-command all do. */
  lemma HookOrder(c: Config, dryRun: bool, sys: System, pos: nat, tr: seq<Event>, terr: Option<Error>)
    ensures dryRun ==> HookedRun(c, dryRun, sys, pos, tr, terr) == Step(tr, terr)
    ensures var s := HookedRun(c, dryRun, sys, pos, tr, terr);
      var pre := PreHook(c, dryRun, sys);
      pre != [] && sys.outcome(pos).Some? ==> s.events == pre && s.err.Some? && s.err.value.PreCommandFailed?
    ensures var s := HookedRun(c, dryRun, sys, pos, tr, terr);
      var pre := PreHook(c, dryRun, sys);
      (pre == [] || sys.outcome(pos).None?) && terr.Some? ==>
        && s.err == terr && s.events[..|pre| + |tr|] == pre + tr
        && |s.events| == |pre| + |tr| + (if c.failCommand != "" && !dryRun then 1 else 0)
    ensures var s := HookedRun(c, dryRun, sys, pos, tr, terr);
      var pre := PreHook(c, dryRun, sys);
      (pre == [] || sys.outcome(pos).None?) && terr.None? && c.postCommand != "" && !dryRun ==>
        s.events == pre + tr + [Cmd("POST-COMMAND", sys.WithShell(c.postCommand))]
    ensures var s := HookedRun(c, dryRun, sys, pos, tr, terr);
      var pre := PreHook(c, dryRun, sys);
      s.err.None? <==>
        && (pre == [] || sys.outcome(pos).None?) && terr.None?
        && (c.postCommand == "" || dryRun || sys.outcome(pos + |pre| + |tr|).None?)
  {
    var pre := PreHook(c, dryRun, sys);
    var after := AfterHooks(c, dryRun, sys, pos + |pre| + |tr|, terr);
    assert (pre + tr + after.events)[..|pre| + |tr|] == pre + tr;
    if dryRun {
      assert pre + tr + after.events == tr;
    }
  }

  /** Backup: one backup run over a configuration. The configuration is
      updated in place as devices are luksOpen and mounted. */
  class Backup {
    var config: Config
    const dryRun: bool

    /** NewBackup. The source reads the dry-run flag from the command-line
        options rather than from its argument; its only caller passes that
        same flag. */
    constructor (config: Config, dryRun: bool)
      ensures this.config == config && this.dryRun == dryRun
    {
      this.config := config;
      this.dryRun := dryRun;
    }

    /** The dry-run placeholders of Run. */
    method SetDryRunValues()
      modifies this`config
      ensures config == DryRunConfig(old(config))
    {
      if config.luksDestDev != "" {
        config := config.(destDev := DummyDestDev);
      }
      if config.destDev != "" {
        config := config.(destDir := DummyDestDir);
      }
    }

    /** openLuks: refuse a mapper device that already exists, otherwise run
        cryptsetup and return the mapper device. */
    method OpenLuks(sys: System) returns (r: Result<string, Error>)
      modifies sys`trace
      ensures var mapper := MapperPath(config.name);
        sys.present(mapper) ==> r == Failure(MapperExists(mapper)) && sys.trace == old(sys.trace)
      ensures var mapper := MapperPath(config.name);
        var pos := |old(sys.trace)|;
        !sys.present(mapper) ==>
          && sys.trace == old(sys.trace) + [Cmd("LUKS_OPEN", LuksOpenArgv(config))]
          && (r.Success? <==> sys.outcome(pos).None?)
          && (r.Success? ==> r.value == mapper)
          && (r.Failure? ==> Some(r.error) == sys.ResultAt(pos))
    {
      var devfile := MapperPath(config.name);
      if sys.present(devfile) {
        return Failure(MapperExists(devfile));
      }
      var e := sys.Exec("LUKS_OPEN", LuksOpenArgv(config));
      if e.Some? {
        return Failure(e.value);
      }
      r := Success(devfile);
    }

    /** closeLuks: close the current destination device. */
    method CloseLuks(sys: System) returns (err: Option<Error>)
      modifies sys`trace
      ensures sys.trace == old(sys.trace) + [Cmd("LUKS_CLOSE", LuksCloseArgv(config.destDev))]
      ensures err == sys.ResultAt(|old(sys.trace)|)
    {
      err := sys.Exec("LUKS_CLOSE", LuksCloseArgv(config.destDev));
    }

    /** cleanFilesystem: a read-only fsck, whose failure is reported with its
        command line, then tune2fs, whose failure is reported as it is. */
    method CleanFilesystem(sys: System) returns (err: Option<Error>)
      modifies sys`trace
      ensures var dev := config.destDev;
        var pos := |old(sys.trace)|;
        sys.outcome(pos).Some? ==>
          && sys.trace == old(sys.trace) + [Cmd("FS_CLEANUP", FsckArgv(dev))]
          && err == Some(FsckFailed(FsckArgv(dev), sys.ResultAt(pos).value))
      ensures var dev := config.destDev;
        var pos := |old(sys.trace)|;
        sys.outcome(pos).None? ==>
          && sys.trace == old(sys.trace) + [Cmd("FS_CLEANUP", FsckArgv(dev)), Cmd("FS_CLEANUP", TunefsArgv(dev))]
          && err == sys.ResultAt(pos + 1)
    {
      var e := sys.Exec("FS_CLEANUP", FsckArgv(config.destDev));
      if e.Some? {
        return Some(FsckFailed(FsckArgv(config.destDev), e.value));
      }
      err := sys.Exec("FS_CLEANUP", TunefsArgv(config.destDev));
    }

    /** mountDev: make a temporary mount point and mount the destination
        device on it; the token of the mount point is returned. A mount
        point whose mount fails is not removed. */
    method MountDev(sys: System) returns (r: Result<nat, Error>)
      requires sys.Valid()
      modifies sys`trace, sys`dirs, sys`serial
      ensures sys.Valid()
      ensures sys.tempFails(old(sys.serial)) ==>
        && r == Failure(TempDirFailed)
        && sys.trace == old(sys.trace) && sys.dirs == old(sys.dirs) && sys.serial == old(sys.serial)
      ensures var id := old(sys.serial);
        var pos := |old(sys.trace)|;
        !sys.tempFails(id) ==>
          && id !in old(sys.dirs) && sys.dirs == old(sys.dirs) + {id} && sys.serial == id + 1
          && sys.trace == old(sys.trace) + [Cmd("MOUNT", MountArgv(config.destDev, sys.tempName(id)))]
          && (r.Success? <==> sys.outcome(pos).None?)
          && (r.Success? ==> r.value == id)
          && (r.Failure? ==> Some(r.error) == sys.ResultAt(pos))
    {
      var tmp := sys.MkdirTemp();
      if tmp.Failure? {
        return Failure(tmp.error);
      }
      var e := sys.Exec("MOUNT", MountArgv(config.destDev, sys.tempName(tmp.value)));
      if e.Some? {
        return Failure(e.value);
      }
      r := Success(tmp.value);
    }

    /** umountDev: unmount the current destination device. */
    method UmountDev(sys: System) returns (err: Option<Error>)
      modifies sys`trace
      ensures sys.trace == old(sys.trace) + [Cmd("UMOUNT", UmountArgv(config.destDev))]
      ensures err == sys.ResultAt(|old(sys.trace)|)
    {
      err := sys.Exec("UMOUNT", UmountArgv(config.destDev));
    }

    /** The mount-point check of Run. */
    method CheckSource(sys: System) returns (err: Option<Error>)
      ensures err == SourceCheck(config, sys.procMounts)
    {
      if !config.sourceIsMountPoint {
        return None;
      }
      var mounted := Cli.IsMounted(sys.procMounts, config.sourceDir);
      if mounted.Failure? {
        return Some(MountCheckFailed);
      }
      if !mounted.value {
        return Some(SourceNotMounted(config.sourceDir));
      }
      err := None;
    }

    /** The LUKS step of Run; `p` is the phase it carries out. */
    method LuksStep(sys: System) returns (err: Option<Error>, frame: seq<Deferred>, ghost p: Phase)
      modifies this`config, sys`trace
      ensures p == LuksPhase(old(config), sys, |old(sys.trace)|)
      ensures sys.trace == old(sys.trace) + p.events && err == p.err
      ensures frame == p.frame && config == Applied(old(config), p)
    {
      p := LuksPhase(config, sys, |sys.trace|);
      frame := [];
      if config.luksDestDev == "" {
        return None, [], p;
      }
      var devfile := OpenLuks(sys);
      if devfile.Failure? {
        return Some(LuksOpenFailed(config.luksDestDev, devfile.error)), [], p;
      }
      config := config.(destDev := devfile.value);
      err, frame := None, LuksFrame;
    }

    /** The file-system cleanup step of Run. */
    method CleanStep(sys: System) returns (err: Option<Error>, ghost p: Phase)
      modifies sys`trace
      ensures p == CleanPhase(config.fsCleanup, config.destDev, config.destDir, sys, |old(sys.trace)|)
      ensures sys.trace == old(sys.trace) + p.events && err == p.err
    {
      p := CleanPhase(config.fsCleanup, config.destDev, config.destDir, sys, |sys.trace|);
      if !config.fsCleanup {
        return None, p;
      }
      var e := CleanFilesystem(sys);
      if e.Some? {
        return Some(CleanupFailed(config.destDev, e.value)), p;
      }
      err := None;
    }

    /** The mount step of Run. */
    method MountStep(sys: System) returns (err: Option<Error>, frame: seq<Deferred>, ghost p: Phase)
      requires sys.Valid()
      modifies this`config, sys`trace, sys`dirs, sys`serial
      ensures sys.Valid()
      ensures p == MountPhase(old(config).destDev, old(config).destDir, sys, |old(sys.trace)|, old(sys.serial))
      ensures sys.trace == old(sys.trace) + p.events && err == p.err
      ensures frame == p.frame && config == Applied(old(config), p)
      ensures sys.dirs == old(sys.dirs) + Made(p.made)
      ensures sys.serial == old(sys.serial) + (if p.made.Some? then 1 else 0)
    {
      p := MountPhase(config.destDev, config.destDir, sys, |sys.trace|, sys.serial);
      frame := [];
      if config.destDev == "" {
        return None, [], p;
      }
      var tmpdir := MountDev(sys);
      if tmpdir.Failure? {
        return Some(MountFailed(config.destDev, tmpdir.error)), [], p;
      }
      config := config.(destDir := sys.tempName(tmpdir.value));
      err, frame := None, MountFrame(tmpdir.value);
    }

    /** The cleanup and the mount of Run. */
    method Prepare(sys: System) returns (err: Option<Error>, frame: seq<Deferred>, ghost p: Phase)
      requires sys.Valid()
      modifies this`config, sys`trace, sys`dirs, sys`serial
      ensures sys.Valid()
      ensures p == PrepareDest(old(config).fsCleanup, old(config).destDev, old(config).destDir, sys, |old(sys.trace)|, old(sys.serial))
      ensures sys.trace == old(sys.trace) + p.events && err == p.err
      ensures frame == p.frame && config == Applied(old(config), p)
      ensures sys.dirs == old(sys.dirs) + Made(p.made)
      ensures sys.serial == old(sys.serial) + (if p.made.Some? then 1 else 0)
    {
      frame := [];
      ghost var clean;
      err, clean := CleanStep(sys);
      if err.Some? {
        p := clean;
        return;
      }
      ghost var mount;
      err, frame, mount := MountStep(sys);
      p := Then(clean, mount);
      AppendAssoc(old(sys.trace), clean.events, mount.events);
    }

    /** The LUKS step of Run, then the cleanup and the mount. */
    method OpenThenPrepare(sys: System) returns (err: Option<Error>, stack: seq<Deferred>, ghost a: Phase)
      requires sys.Valid()
      modifies this`config, sys`trace, sys`dirs, sys`serial
      ensures sys.Valid()
      ensures a == OpenAndPrepare(old(config), sys, |old(sys.trace)|, old(sys.serial))
      ensures sys.trace == old(sys.trace) + a.events && err == a.err
      ensures stack == a.frame && config == Applied(old(config), a)
      ensures sys.dirs == old(sys.dirs) + Made(a.made)
      ensures sys.serial == old(sys.serial) + (if a.made.Some? then 1 else 0)
    {
      ghost var luks;
      err, stack, luks := LuksStep(sys);
      if err.Some? {
        a := luks;
        return;
      }
      ghost var at := |old(sys.trace)| + |luks.events|;
      assert |sys.trace| == at && sys.serial == old(sys.serial);
      var frame;
      ghost var dest;
      err, frame, dest := Prepare(sys);
      stack := stack + frame;
      a := Then(luks, dest);
      OpenAndPrepareThen(old(config), sys, |old(sys.trace)|, old(sys.serial), luks, dest);
      AppendAssoc(old(sys.trace), luks.events, dest.events);
    }

    /** Everything Run does before it picks the transport, outside a dry
        run: the result and the registrations are those of Acquisition. */
    method Acquire(sys: System) returns (err: Option<Error>, stack: seq<Deferred>, ghost a: Phase)
      requires sys.Valid()
      modifies this`config, sys`trace, sys`dirs, sys`serial
      ensures sys.Valid()
      ensures a == Acquisition(old(config), sys, |old(sys.trace)|, old(sys.serial))
      ensures sys.trace == old(sys.trace) + a.events && err == a.err
      ensures stack == a.frame && config == Applied(old(config), a)
      ensures sys.dirs == old(sys.dirs) + Made(a.made)
      ensures sys.serial == old(sys.serial) + (if a.made.Some? then 1 else 0)
    {
      stack := [];
      err := CheckSource(sys);
      if err.Some? {
        a := Phase([], err, config.destDev, config.destDir, [], None);
        return;
      }
      err, stack, a := OpenThenPrepare(sys);
    }

    /** The transport run and what follows it. */
    method TransportThenHooks(k: Kind, t: Transport, sys: System)
      returns (err: Option<Error>, ghost tr: seq<Event>, ghost terr: Option<Error>)
      requires sys.Valid()
      requires t.dryRun == dryRun
      modifies sys`trace, sys`files, sys`serial, sys`outLog
      ensures sys.Valid()
      ensures sys.files == old(sys.files)
      ensures dryRun ==> tr == []
      ensures old(sys.serial) <= sys.serial
      ensures old(sys.outLog) <= sys.outLog && (dryRun ==> sys.outLog == old(sys.outLog))
      ensures var after := AfterHooks(config, dryRun, sys, |old(sys.trace)| + |tr|, terr);
        sys.trace == old(sys.trace) + tr + after.events && err == after.err
    {
      var backupErr := RunTransport(k, t, sys);
      tr, terr := sys.trace[|old(sys.trace)|..], backupErr;
      assert sys.trace == old(sys.trace) + tr;
      if backupErr.Some? {
        if config.failCommand != "" && !dryRun {
          var _ := sys.Exec("FAIL-COMMAND", sys.WithShell(config.failCommand));
        }
        return backupErr, tr, terr;
      }
      if config.postCommand != "" && !dryRun {
        var e := sys.Exec("POST-COMMAND", sys.WithShell(config.postCommand));
        if e.Some? {
          return Some(PostCommandFailed(e.value)), tr, terr;
        }
      }
      err := None;
    }

    /** The hooks around the transport run: `tr` and `terr` are what the
        transport did, and the events and the error are those of HookedRun. */
    method Hooked(k: Kind, t: Transport, sys: System)
      returns (err: Option<Error>, ghost tr: seq<Event>, ghost terr: Option<Error>)
      requires sys.Valid()
      requires t.dryRun == dryRun
      modifies sys`trace, sys`files, sys`serial, sys`outLog
      ensures sys.Valid()
      ensures sys.files == old(sys.files)
      ensures dryRun ==> tr == []
      ensures old(sys.serial) <= sys.serial
      ensures old(sys.outLog) <= sys.outLog && (dryRun ==> sys.outLog == old(sys.outLog))
      ensures var s := HookedRun(config, dryRun, sys, |old(sys.trace)|, tr, terr);
        sys.trace == old(sys.trace) + s.events && err == s.err
    {
      tr, terr := [], None;
      if config.preCommand != "" && !dryRun {
        var e := sys.Exec("PRE-COMMAND", sys.WithShell(config.preCommand));
        if e.Some? {
          return Some(PreCommandFailed(e.value)), tr, terr;
        }
      }
      ghost var pre := PreHook(config, dryRun, sys);
      assert sys.trace == old(sys.trace) + pre;
      err, tr, terr := TransportThenHooks(k, t, sys);
      ghost var after := AfterHooks(config, dryRun, sys, |old(sys.trace)| + |pre| + |tr|, terr);
      assert sys.trace == old(sys.trace) + pre + tr + after.events;
      AppendAssoc(old(sys.trace), pre, tr);
      AppendAssoc(old(sys.trace), pre + tr, after.events);
    }

    /** The transport switch of Run and the hooked transport run. */
    method PickAndRun(sys: System)
      returns (err: Option<Error>, ghost middle: seq<Event>, ghost tr: seq<Event>, ghost terr: Option<Error>)
      requires sys.Valid()
      modifies sys`trace, sys`files, sys`serial, sys`outLog
      ensures sys.Valid()
      ensures sys.files == old(sys.files)
      ensures sys.trace == old(sys.trace) + middle
      ensures Step(middle, err) == PickedRun(config, dryRun, sys, |old(sys.trace)|, tr, terr)
      ensures dryRun ==> tr == [] && middle == []
      ensures old(sys.serial) <= sys.serial
      ensures old(sys.outLog) <= sys.outLog && (dryRun ==> sys.outLog == old(sys.outLog))
    {
      middle, tr, terr := [], [], None;
      var kind := KindOf(config.transport);
      if kind.None? {
        return Some(UnknownTransport(config.transport)), middle, tr, terr;
      }
      var transp := NewTransport(kind.value, config, dryRun);
      if transp.Failure? {
        return Some(TransportSetupFailed(config.transport, transp.error)), middle, tr, terr;
      }
      err, tr, terr := Hooked(kind.value, transp.value, sys);
      middle := sys.trace[|old(sys.trace)|..];
      assert sys.trace == old(sys.trace) + middle;
    }

    /** Backup.Run. Outside a dry run the steps before the transport are
        those of Acquisition (`acq`); then the transport is picked and run
        between its hooks (`middle`, where `tr` and `terr` are what the
        transport did); and however Run ends, the actions the acquisition
        registered are undone, last registered first. A dry run only sets
        the placeholders and runs the transport in dry-run mode, which runs
        nothing. */
    method Run(sys: System)
      returns (err: Option<Error>, ghost acq: Phase, ghost middle: seq<Event>,
               ghost tr: seq<Event>, ghost terr: Option<Error>)
      requires sys.Valid()
      modifies this`config, sys`trace, sys`files, sys`dirs, sys`serial, sys`outLog
      ensures sys.Valid()
      ensures sys.files == old(sys.files)
      ensures dryRun ==>
        && config == DryRunConfig(old(config)) && acq == Phase([], None, config.destDev, config.destDir, [], None)
        && sys.trace == old(sys.trace) && sys.dirs == old(sys.dirs)
      ensures !dryRun ==> acq == Acquisition(old(config), sys, |old(sys.trace)|, old(sys.serial)) && config == Applied(old(config), acq)
      ensures sys.trace == old(sys.trace) + acq.events + middle + TeardownEvents(acq.frame, config.destDev, sys.tempName)
      ensures sys.dirs == old(sys.dirs) + Made(acq.made) - Removed(acq.frame, sys.removeFails)
      ensures acq.err.Some? ==> err == acq.err && middle == []
      ensures acq.err.None? ==> Step(middle, err) == PickedRun(config, dryRun, sys, |old(sys.trace)| + |acq.events|, tr, terr)
      ensures old(sys.serial) + (if acq.made.Some? then 1 else 0) <= sys.serial
      ensures old(sys.outLog) <= sys.outLog && (dryRun ==> sys.outLog == old(sys.outLog))
    {
      var setupErr, stack;
      setupErr, stack, acq := Setup(sys);
      err, middle, tr, terr := Conclude(setupErr, stack, sys);
    }

    /** What Run does after the acquisition: a failed acquisition ends it
        with its error; otherwise the transport runs between its hooks. Either
        way the registered actions are undone last. */
    method Conclude(setupErr: Option<Error>, stack: seq<Deferred>, sys: System)
      returns (err: Option<Error>, ghost middle: seq<Event>, ghost tr: seq<Event>, ghost terr: Option<Error>)
      requires sys.Valid()
      modifies sys`trace, sys`files, sys`dirs, sys`serial, sys`outLog
      ensures sys.Valid()
      ensures sys.files == old(sys.files)
      ensures sys.trace == old(sys.trace) + middle + TeardownEvents(stack, config.destDev, sys.tempName)
      ensures sys.dirs == old(sys.dirs) - Removed(stack, sys.removeFails)
      ensures setupErr.Some? ==> err == setupErr && middle == []
      ensures setupErr.None? ==> Step(middle, err) == PickedRun(config, dryRun, sys, |old(sys.trace)|, tr, terr)
      ensures setupErr.None? && dryRun ==> middle == []
      ensures old(sys.serial) <= sys.serial
      ensures old(sys.outLog) <= sys.outLog && (dryRun ==> sys.outLog == old(sys.outLog))
    {
      middle, tr, terr := [], [], None;
      if setupErr.Some? {
        err := setupErr;
        Unwind(stack, sys);
        return;
      }
      err, middle, tr, terr := PickAndRun(sys);
      Unwind(stack, sys);
    }

    /** What Run does before the transport switch: the placeholders of a
        dry run, or else the acquisition. */
    method Setup(sys: System) returns (err: Option<Error>, stack: seq<Deferred>, ghost acq: Phase)
      requires sys.Valid()
      modifies this`config, sys`trace, sys`dirs, sys`serial
      ensures sys.Valid()
      ensures dryRun ==>
        && config == DryRunConfig(old(config)) && acq == Phase([], None, config.destDev, config.destDir, [], None)
        && sys.trace == old(sys.trace) && sys.dirs == old(sys.dirs)
      ensures !dryRun ==> acq == Acquisition(old(config), sys, |old(sys.trace)|, old(sys.serial)) && config == Applied(old(config), acq)
      ensures err == acq.err && stack == acq.frame
      ensures sys.trace == old(sys.trace) + acq.events
      ensures sys.dirs == old(sys.dirs) + Made(acq.made)
      ensures sys.serial == old(sys.serial) + (if acq.made.Some? then 1 else 0)
    {
      if dryRun {
        SetDryRunValues();
        return None, [], Phase([], None, config.destDev, config.destDir, [], None);
      }
      err, stack, acq := Acquire(sys);
    }

    /** One deferred action. */
    method RunDeferred(d: Deferred, sys: System)
      modifies sys`trace, sys`dirs
      ensures sys.trace == old(sys.trace) + [DeferredEvent(d, config.destDev, sys.tempName)]
      ensures sys.dirs == old(sys.dirs) - (if d.RemoveDir? && !sys.removeFails(d.id) then {d.id} else {})
    {
      match d
      case LuksClose =>
        var _ := CloseLuks(sys);
      case Sleep =>
        sys.Sleep(Settle);
      case Unmount =>
        var _ := UmountDev(sys);
      case RemoveDir(id) =>
        var _ := sys.RemoveDir(id);
    }

    /** Leaving Run: the registered actions run, last registered first, and
        their errors are dropped. */
    method Unwind(stack: seq<Deferred>, sys: System)
      requires sys.Valid()
      modifies sys`trace, sys`dirs
      ensures sys.Valid()
      ensures sys.trace == old(sys.trace) + TeardownEvents(stack, config.destDev, sys.tempName)
      ensures sys.dirs == old(sys.dirs) - Removed(stack, sys.removeFails)
    {
      var i := |stack|;
      while i > 0
        invariant 0 <= i <= |stack|
        invariant sys.Valid()
        invariant sys.trace == old(sys.trace) + TeardownEvents(stack[i..], config.destDev, sys.tempName)
        invariant sys.dirs == old(sys.dirs) - Removed(stack[i..], sys.removeFails)
      {
        i := i - 1;
        RunDeferred(stack[i], sys);
        UnwindStep(stack, i, config.destDev, sys.tempName);
      }
    }
  }

  lemma AppendAssoc(a: seq<Event>, b: seq<Event>, c: seq<Event>)
    ensures a + b + c == a + (b + c)
  {
  }

  /** One more action of a defer stack, taken from below the part already
      run, comes after it. */
  lemma UnwindStep(stack: seq<Deferred>, i: nat, dev: string, names: nat -> string)
    requires i < |stack|
    ensures TeardownEvents(stack[i..], dev, names) ==
      TeardownEvents(stack[i + 1..], dev, names) + [DeferredEvent(stack[i], dev, names)]
    ensures RemovedDirs(stack[i..]) ==
      RemovedDirs(stack[i + 1..]) + (if stack[i].RemoveDir? then {stack[i].id} else {})
  {
    assert stack[i..] == [stack[i]] + stack[i + 1..];
    TeardownReverses([stack[i]], stack[i + 1..], dev, names);
    assert [stack[i]][..0] == [];
    RemovedDirsSplit([stack[i]], stack[i + 1..]);
    assert [stack[i]][..0] == [];
  }

  /** The directories named by two registrations in turn. */
  lemma {:induction false} RemovedDirsSplit(a: seq<Deferred>, b: seq<Deferred>)
    ensures RemovedDirs(a + b) == RemovedDirs(a) + RemovedDirs(b)
    decreases |b|
  {
    if b == [] {
      assert a + b == a;
    } else {
      var n := |b| - 1;
      assert (a + b)[..|a + b| - 1] == a + b[..n];
      assert (a + b)[|a + b| - 1] == b[n];
      RemovedDirsSplit(a, b[..n]);
    }
  }


}
