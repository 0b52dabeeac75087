# netbackup, modelled in Dafny

netbackup is a front end for backup programs. It reads one configuration
record per backup job and checks it. It can also make sure the source is a
mount point. It opens a LUKS destination device with `cryptsetup`, checks
the destination file system with `fsck`/`tune2fs`, and mounts the device on
a temporary directory. Then it runs one transport (rsync, rclone, restic,
rdiff-backup, or a custom shell command) between an optional pre-command and
an optional post- or fail-command. Last, it undoes what it set up, in reverse
order. After a successful run it can also rewrite a node-exporter
(Prometheus) textfile with a success record for the job.

The model covers the deterministic core of that flow:

- **Configuration** (`configuration.dfy`): the validation and defaulting
  that `ParseConfig` applies once the TOML decoder has filled in the record.
- **Transports** (`transports.dfy`, `rsync.dfy`, `rclone.dfy`,
  `restic.dfy`, `custom.dfy`, `rdiff_backup.dfy`): each transport's
  configuration check, how its command line is built, its dry-run gating,
  and how its commands are run.
  - `transports.dfy` holds the shared helpers: the filter file, the
    pattern lists and the source/destination strings.
  - rsync promotes exit status 24 to success.
  - restic runs its commands as a chain that stops at the first failure.
  - rdiff-backup runs an expiry command after the backup and filters spam
    out of its output.
- **The outside world** (`sys.dfy`): a `System` object stands in for it.
  - It records every command, pause and directory removal in a trace, as
    the transports' fake executor does.
  - It answers every command from an oracle indexed by trace position.
  - It hands out temporary files and directories as opaque numeric
    tokens, and keeps the lines written to the output log.
  - An oracle says for each temporary directory whether `os.Remove` of it
    fails, as it does while the directory is still mounted after a failed
    `umount`; a failed removal leaves the directory in place.
- **The orchestrator** (`backup.dfy`): `Backup.Run` is a class method that
  updates the configuration in place and issues commands in order.
  - It keeps an explicit stack of the deferred teardown actions and unwinds
    it, last registered first, on every return.
  - What it acquires is also given by pure reference functions
    (`Acquisition`, `PickedRun`); the lemmas state the properties of the
    run on those functions.
- **The command line front end** (`cli.dfy`): the `/proc/mounts` scan, the
  log-file name and what happens after the run.
- **The textfile rewrite** (`prom.dfy`).
- **The string functions of Go's library** that these rely on
  (`gostrings.dfy`).

Some behaviour of the code as written is modelled as written.
- The restic exclude-file token names no file. A `:=` inside the `if` that
  writes the file declares a new variable, and the token is built from the
  outer one, which stays empty.
- rdiff-backup's spam entries are plain substrings. In
  `Updated mirror temp file.* does not match source`, the `.*` is literal
  text, not a pattern.
- A mount point whose mount command fails is not removed. Nor is one
  whose removal fails: `os.Remove` runs after `umount`, and its error is
  dropped, so a directory still mounted after a failed unmount stays.
- `NewBackup` ignores its `dryRun` argument and reads the global option.
  Its only caller passes that same option, so the model's constructor takes
  the flag as an argument.

Two core files do not compile against the rest of the code, so parts of
their behaviour are reconstructions rather than models of code.
- rdiff_backup.go is written against an older version of the transports
  package. It calls names the current code does not define:
  `createExcludeFile`, `createIncludeFile`, the `excludeFile` and
  `includeFile` fields, `ExtraArgs` as a string, `RdiffBackupMaxAge`, and
  `SetStdout`/`SetStderr` on its executor. Its constructor takes four
  arguments, but backup.go:199 calls it with three. The model fills these
  gaps with assumptions, each listed under "## Left out":
  - a list file is written with `writeList` only when it has patterns;
  - the extra arguments are joined with spaces into one token;
  - the maximum age is the configuration's expiry age;
  - one filtered output log stands for both output streams;
  - the constructor takes the configuration and the dry-run flag, like the
    other transports.
- custom.go reads a `CustomCmd` field that the configuration record does
  not declare. The model's record has that field.

## Model

| member | source | states |
|---|---|---|
| Configuration.ParseConfig | config/config.go:67-122 | a rejected record fails the condition of the returned error and no earlier case of the switch; an accepted record passes every check, is well formed (one destination, absolute local paths, devices only local, cleanup only on devices, LUKS needs a key file) and differs from the input only in a log directory defaulted to /var/log/netbackup when neither log directory nor log file is set |
| Configuration.Fails | config/config.go:86-120 | defines, for each case of the switch, its condition stated on its own |
| Configuration.Rank | config/config.go:86-120 | defines the position of each case in the switch |
| Configuration.WellFormed | config/config.go:86-122 | defines an accepted record directly: every check passes, with exactly one destination |
| Configuration.SameButLogDir | config/config.go:67-70 | defines that only the log directory may differ, the one field ParseConfig defaults |
| Transports.CheckConfig | transports/transports.go:67-75 | no error exactly when source and destination directories are set; an empty source is reported before an empty destination |
| Transports.BuildShape | transports/transports.go:106-126 | buildSource/buildDest give the directory alone without a host, and otherwise start with host plus separator and end with the directory |
| Transports.HostPath | transports/transports.go:109-126 | the directory is what follows host and separator, and the whole is the directory alone without a host |
| Transports.BuildSource | transports/transports.go:109-115 | defines buildSource, `[host<sep>]dir`; BuildShape and HostPath state its shape |
| Transports.BuildDest | transports/transports.go:120-126 | defines buildDest, `[host<sep>]dir`; BuildShape and HostPath state its shape |
| Transports.NeedsFilter | transports/transports.go:82-84 | defines when a filter file is made: there is an include or an exclude |
| Transports.Binary | transports/rsync.go:73-76 | the program tokens: the default name alone, or the custom binary split on spaces, whose pieces hold no space and join back to it |
| Transports.Prefixed | transports/transports.go:87-92 | one line per pattern, in order, each the marker followed by the pattern |
| Transports.FilterLines | transports/transports.go:86-92 | the filter list has one line per include (`+ ` first) and then one per exclude (`- `), in order, and nothing else |
| Transports.WriteList | transports/transports.go:31-47 | a failed temp-file creation returns the error and changes no file; otherwise a fresh file holds every pattern followed by a newline, in input order, and no other file changes |
| GoStrings.TerminatedIsJoin | transports/common.go:46-48 | for a non-empty list, the written contents equal the patterns joined with newlines plus one final newline (as transports_test.go:55 expects) |
| GoStrings.TerminatedAppend | transports/transports.go:40-42 | writing two lists one after the other writes the concatenation of their line-terminated forms |
| GoStrings.SplitTerminated | transports/common.go:46-48 | splitting line-terminated contents on newlines gives back the lines plus one empty piece |
| Transports.CreateFilterFile | transports/transports.go:79-104 | with no patterns, no file and no name; otherwise a creation failure is returned, or a fresh file holds FilterLines terminated by newlines |
| Transports.Run | transports/transports.go:136-138 | the generic Run always fails |
| Rsync.New | transports/rsync.go:30-61 | construction succeeds exactly when both directories are set and at most one host is; the errors come in switch order; the transport keeps the configuration and dry-run flag |
| Rsync.Slashed | transports/rsync.go:97-100 | the source gets a trailing slash only when it lacks one: it always ends in `/`, starts with the original and is at most one longer |
| Rsync.SlashedIdempotent | transports/rsync.go:97-100 | adding the slash twice is adding it once, so `/` stays `/` |
| Rsync.ArgvShape | transports/rsync.go:73-102 | the program tokens, `-avAXH --delete --numeric-ids`, the filter token exactly when there is a filter file, `--delete-excluded` after it exactly when there are excludes, the extra arguments verbatim, then the slashed source and the destination last |
| Rsync.Argv | transports/rsync.go:73-102 | defines the rsync command line for an optional filter-file name; its layout is what ArgvShape states |
| Rsync.Promote24 | transports/rsync.go:111-121 | success exactly when the command succeeded or exited with status 24; any other error unchanged |
| Rsync.Command | transports/rsync.go:73-102 | the appends build exactly the command line of ArgvShape |
| Rsync.Perform | transports/rsync.go:104-122 | dry run: nothing is run and the result is success; otherwise one RSYNC command with that command line, and its result after promotion of status 24 |
| Rsync.Run | transports/rsync.go:69-122 | a filter-file failure is returned before anything runs; otherwise as Perform, with the filter file's name in the command line; one token is used exactly when the filter file is created; no temporary file survives |
| Rclone.New | transports/rclone.go:29-46 | construction succeeds exactly when both directories are set (both hosts may be set); the error is checkConfig's |
| Rclone.ArgvShape | transports/rclone.go:57-76 | the program tokens, `sync -v`, the filter-from token exactly when there is a filter file, the extra arguments verbatim, then the source as built (no slash added) and the destination |
| Rclone.Argv | transports/rclone.go:57-76 | defines the rclone command line for an optional filter-file name; its layout is what ArgvShape states |
| Rclone.Command | transports/rclone.go:57-76 | the appends build exactly the command line of ArgvShape |
| Rclone.Run | transports/rclone.go:54-85 | a filter-file failure is returned before anything runs; a dry run runs nothing and succeeds; otherwise one RCLONE command whose error is returned unchanged; one token is used exactly when the filter file is created; no temporary file survives |
| Restic.New | transports/restic.go:29-63 | construction succeeds exactly when both directories are set, there are no includes and no source host; the errors come in switch order; a destination host is allowed |
| Restic.ArgvShape | transports/restic.go:91-107 | the program tokens, `-v -v`, the `--exclude-file=<name>` token built from the name given, exactly when there are excludes, the extra arguments verbatim, then `--repo <dest> backup <source dir>` |
| Restic.CommandsShape | transports/restic.go:109-116 | one command without an expiry, two with one; the second is the first followed by `forget --keep-within=<N>d --prune` |
| Restic.ExcludeTokenNamesNoFile | transports/restic.go:77-102 | with excludes, the token built from the never-assigned outer variable is a bare `--exclude-file=`, and the command line differs from the one naming any written file |
| Restic.Argv | transports/restic.go:91-107 | defines the backup command line for a given exclude-file name; its layout is what ArgvShape states |
| Restic.ExpiryArgs | transports/restic.go:113-114 | defines `forget --keep-within=<N>d --prune` |
| Restic.Commands | transports/restic.go:109-116 | defines the chain: the backup command line, then, with an expiry, that command line extended by ExpiryArgs |
| Restic.Command | transports/restic.go:91-107 | the appends build exactly the command line of Argv for the exclude-file name given |
| Restic.BuildCommands | transports/restic.go:109-116 | the chain built is Commands for the exclude-file name given, whose shape CommandsShape states |
| Restic.RunChain | transports/restic.go:123-130 | the commands run in order under RESTIC and the loop stops at the first failure: the trace holds exactly the attempted prefix and the result is the first error or success |
| Restic.Perform | transports/restic.go:118-132 | a dry run runs nothing and succeeds; otherwise the command chain for the exclude-file name given, as RunChain states |
| Restic.Run | transports/restic.go:71-132 | an exclude-file failure is returned before anything runs; otherwise the file written goes to the inner, shadowing variable and the chain is built from the outer, empty one: Commands with an empty name, run as Perform states; one token is used exactly when the file is created; no temporary file survives |
| Sys.System.AttemptedStopsAtFailure | transports/restic.go:124-129 | every attempted command but the last succeeded, and when the chain stopped early the last attempted one failed |
| Sys.System.ChainResultMeaning | transports/restic.go:124-129 | the chain succeeds exactly when every command does, and otherwise returns the error of the last command attempted |
| Sys.System.ChainOfOne | transports/rdiff_backup.go:176-180 | a one-command chain attempts it and returns its error and output |
| Sys.System.ChainOfTwo | transports/rdiff_backup.go:176-192 | a two-command chain stops after a failing first command and otherwise runs the second too, returning its error |
| Custom.New | transports/custom.go:24-49 | construction succeeds exactly when the custom command is set; nothing else is checked |
| Custom.Run | transports/custom.go:56-68 | a dry run runs nothing and succeeds; otherwise exactly one CUSTOM command `[shell, -c, --, customCmd]`, whose error is returned unchanged, and no temporary file |
| RdiffBackup.New | transports/rdiff_backup.go:31-71 | construction succeeds exactly when both directories are set and at most one host is; the errors come in switch order |
| RdiffBackup.MatchSlice | transports/rdiff_backup.go:75-82 | true exactly when some entry is a substring of the string; false for an empty slice |
| RdiffBackup.Matches | transports/rdiff_backup.go:75-82 | defines the result matchSlice computes: some entry is a substring of the line |
| RdiffBackup.NotSpam | transports/rdiff_backup.go:102-108 | defines the output callback's test: a line is written exactly when it contains no spam entry |
| RdiffBackup.MissingCharNotContained | transports/rdiff_backup.go:77 | an entry holding a character the line lacks is not contained in it |
| RdiffBackup.WildcardIsLiteral | transports/rdiff_backup.go:97 | the `.*` entry is literal: a line without a `*` never contains it |
| RdiffBackup.QuotedEntryIsSpam | transports/rdiff_backup.go:102-108 | a line quoting any spam entry is held back |
| RdiffBackup.ArgvShape | transports/rdiff_backup.go:142-172 | the seven fixed tokens, the exclude-list token, then the include-list token, each only with its file, the extra arguments as one token when non-empty, then source and destination with `::` after a host |
| RdiffBackup.Argv | transports/rdiff_backup.go:142-172 | defines the backup command line for optional list-file names; its layout is what ArgvShape states |
| RdiffBackup.ExtraArgs | transports/rdiff_backup.go:158-160 | defines the single extra-arguments token as the extra arguments joined with spaces |
| RdiffBackup.ExpiryArgv | transports/rdiff_backup.go:183-188 | defines `rdiff-backup --remove-older-than=<N>D --force <dest>`, with `::` after a destination host |
| RdiffBackup.Chain | transports/rdiff_backup.go:176-192 | defines the chain: the backup command, then the expiry command when a maximum age is set |
| RdiffBackup.Command | transports/rdiff_backup.go:142-172 | the appends build exactly the command line of ArgvShape |
| RdiffBackup.RunCmd | transports/rdiff_backup.go:86-120 | a dry run runs nothing and succeeds; otherwise one command whose output lines reach the output log exactly when they are not spam, and whose error is returned |
| Sys.FilterKeepsAccepted | transports/rdiff_backup.go:102-108 | the callback writes only accepted lines, each one it was given, and every accepted line |
| Sys.Filter | transports/rdiff_backup.go:102-108 | defines the lines the output callback writes: those it accepts, in order |
| RdiffBackup.Perform | transports/rdiff_backup.go:176-194 | a dry run runs nothing; otherwise the backup command, then the expiry command `rdiff-backup --remove-older-than=<N>D --force <dest>` only when the backup succeeded and a maximum age is set; the filtered output of the commands run and the chain's error |
| RdiffBackup.WriteLists | transports/rdiff_backup.go:129-140 | the exclude list is written first and only with excludes, then the include list only with includes; each failure is returned in that order, and a failure of the second removes the first again; on success both files hold their patterns one per line; the tokens used are those Created counts |
| RdiffBackup.Created | transports/rdiff_backup.go:129-140 | the number of list files created: at most one per non-empty list, and none after a failure |
| RdiffBackup.RemoveLists | transports/rdiff_backup.go:134-140 | both deferred removals together remove exactly the files written |
| RdiffBackup.Run | transports/rdiff_backup.go:128-196 | a list-file failure is returned before anything runs; otherwise the backup chain with the list-file names in the command line, as Perform states; the tokens used are those Created counts; no temporary file survives |
| Sys.Tagged | transports/transports_test.go:38-41 | the recorded events of a list of commands: one per command, in order, each with the tag |
| Sys.System.constructor | transports/transports_test.go:24-26 | a fresh recorder: empty trace, no files or directories, empty output log, with the given oracles, including the one for failed directory removals |
| Sys.System.ResultAt | transports/transports_test.go:38-41 | the oracle's answer for a trace position: success or the failure of that exit status |
| Sys.System.Attempted | transports/restic.go:124-129 | at most all the commands, and at least the first when there is one |
| Sys.System.ChainResult | transports/restic.go:124-129 | an error only for a non-empty chain |
| Sys.System.ChainLog | transports/rdiff_backup.go:176-192 | defines the output of the commands a chain attempted, filtered, in order |
| Sys.System.WithShell | backup.go:217 | defines `[shell, -c, --, command]` |
| Sys.System.Exec | transports/transports_test.go:38-41 | one command is appended to the trace and its result is the oracle's |
| Sys.System.ExecFiltered | transports/rdiff_backup.go:114-119 | as Exec, and the command's lines that pass the callback are appended to the output log |
| Sys.System.Sleep | backup.go:160 | a pause is appended to the trace |
| Sys.System.CreateTemp | transports/transports.go:36-38 | either a failure that changes nothing or a fresh empty file with a new token |
| Sys.System.Write | transports/transports.go:40-42 | text is appended to the one file written |
| Sys.System.RemoveFile | transports/rsync.go:85 | exactly the file removed disappears |
| Sys.System.MkdirTemp | backup.go:40-43 | either a failure that changes nothing or a fresh directory with a new token |
| Sys.System.RemoveDir | backup.go:181 | the removal is recorded; it succeeds exactly when the removal oracle lets it, and then exactly that directory disappears, while a failed removal (EBUSY on a directory still mounted) leaves every directory in place |
| Cli.IsMounted | main.go:119-136 | an unreadable table is an error; otherwise true exactly when some newline-separated line, split on single spaces, has at least two fields and the second is the directory |
| Cli.OneFieldNeverMatches | main.go:130-131 | a line with fewer than two fields never matches |
| Cli.EntryNamesItsDir | main.go:128-135 | a mount-table entry `<device> <dir> <rest>` matches its directory and no other |
| Cli.MountedInLines | main.go:128-135 | a table made of lines is mounted-in a directory exactly when one of the lines names it |
| Cli.SpacedDirNeverMounted | main.go:130-131 | a directory holding a space is never found |
| Cli.FieldMatches | main.go:130-134 | defines the per-line test: at least two space-separated fields, the second equal to the directory |
| Cli.MountedIn | main.go:128-135 | defines isMounted's answer on a readable table: some newline-separated line passes FieldMatches |
| GoStrings.SplitJoin | main.go:128 | splitting lines joined with a separator none of them contains gives the lines back |
| GoStrings.SplitAfter | main.go:130 | a separator after a separator-free prefix ends the first field |
| GoStrings.SplitNoSep | main.go:130 | a string without the separator is a single field |
| GoStrings.JoinSplit | transports/rsync.go:75 | splitting a string and joining the pieces with the separator gives the string back |
| GoStrings.Split | main.go:128 | strings.Split yields at least one piece and no piece contains the separator |
| GoStrings.NatToString | transports/restic.go:114 | %d of a natural number is a non-empty string of decimal digits |
| Cli.LastSlash | main.go:91-95 | the index of the last slash, with no slash after it, or -1 |
| Cli.LogPathPlacesFile | main.go:91-95 | when name and date hold no slash, the log path's file is `netbackup-<name>.<ymd>.log` and its directory is `<logDir>/<name>` |
| Cli.JoinPath | main.go:93-94 | defines the model of filepath.Join for two elements: an empty element is left out, otherwise a single slash between (no cleaning) |
| Cli.LogFile | main.go:94 | defines `netbackup-<name>.<ymd>.log` |
| Cli.LogPath | main.go:91-95 | defines logPath as the dated file inside `<logDir>/<name>`; LogPathPlacesFile states where it lands |
| Cli.LogFileName | main.go:170-173 | a configured log file is used verbatim; otherwise the dated path under the log directory |
| Cli.Finish | main.go:193-204 | a failed backup is fatal with its error; otherwise a configured textfile is rewritten when it can be read, and one that cannot only costs a warning; nothing is written without a textfile or after a failure |
| Prom.RebuildTextfile | prom.go:59-83 | the loop builds exactly the kept lines, each ended by a newline, followed by the new record |
| Prom.Rebuilt | prom.go:66-83 | defines the new textfile: the kept lines, each ended by a newline, then the new record; RebuiltLines, RewriteReplaces and DistinctNamesOneLineEach state its properties |
| Prom.Kept | prom.go:67-79 | defines the copied lines: neither empty nor matching the name's expression, in order; KeptMeaning states it |
| Prom.Record | prom.go:82 | defines `backup{name="<name>", job="netbackup", status="success"} <ts>` for a plain name |
| Prom.MatchesRecord | prom.go:61 | defines an unanchored match of `backup[\s]*{.*name="<name>".*`: `backup`, white space, a brace, then somewhere the quoted name |
| Prom.BraceThenName | prom.go:61 | defines what must follow `backup` in a match: white space, then a brace followed somewhere by the quoted name |
| Prom.WriteAll | prom_test.go:58-90 | defines writing a list of names in turn, each with its own time stamp |
| Prom.Records | prom_test.go:58-90 | defines the record lines expected after writing a list of names |
| Prom.KeptMeaning | prom.go:66-79 | the kept lines are exactly the non-empty lines that are not a record of the name, in order, and no more than the input |
| Prom.KeptAppend | prom.go:67-79 | the filter works line by line: the kept lines of a concatenation are the concatenation of the kept lines |
| Prom.KeptAll | prom.go:67-79 | lines none of which is blank or a record of the name are all kept |
| Prom.KeptBlank | prom.go:70-72 | an empty line is dropped |
| Prom.BraceLineMatches | prom.go:61 | a line `backup{...name="<name>"...` matches the expression |
| Prom.RecordMatchesOwnName | prom.go:61-82 | a written record matches the expression of its own name, so a rewrite drops it |
| Prom.RecordIsOneLine | prom.go:82 | a record is one non-empty line |
| Prom.IntToStringChars | prom.go:82 | the timestamp is written with digits and a minus sign only |
| Prom.RebuiltLines | prom.go:66-83 | the rebuilt file's lines are the kept lines in order, then the new record last, then the empty piece after the final newline |
| Prom.DropsRecordAndBlank | prom.go:70-76 | a record of the name followed by the final empty piece is dropped entirely |
| Prom.RewriteReplaces | prom.go:24-25 | writing the same name again replaces its record: the same file as writing it once with the new time, and the same number of lines |
| Prom.BraceAt | prom.go:61 | a match has a brace with the quoted name somewhere after it |
| Prom.AfterName | prom.go:82 | the labels and timestamp after a record's name hold no brace and no `name=` |
| Prom.NeedleAtStart | prom.go:61-82 | in a record's tail, `name="` occurs only at its start |
| Prom.SameNeedleSameName | prom.go:61-82 | two plain names whose quoted forms start the same text are the same name |
| Prom.NeedleOnlyOwnName | prom.go:61-82 | a record's tail holds the quoted form of no other plain name |
| Prom.OneBrace | prom.go:82 | the brace after `backup` is the only one in a record |
| Prom.RecordAfterBrace | prom.go:82 | what follows the brace of a record is its quoted name and labels |
| Prom.OtherRecordSurvives | prom.go:61-76 | a record of another plain name is never dropped |
| Prom.AppendRecord | prom.go:77-83 | rebuilding a file whose lines all survive appends the new record as its last line |
| Prom.RecordsSnoc | prom_test.go:80-86 | the records of a list of names end with the record of its last name |
| Prom.RecordsAreLines | prom_test.go:58-62 | every record is one line |
| Prom.OtherRecordsSurvive | prom_test.go:64-76 | writing one name keeps the records of all other plain names |
| Prom.DistinctNamesOneLineEach | prom_test.go:58-90 | writing N distinct plain names into an empty file yields exactly their N records, one line each, in write order |
| Backups.LuksOpenArgvShape | backup.go:63-87 | `cryptsetup [--key-file=K] luksOpen <device> netbackup_<name>`, and the mapper path is /dev/mapper/ followed by that name |
| Backups.MapperName | backup.go:65 | defines `netbackup_<name>` |
| Backups.MapperPath | backup.go:66 | defines the mapper device path under /dev/mapper |
| Backups.LuksOpenArgv | backup.go:74-80 | defines the cryptsetup luksOpen command line; LuksOpenArgvShape states its layout |
| Backups.LuksCloseArgv | backup.go:92 | defines `cryptsetup luksClose <dev>` |
| Backups.FsckArgv | backup.go:102 | defines `fsck -n <dev>` |
| Backups.TunefsArgv | backup.go:107 | defines `tune2fs -C 0 -T now <dev>` |
| Backups.MountArgv | backup.go:47 | defines `mount <dev> <dir>` |
| Backups.UmountArgv | backup.go:57 | defines `umount <dev>` |
| Backups.DryRunConfig | backup.go:124-131 | a dry run changes only the destination device and directory: a LUKS destination gets the dummy device, and then any device destination the dummy directory |
| Backups.TeardownReverses | backup.go:159-186 | actions registered later are undone first |
| Backups.MountFrame | backup.go:181-186 | defines what a mount registers, in order: remove the mount point, unmount, pause |
| Backups.DeferredEvent | backup.go:159-186 | defines the event each deferred action leaves; the device is read when it runs, the mount point when it is registered |
| Backups.TeardownEvents | backup.go:159-186 | defines the events of unwinding a defer stack, last registered first; TeardownReverses states its order |
| Backups.RemovedDirs | backup.go:181 | defines the mount points that a defer stack's os.Remove calls name |
| Backups.Removed | backup.go:181-186 | defines the mount points a defer stack actually removes: those it names whose removal does not fail |
| Backups.MountTeardownRemoves | backup.go:181-186 | the mount teardown, alone or above the LUKS teardown, removes its mount point exactly when that removal, run after the unmount, does not fail |
| Backups.LuksOpened | backup.go:63-88 | defines when openLuks succeeds: a LUKS destination whose mapper device does not exist yet and whose luksOpen command succeeds |
| Backups.Registered | backup.go:159-186 | defines the defer stack after the device steps: the LUKS close and pause when the device was opened, then the removal, unmount and pause when it was mounted |
| Backups.MountTeardown | backup.go:181-186 | the mount teardown is: pause, unmount the device, remove the mount point |
| Backups.LuksTeardown | backup.go:159-160 | the LUKS teardown is: pause, close the device |
| Backups.FullTeardown | backup.go:159-186 | after a LUKS open and a mount: pause, unmount, remove the mount point, pause, luksClose |
| Backups.FramesRemove | backup.go:181 | only the mount teardown removes a directory, its own mount point |
| Backups.RegisteredParts | backup.go:159-186 | the registrations remove exactly the mount point when mounted, and close the LUKS device exactly when it was opened |
| Backups.Applied | backup.go:156-178 | Run changes only the destination device and directory of the configuration |
| Backups.KindNames | backup.go:193-206 | exactly the five names `custom`, `rclone`, `rdiff-backup`, `restic`, `rsync` pick a transport, each its own |
| Backups.KindName | backup.go:193-203 | defines the configuration name of each transport |
| Backups.KindOf | backup.go:193-206 | defines the transport switch, with None for the default branch |
| Backups.NewTransport | backup.go:193-203 | a constructed transport holds Run's configuration and dry-run flag |
| Backups.RunTransport | backup.go:228 | the chosen transport only appends to the trace and the output log, never reuses a token and leaves no temporary file; a dry run runs nothing and writes no output |
| Backups.SourceGuard | backup.go:137-145 | a source that must be a mount point and is not, or whose table is unreadable, stops the run with that error before any command or registration |
| Backups.SourceCheck | backup.go:137-145 | defines the source check: off unless configured; an unreadable table or an unmounted source is an error |
| Backups.LuksPhase | backup.go:148-161 | defines the LUKS step as a phase: refusal when the mapper exists, the open, and on success the mapper device and the close registered |
| Backups.CleanPhase | backup.go:100-109 | defines the cleanup as a phase: fsck, then tune2fs only after fsck succeeded |
| Backups.MountPhase | backup.go:171-187 | defines the mount as a phase: a new mount point, the mount, and on success the new directory and the teardown registered |
| Backups.PrepareDest | backup.go:163-187 | defines the cleanup then, when it succeeded, the mount |
| Backups.OpenAndPrepare | backup.go:147-187 | defines the LUKS step then, when it succeeded, PrepareDest on the device it leads to |
| Backups.Acquisition | backup.go:133-188 | defines everything before the transport switch: the source check, then OpenAndPrepare; the lemmas below state its properties |
| Backups.CleanupOrder | backup.go:100-109 | at most fsck then tune2fs; tune2fs only after a successful fsck; the cleanup succeeds exactly when it is off or both commands succeed |
| Backups.LuksPhaseFrame | backup.go:148-161 | the LUKS step registers the close exactly when it opened the device, and fails exactly when a LUKS destination was not opened |
| Backups.LuksPhaseDevice | backup.go:63-87 | no command when the mapper device already exists; otherwise the open is the only command; the device becomes the mapper device exactly when the open succeeds |
| Backups.PrepareDestFrame | backup.go:164-187 | a mount point is made only for a device destination, and the mount teardown is registered exactly when the preparation succeeds after making one |
| Backups.PrepareDestDevice | backup.go:171-178 | the device is unchanged, and after a successful mount the directory is the new mount point |
| Backups.PrepareDestLeaves | backup.go:39-53 | a mount point made but not registered for removal belongs to a failed mount, the last command, whose error is returned |
| Backups.PrepareDestStops | backup.go:164-175 | every command of the preparation but the last succeeded, and all did when it succeeded |
| Backups.OpenAndPrepareStops | backup.go:148-175 | the commands of the LUKS step, cleanup and mount stop at the first failure |
| Backups.OpenAndPrepareFrame | backup.go:148-187 | the defer stack is the LUKS teardown when the open succeeded, then the mount teardown when all succeeded and a mount point was made |
| Backups.OpenAndPrepareOpensFirst | backup.go:148-161 | when the LUKS device is opened, the open is the first command |
| Backups.OpenAndPrepareSucceeded | backup.go:148-187 | after success a LUKS destination is reached through its mapper device, and a device is backed up into the new mount point |
| Backups.AcquisitionStopsAtFirstFailure | backup.go:133-188 | every command of the acquisition but the last succeeded, and all did when it succeeded |
| Backups.AcquisitionRegistrations | backup.go:133-188 | the LUKS teardown is registered exactly when the open ran first and succeeded; the mount teardown exactly when all steps succeeded with a mount point; the mount point of a failed mount is left behind |
| Backups.AcquisitionLeaves | backup.go:170-186 | after the teardown, the temporary directory the acquisition made stays exactly when the mount on it failed or its removal failed (a directory still busy after a failed unmount) |
| Backups.SuccessfulAcquisition | backup.go:133-188 | after a successful acquisition the destination device and directory are the mapper device and the mount point, or the configured ones without a device |
| Backups.HookOrder | backup.go:211-253 | no hook in a dry run; a failed pre-command ends the run before the transport; after a failed transport the result is the transport's error whatever the fail-command does; the post-command runs only after a successful transport; success exactly when pre-command, transport and post-command succeed |
| Backups.PreHook | backup.go:211-220 | defines the pre-command event: present only with a pre-command outside a dry run |
| Backups.AfterHooks | backup.go:212-253 | defines what follows the transport: the fail-command, whose failure is ignored, after a failed transport; the post-command, whose failure is an error, after a successful one |
| Backups.HookedRun | backup.go:211-253 | defines the pre-command, then the transport, then AfterHooks; HookOrder states its properties |
| Backups.PickedRun | backup.go:193-253 | defines the transport switch, the constructor's failure, and otherwise HookedRun |
| Backups.UnwindStep | backup.go:159-186 | unwinding one more action appends its event after those already run |
| Backups.RemovedDirsSplit | backup.go:181 | the directories named by two registrations in turn are those of each |
| Backups.Backup.constructor | backup.go:30-35 | the backup holds the configuration and the dry-run flag |
| Backups.Backup.SetDryRunValues | backup.go:124-131 | the configuration becomes DryRunConfig of the old one |
| Backups.Backup.OpenLuks | backup.go:63-87 | an existing mapper device is refused without running anything; otherwise the cryptsetup command runs and its success yields the mapper path |
| Backups.Backup.CloseLuks | backup.go:90-94 | `cryptsetup luksClose <current device>` runs and its error is returned |
| Backups.Backup.CleanFilesystem | backup.go:100-109 | `fsck -n <dev>` runs; its failure is reported with its command line and stops; otherwise `tune2fs -C 0 -T now <dev>` runs and its error is returned |
| Backups.Backup.MountDev | backup.go:39-53 | a failed mkdir runs nothing; otherwise `mount <dev> <tmp>` runs on a fresh directory, which stays even when the mount fails |
| Backups.Backup.UmountDev | backup.go:56-59 | `umount <current device>` runs and its error is returned |
| Backups.Backup.CheckSource | backup.go:137-145 | the mount-point check as SourceCheck states it |
| Backups.Backup.LuksStep | backup.go:147-161 | the LUKS step carries out LuksPhase: its events, error, registrations and new device |
| Backups.Backup.CleanStep | backup.go:163-168 | the cleanup step carries out CleanPhase |
| Backups.Backup.MountStep | backup.go:170-187 | the mount step carries out MountPhase, including the new directory and the mount point made |
| Backups.Backup.Prepare | backup.go:163-187 | cleanup then mount carry out PrepareDest |
| Backups.Backup.OpenThenPrepare | backup.go:147-187 | the LUKS step, cleanup and mount carry out OpenAndPrepare |
| Backups.Backup.Acquire | backup.go:133-188 | outside a dry run, everything before the transport switch carries out Acquisition |
| Backups.Backup.TransportThenHooks | backup.go:227-253 | the transport runs, then the fail- or post-command as AfterHooks states |
| Backups.Backup.Hooked | backup.go:211-253 | the pre-command, transport and fail-/post-command carry out HookedRun |
| Backups.Backup.PickAndRun | backup.go:190-253 | the transport switch, its constructor and the hooked run carry out PickedRun; a dry run runs nothing |
| Backups.Backup.Setup | backup.go:124-188 | the dry-run placeholders, or else the acquisition |
| Backups.Backup.Conclude | backup.go:190-254 | a failed acquisition returns its error; otherwise the picked run; in both cases the registered actions are undone last, and only the registered mount points whose removal does not fail are gone |
| Backups.Backup.Run | backup.go:112-254 | a dry run only sets the placeholders and runs no command, and writes no output; otherwise the acquisition, then the picked run, then the registered actions undone in reverse, on every return; the directories are the old ones plus the mount point made, less the registered mount points whose removal does not fail, so a mount point stays when its mount failed or when its removal fails after a failed unmount (AcquisitionLeaves); the output log only grows and the token of the mount point is used up |
| Backups.Backup.RunDeferred | backup.go:159-186 | one deferred action leaves its event; a mount-point removal tries to remove that directory, which goes exactly when the removal does not fail, and its error is dropped |
| Backups.Backup.Unwind | backup.go:159-186 | the registered actions run last registered first, their errors are dropped, and exactly their mount points whose removal does not fail are removed |

## Left out

- Process execution (spawning, pipes and output streaming) is not part of
  this model. Commands are recorded in a trace and answered by an oracle.
  `execute.ExitCode` is modelled as the status the oracle gives (255 when
  there is none).
- `execute.WithShell` is not part of this model. It is taken to be
  `[shell, -c, --, command]`, with the shell a parameter of the `System`.
- Signals (`signal.Ignore`/`signal.Reset`) are left out: they have no
  effect on the commands or results. The two-second sleeps are recorded as
  pause events and take no time.
- TOML decoding and the unknown-key check are left out, since they come
  from a foreign library. Validation starts from the decoded record.
- Flag parsing and the rest of `main`'s plumbing are left out: opening the
  config file, the verbosity level, opening and mirroring the log, and the
  `--version` output. Only the log-file choice and the ending after `Run`
  are modelled.
- File system effects are left out: reading `/proc/mounts`, `os.Stat` of
  the mapper device, and the temporary files and directories themselves.
  They are oracle values and tokens. A token's path name comes from the
  oracle `tempName`, not from `/tmp` or the prefix.
- Sys.System.RemoveDir: whether `os.Remove` of a directory fails is an
  oracle per directory. The model does not derive the EBUSY failure from
  the failed `umount` just before it, since whether the directory is
  still mounted is the kernel's state, which is not modelled.
- `filepath.Join` and `filepath.Clean` are not modelled. `JoinPath` joins
  with a single slash and skips an empty element, but does not clean the
  path.
- The clock is not modelled: the date of the log name and the textfile's
  Unix time are parameters.
- In prom.go, the file locking, permissions, temporary file and rename are
  left out. Go's `%q` quoting and regular-expression engine are modelled
  only for plain names: letters, digits, `_` and `-`. For those, `%q`
  only adds quotes and the name has no special characters in the
  expression.
- Logging, `displayFile`, and the `*** Command` and `*** Starting` lines
  that rdiff-backup writes to its output log are left out. The model's
  output log holds only the command output that passes the spam filter.
- Error message texts are left out. Each error is a constructor with its
  cause.
- `absPaths` in rdiff_backup.go is not part of this model. The patterns
  are written as given.
- Backups.RunTransport: the contract states only that the trace and the
  output log grow, the token counter never goes back, no temporary file
  survives, and a dry run runs nothing and writes nothing. What each
  transport runs is stated by that transport's own `Run`.
- Backups.Backup.constructor: the dry-run flag is the constructor's
  argument. The source ignores its argument and reads the global option,
  which is the same value at its only call (main.go:191).
- RdiffBackup.WriteLists: createExcludeFile and createIncludeFile are not
  defined in the code. The model assumes each writes its list with
  writeList, and only when the list has patterns.
- RdiffBackup.Argv: ExtraArgs is a string in rdiff_backup.go but a list in
  the configuration record. The model assumes the list joined with spaces,
  as a single token. RdiffBackup.Command inherits this.
- RdiffBackup.Perform: the RdiffBackupMaxAge field does not exist. The
  model assumes it is the configuration's expiry age.
- RdiffBackup.RunCmd: SetStdout and SetStderr are not defined on the
  executor. The model assumes both streams go through the spam filter into
  one output log, with the command's lines in order.
- RdiffBackup.New: the constructor declared in rdiff_backup.go takes four
  arguments, including the output writer. The model takes the configuration
  and the dry-run flag, as backup.go:199 and the other transports do.
- Backups.Backup.Run: of the temporary-name counter, the contract states
  only that it never goes back and that the mount point used up its token.
  The exact count also depends on which transport ran and how far it got,
  which each transport's own Run states.
