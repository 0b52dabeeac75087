/** What the transports share (transports/transports.go, and the older
    transports/common.go): the transport record, the basic configuration
    check, source and destination strings, pattern lists written to
    temporary files, and the rsync/rclone style filter file. */
module Transports {
  import opened Common
  import opened GoStrings
  import opened Configuration
  import opened Sys

  /** A transport: the configuration it was built from and whether it only
      shows what it would do. The executor is the `System` each Run is given. */
  datatype Transport = Transport(config: Config, dryRun: bool)

  /** Transport.checkConfig: the source and destination directories must be
      set, and the source is checked first. */
  function CheckConfig(c: Config): (err: Option<Error>)
    ensures err.None? <==> c.sourceDir != "" && c.destDir != ""
    ensures err == Some(SourceDirEmpty) <==> c.sourceDir == ""
    ensures err == Some(DestDirEmpty) <==> c.sourceDir != "" && c.destDir == ""
  {
    if c.sourceDir == "" then Some(SourceDirEmpty)
    else if c.destDir == "" then Some(DestDirEmpty)
    else None
  }

  /** Transport.buildSource: `[host<sep>]dir`. */
  function BuildSource(c: Config, sep: string): string {
    if c.sourceHost != "" then c.sourceHost + sep + c.sourceDir else c.sourceDir
  }

  /** Transport.buildDest: `[host<sep>]dir`. */
  function BuildDest(c: Config, sep: string): string {
    if c.destHost != "" then c.destHost + sep + c.destDir else c.destDir
  }

  /** The directory alone without a host; with one, the host, the separator
      and the directory, in that order. */
  lemma HostPath(host: string, sep: string, dir: string)
    ensures var p := if host != "" then host + sep + dir else dir;
      && HasSuffix(p, dir)
      && (host == "" ==> p == dir)
      && (host != "" ==> HasPrefix(p, host + sep) && p[|host + sep|..] == dir)
  {
    if host != "" {
      var p := host + sep + dir;
      assert p[..|host + sep|] == host + sep;
      assert p[|host + sep|..] == dir;
    }
  }

  /** buildSource and buildDest put the directory last, after the host and
      the separator when there is a host. */
  lemma BuildShape(c: Config, sep: string)
    ensures HasSuffix(BuildSource(c, sep), c.sourceDir)
    ensures c.sourceHost == "" ==> BuildSource(c, sep) == c.sourceDir
    ensures c.sourceHost != "" ==> HasPrefix(BuildSource(c, sep), c.sourceHost + sep)
    ensures HasSuffix(BuildDest(c, sep), c.destDir)
    ensures c.destHost == "" ==> BuildDest(c, sep) == c.destDir
    ensures c.destHost != "" ==> HasPrefix(BuildDest(c, sep), c.destHost + sep)
  {
    HostPath(c.sourceHost, sep, c.sourceDir);
    HostPath(c.destHost, sep, c.destDir);
  }

  /** The program to run: the transport's own name, or the configured
      custom binary split on single spaces. */
  function Binary(customBin: string, default: string): (bin: seq<string>)
    ensures |bin| >= 1
    ensures customBin == "" ==> bin == [default]
    ensures customBin != "" ==> Join(bin, " ") == customBin
    ensures customBin != "" ==> forall k | 0 <= k < |bin| :: ' ' !in bin[k]
  {
    if customBin != "" then
      JoinSplit(customBin, ' ');
      Split(customBin, ' ')
    else [default]
  }

  /** Each pattern with a marker put in front of it, in order. */
  function Prefixed(marker: string, patterns: seq<string>): (lines: seq<string>)
    ensures |lines| == |patterns|
    ensures forall k | 0 <= k < |patterns| :: lines[k] == marker + patterns[k]
    decreases |patterns|
  {
    if patterns == [] then [] else [marker + patterns[0]] + Prefixed(marker, patterns[1..])
  }

  /** The lines of a filter file: every include as `+ pattern`, then every
      exclude as `- pattern`. */
  function FilterLines(includes: seq<string>, excludes: seq<string>): (lines: seq<string>)
    ensures |lines| == |includes| + |excludes|
    ensures forall k | 0 <= k < |includes| :: lines[k] == "+ " + includes[k]
    ensures forall k | 0 <= k < |excludes| :: lines[|includes| + k] == "- " + excludes[k]
  {
    Prefixed("+ ", includes) + Prefixed("- ", excludes)
  }

  /** writeList: a new temporary file holding every pattern on a line of its
      own, in order; an empty list still yields a (empty) file. */
  method WriteList(prefix: string, patterns: seq<string>, sys: System) returns (r: Result<nat, Error>)
    requires sys.Valid()
    modifies sys`files, sys`serial
    ensures sys.Valid()
    ensures sys.tempFails(old(sys.serial)) ==>
      r == Failure(TempFileFailed(prefix)) && sys.files == old(sys.files) && sys.serial == old(sys.serial)
    ensures !sys.tempFails(old(sys.serial)) ==>
      && r == Success(old(sys.serial)) && r.value !in old(sys.files)
      && sys.files == old(sys.files)[r.value := Terminated(patterns)]
      && sys.serial == old(sys.serial) + 1
  {
    r := sys.CreateTemp(prefix);
    if r.Failure? {
      return;
    }
    var w := r.value;
    var i := 0;
    while i < |patterns|
      invariant 0 <= i <= |patterns|
      invariant sys.Valid() && sys.serial == old(sys.serial) + 1
      invariant sys.files == old(sys.files)[w := Terminated(patterns[..i])]
    {
      TerminatedAppend(patterns[..i], [patterns[i]]);
      assert Terminated([patterns[i]]) == patterns[i] + "\n";
      assert patterns[..i + 1] == patterns[..i] + [patterns[i]];
      sys.Write(w, patterns[i] + "\n");
      i := i + 1;
    }
    assert patterns[..i] == patterns;
  }

  /** Whether a filter file is needed. */
  predicate NeedsFilter(c: Config) {
    |c.includes| > 0 || |c.excludes| > 0
  }

  /** Transport.createFilterFile: no file (and no name) when there are no
      patterns; otherwise a temporary file with FilterLines. */
  method CreateFilterFile(includes: seq<string>, excludes: seq<string>, sys: System)
    returns (r: Result<Option<nat>, Error>)
    requires sys.Valid()
    modifies sys`files, sys`serial
    ensures sys.Valid()
    ensures includes == [] && excludes == [] ==>
      r == Success(None) && sys.files == old(sys.files) && sys.serial == old(sys.serial)
    ensures (includes != [] || excludes != []) && sys.tempFails(old(sys.serial)) ==>
      r == Failure(TempFileFailed("filter")) && sys.files == old(sys.files) && sys.serial == old(sys.serial)
    ensures (includes != [] || excludes != []) && !sys.tempFails(old(sys.serial)) ==>
      && r == Success(Some(old(sys.serial))) && old(sys.serial) !in old(sys.files)
      && sys.files == old(sys.files)[old(sys.serial) := Terminated(FilterLines(includes, excludes))]
      && sys.serial == old(sys.serial) + 1
  {
    if |includes| == 0 && |excludes| == 0 {
      return Success(None);
    }
    var filter: seq<string> := [];
    var i := 0;
    while i < |includes|
      invariant 0 <= i <= |includes|
      invariant |filter| == i
      invariant forall k | 0 <= k < i :: filter[k] == "+ " + includes[k]
    {
      filter := filter + ["+ " + includes[i]];
      i := i + 1;
    }
    var j := 0;
    while j < |excludes|
      invariant 0 <= j <= |excludes|
      invariant |filter| == |includes| + j
      invariant forall k | 0 <= k < |includes| :: filter[k] == "+ " + includes[k]
      invariant forall k | 0 <= k < j :: filter[|includes| + k] == "- " + excludes[k]
    {
      filter := filter + ["- " + excludes[j]];
      j := j + 1;
    }
    assert filter == FilterLines(includes, excludes);
    var w := WriteList("filter", filter, sys);
    if w.Failure? {
      return Failure(w.error);
    }
    return Success(Some(w.value));
  }

  /** Proof helper for the command-line shape lemmas: where each of six
      consecutive segments of a sequence sits. */
  lemma Segments<T>(a: seq<T>, b: seq<T>, c: seq<T>, d: seq<T>, e: seq<T>, f: seq<T>)
    ensures var argv := a + b + c + d + e + f;
      && argv[..|a|] == a
      && argv[|a|..|a| + |b|] == b
      && argv[|a| + |b|..|a| + |b| + |c|] == c
      && argv[|a| + |b| + |c|..|a| + |b| + |c| + |d|] == d
      && argv[|a| + |b| + |c| + |d|..|argv| - |f|] == e
      && argv[|argv| - |f|..] == f
  {
    var argv := a + b + c + d + e + f;
    assert argv == a + (b + c + d + e + f);
  }

  /** Proof helper for the command-line shape lemmas: where each of five
      consecutive segments of a sequence sits. */
  lemma FiveSegments<T>(a: seq<T>, b: seq<T>, c: seq<T>, d: seq<T>, e: seq<T>)
    ensures var argv := a + b + c + d + e;
      && argv[..|a|] == a
      && argv[|a|..|a| + |b|] == b
      && argv[|a| + |b|..|a| + |b| + |c|] == c
      && argv[|a| + |b| + |c|..|argv| - |e|] == d
      && argv[|argv| - |e|..] == e
  {
    var argv := a + b + c + d + e;
    assert argv == a + (b + c + d + e);
  }

  /** The generic Transport.Run, meant to be overridden: it always fails. */
  function Run(t: Transport): (err: Option<Error>)
    ensures err.Some?
  {
    Some(GenericRun)
  }
}
