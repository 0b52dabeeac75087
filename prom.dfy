/** The line rebuild at the heart of writeNodeTextFile (prom.go): the
    node-exporter textfile keeps one success record per backup name. */
module Prom {
  import opened GoStrings

  /** The labels of a record after its name. */
  const Labels := ", job=\"netbackup\", status=\"success\"} "

  /** A character a backup name may hold here: one that neither Go's %q
      verb nor a regular expression treats specially. */
  predicate PlainChar(c: char) {
    ('a' <= c <= 'z') || ('A' <= c <= 'Z') || ('0' <= c <= '9') || c == '_' || c == '-'
  }

  predicate PlainName(name: string) {
    forall k | 0 <= k < |name| :: PlainChar(name[k])
  }

  /** What Go's %q verb makes of a plain name. */
  function Quoted(name: string): string {
    "\"" + name + "\""
  }

  /** The quoted name the expression looks for. */
  function Needle(name: string): string {
    "name=" + Quoted(name)
  }

  /** The success record of a backup at a Unix time, without its newline. */
  function Record(name: string, ts: int): string {
    "backup" + "{" + Needle(name) + Labels + IntToString(ts)
  }

  /** `\s` of Go's regular expressions. */
  predicate IsSpace(c: char) {
    c == ' ' || c == '\t' || c == '\n' || c == '\U{C}' || c == '\r'
  }

  /** What must follow `backup` in a matching line: white space, an opening
      brace, then anywhere after it `name="<name>"`. */
  predicate BraceThenName(s: string, name: string)
    decreases |s|
  {
    s != [] &&
    if IsSpace(s[0]) then BraceThenName(s[1..], name)
    else s[0] == '{' && Contains(s[1..], Needle(name))
  }

  /** A line matches `backup[\s]*{.*name="<name>".*` somewhere. */
  predicate MatchesRecord(line: string, name: string) {
    exists i | 0 <= i <= |line| - 6 :: OccursAt(line, "backup", i) && BraceThenName(line[i + 6..], name)
  }

  /** The lines that are copied: not empty, and not a record of `name`. */
  function Kept(lines: seq<string>, name: string): seq<string>
    decreases |lines|
  {
    if lines == [] then []
    else if lines[0] == "" || MatchesRecord(lines[0], name) then Kept(lines[1..], name)
    else [lines[0]] + Kept(lines[1..], name)
  }

  /** The rebuilt textfile: the kept lines, each ended by a newline, then the
      new record of `name`. */
  function Rebuilt(data: string, name: string, now: int): string {
    Terminated(Kept(Split(data, '\n'), name)) + Record(name, now) + "\n"
  }

  /** The loop that rebuilds the output buffer line by line. */
  method RebuildTextfile(data: string, name: string, now: int) returns (output: string)
    ensures output == Rebuilt(data, name, now)
  {
    var lines := Split(data, '\n');
    output := "";
    var i := 0;
    while i < |lines|
      invariant 0 <= i <= |lines|
      invariant output == Terminated(Kept(lines[..i], name))
    {
      KeptAppend(lines[..i], [lines[i]], name);
      TerminatedAppend(Kept(lines[..i], name), Kept([lines[i]], name));
      assert lines[..i + 1] == lines[..i] + [lines[i]];
      var line := lines[i];
      i := i + 1;
      if |line| == 0 {
        continue;
      }
      if MatchesRecord(line, name) {
        continue;
      }
      output := output + line;
      output := output + "\n";
    }
    assert lines[..i] == lines;
    output := output + Record(name, now) + "\n";
  }

  lemma {:induction false} KeptAppend(a: seq<string>, b: seq<string>, name: string)
    ensures Kept(a + b, name) == Kept(a, name) + Kept(b, name)
    decreases |a|
  {
    if a != [] {
      assert (a + b)[1..] == a[1..] + b;
      KeptAppend(a[1..], b, name);
    } else {
      assert a + b == b;
    }
  }

  /** The kept lines are exactly the non-empty lines that are not a record
      of `name`, in their order. */
  lemma {:induction false} KeptMeaning(lines: seq<string>, name: string)
    ensures var kept := Kept(lines, name);
      && |kept| <= |lines|
      && (forall x | x in kept :: x in lines && x != "" && !MatchesRecord(x, name))
      && (forall x | x in lines && x != "" && !MatchesRecord(x, name) :: x in kept)
    decreases |lines|
  {
    if lines != [] {
      KeptMeaning(lines[1..], name);
      assert lines == [lines[0]] + lines[1..];
    }
  }

  /** Lines none of which is dropped are all kept. */
  lemma {:induction false} KeptAll(lines: seq<string>, name: string)
    requires forall k | 0 <= k < |lines| :: lines[k] != "" && !MatchesRecord(lines[k], name)
    ensures Kept(lines, name) == lines
    decreases |lines|
  {
    if lines != [] {
      KeptAll(lines[1..], name);
    }
  }

  /** A line that starts with `backup{` and holds the quoted name after the
      brace is a record of that name. */
  lemma BraceLineMatches(line: string, name: string, rest: string)
    requires line == "backup" + ("{" + rest) && Contains(rest, Needle(name))
    ensures MatchesRecord(line, name)
  {
    assert OccursAt(line, "backup", 0);
    assert line[6..] == "{" + rest;
    assert BraceThenName(line[6..], name);
  }

  /** A record matches the expression built from its own name. */
  lemma RecordMatchesOwnName(name: string, ts: int)
    ensures MatchesRecord(Record(name, ts), name)
  {
    var after := Labels + IntToString(ts);
    assert Record(name, ts) == "backup" + ("{" + (Needle(name) + after));
    assert OccursAt(Needle(name) + after, Needle(name), 0);
    BraceLineMatches(Record(name, ts), name, Needle(name) + after);
  }

  /** The characters of a decimal timestamp. */
  lemma IntToStringChars(ts: int)
    ensures forall k | 0 <= k < |IntToString(ts)| ::
      IntToString(ts)[k] == '-' || '0' <= IntToString(ts)[k] <= '9'
  {
  }

  /** A record is one non-empty line. */
  lemma RecordIsOneLine(name: string, ts: int)
    requires PlainName(name)
    ensures Record(name, ts) != "" && '\n' !in Record(name, ts)
  {
    var r := Record(name, ts);
    IntToStringChars(ts);
    var n := Needle(name);
    forall k | 0 <= k < |r|
      ensures r[k] != '\n'
    {
      if k < 7 {
      } else if k < 7 + |n| {
        assert r[k] == n[k - 7];
        if 6 <= k - 7 < 6 + |name| {
          assert n[k - 7] == name[k - 13];
        }
      } else if k < 7 + |n| + |Labels| {
        assert r[k] == Labels[k - 7 - |n|];
      } else {
        assert r[k] == IntToString(ts)[k - 7 - |n| - |Labels|];
      }
    }
  }

  /** The rebuilt file, split into lines: the kept lines in their order, the
      new record, and the empty piece after the final newline. */
  lemma RebuiltLines(data: string, name: string, now: int)
    requires PlainName(name)
    ensures Split(Rebuilt(data, name, now), '\n') == Kept(Split(data, '\n'), name) + [Record(name, now), ""]
  {
    var pieces := Split(data, '\n');
    var kept := Kept(pieces, name);
    var rec := Record(name, now);
    var lines := kept + [rec];
    KeptMeaning(pieces, name);
    RecordIsOneLine(name, now);
    forall k | 0 <= k < |lines|
      ensures '\n' !in lines[k]
    {
      if k < |kept| {
        assert kept[k] in pieces;
      }
    }
    TerminatedAppend(kept, [rec]);
    assert Terminated([rec]) == rec + "\n";
    assert Rebuilt(data, name, now) == Terminated(lines);
    SplitTerminated(lines);
    assert lines + [""] == kept + [rec, ""];
  }

  /** The empty piece is never kept. */
  lemma KeptBlank(name: string)
    ensures Kept([""], name) == []
  {
    assert [""][1..] == [];
  }

  /** A record of the name followed by the empty piece after the last
      newline leaves nothing behind. */
  lemma DropsRecordAndBlank(rec: string, name: string)
    requires MatchesRecord(rec, name)
    ensures Kept([rec, ""], name) == []
  {
    assert [rec, ""][1..] == [""];
    assert [""][1..] == [];
  }

  /** Writing the same name again replaces its record: the file is the one
      the second write alone would produce from the original contents, and
      it has as many lines as before. */
  lemma RewriteReplaces(data: string, name: string, t1: int, t2: int)
    requires PlainName(name)
    ensures Rebuilt(Rebuilt(data, name, t1), name, t2) == Rebuilt(data, name, t2)
    ensures |Split(Rebuilt(Rebuilt(data, name, t1), name, t2), '\n')| == |Split(Rebuilt(data, name, t1), '\n')|
  {
    var kept := Kept(Split(data, '\n'), name);
    var r1 := Record(name, t1);
    var d1 := Rebuilt(data, name, t1);
    RebuiltLines(data, name, t1);
    RebuiltLines(data, name, t2);
    assert Split(d1, '\n') == kept + [r1, ""];
    KeptMeaning(Split(data, '\n'), name);
    forall k | 0 <= k < |kept|
      ensures kept[k] != "" && !MatchesRecord(kept[k], name)
    {
      assert kept[k] in kept;
    }
    KeptAll(kept, name);
    RecordMatchesOwnName(name, t1);
    KeptAppend(kept, [r1, ""], name);
    DropsRecordAndBlank(r1, name);
    assert Kept(Split(d1, '\n'), name) == kept;
  }

  /** Where the brace sits in a line that `BraceThenName` accepts. */
  lemma {:induction false} BraceAt(s: string, name: string) returns (k: nat)
    requires BraceThenName(s, name)
    ensures k < |s| && s[k] == '{' && Contains(s[k + 1..], Needle(name))
    decreases |s|
  {
    if IsSpace(s[0]) {
      var k' := BraceAt(s[1..], name);
      k := k' + 1;
      assert s[k + 1..] == s[1..][k' + 1..];
    } else {
      k := 0;
    }
  }

  /** Every `=` in `after` is preceded, four places before, by something
      other than the `n` that starts `name=`. */
  predicate NoNameLabel(after: string) {
    forall t | 0 <= t < |after| && after[t] == '=' :: 4 <= t && after[t - 4] != 'n'
  }

  /** The text after a record's name: its labels and a decimal timestamp
      hold no brace and no `name=`. */
  lemma AfterName(ts: int)
    ensures '{' !in Labels + IntToString(ts)
    ensures NoNameLabel(Labels + IntToString(ts))
  {
    var after := Labels + IntToString(ts);
    IntToStringChars(ts);
    forall t | 0 <= t < |after|
      ensures after[t] != '{'
      ensures after[t] == '=' ==> 4 <= t && after[t - 4] != 'n'
    {
      if t >= |Labels| {
        assert after[t] == IntToString(ts)[t - |Labels|];
      }
    }
  }

  /** In `name="<m>"` followed by such text, `name="` occurs only at the
      start. */
  lemma NeedleAtStart(m: string, n: string, after: string, j: int)
    requires PlainName(m) && NoNameLabel(after)
    requires OccursAt(Needle(m) + after, Needle(n), j)
    ensures j == 0
  {
    var x := Needle(m) + after;
    var nn := Needle(n);
    assert x[j + 4] == nn[4] == '=';
    assert x[j] == nn[0] == 'n';
    if j + 4 >= |Needle(m)| {
      assert false;
    }
    if j != 0 {
      assert false;
    }
  }

  /** Two plain names whose quoted forms start the same text are equal: the
      closing quote ends both. */
  lemma SameNeedleSameName(m: string, n: string, after: string)
    requires PlainName(m) && PlainName(n)
    requires OccursAt(Needle(m) + after, Needle(n), 0)
    ensures n == m
  {
    var x := Needle(m) + after;
    var nn := Needle(n);
    assert x[..|nn|] == nn;
    var q := if |n| < |m| then |n| else |m|;
    assert x[6 + q] == nn[6 + q];
    if |n| != |m| {
      assert false;
    }
    assert n == x[6..6 + |n|] == m;
  }

  /** The quoted name of another plain name occurs in `name="<m>"` followed
      by such text only where that name is `m` itself. */
  lemma NeedleOnlyOwnName(m: string, n: string, after: string)
    requires PlainName(m) && PlainName(n) && NoNameLabel(after)
    requires Contains(Needle(m) + after, Needle(n))
    ensures n == m
  {
    var j :| 0 <= j <= |Needle(m) + after| - |Needle(n)| && OccursAt(Needle(m) + after, Needle(n), j);
    NeedleAtStart(m, n, after, j);
    SameNeedleSameName(m, n, after);
  }

  /** The brace after `backup` is the only one in a record. */
  lemma OneBrace(m: string, ts: int)
    requires PlainName(m)
    ensures forall p | 0 <= p < |Record(m, ts)| && p != 6 :: Record(m, ts)[p] != '{'
  {
    var r := Record(m, ts);
    var nm := Needle(m);
    var after := Labels + IntToString(ts);
    AfterName(ts);
    assert r == "backup{" + (nm + after);
    forall p | 0 <= p < |r| && p != 6
      ensures r[p] != '{'
    {
      if 7 <= p < 7 + |nm| {
        assert r[p] == nm[p - 7];
        if 6 <= p - 7 < 6 + |m| {
          assert nm[p - 7] == m[p - 13];
        }
      } else if p >= 7 + |nm| {
        assert r[p] == after[p - 7 - |nm|];
      }
    }
  }

  /** What follows the brace of a record. */
  lemma RecordAfterBrace(m: string, ts: int)
    ensures |Record(m, ts)| >= 7
    ensures Record(m, ts)[7..] == Needle(m) + (Labels + IntToString(ts))
  {
    var y := Needle(m) + (Labels + IntToString(ts));
    assert Record(m, ts) == "backup" + ("{" + y);
  }

  /** A record of one plain name is never taken for a record of another, so
      writing one backup's record keeps every other backup's. */
  lemma OtherRecordSurvives(m: string, n: string, ts: int)
    requires PlainName(m) && PlainName(n) && m != n
    ensures !MatchesRecord(Record(m, ts), n)
  {
    var r := Record(m, ts);
    var after := Labels + IntToString(ts);
    if MatchesRecord(r, n) {
      var i :| 0 <= i <= |r| - 6 && OccursAt(r, "backup", i) && BraceThenName(r[i + 6..], n);
      var k := BraceAt(r[i + 6..], n);
      AfterName(ts);
      OneBrace(m, ts);
      assert r[i + 6 + k] == '{';
      assert i == 0 && k == 0;
      RecordAfterBrace(m, ts);
      NeedleOnlyOwnName(m, n, after);
      assert false;
    }
  }

  /** The textfile after writing the records of `names` one after the
      other, at the matching `stamps`, starting from `data`. */
  function WriteAll(data: string, names: seq<string>, stamps: seq<int>): string
    requires |names| == |stamps|
    decreases |names|
  {
    if names == [] then data
    else
      var n := |names| - 1;
      Rebuilt(WriteAll(data, names[..n], stamps[..n]), names[n], stamps[n])
  }

  /** The record of each name, in order. */
  function Records(names: seq<string>, stamps: seq<int>): seq<string>
    requires |names| == |stamps|
  {
    seq(|names|, k requires 0 <= k < |names| => Record(names[k], stamps[k]))
  }

  /** Rebuilding a file of lines that all survive appends the new record
      to them. */
  lemma AppendRecord(lines: seq<string>, name: string, now: int)
    requires PlainName(name)
    requires forall k | 0 <= k < |lines| :: '\n' !in lines[k]
    requires Kept(lines, name) == lines
    ensures Rebuilt(Terminated(lines), name, now) == Terminated(lines + [Record(name, now)])
  {
    var rec := Record(name, now);
    SplitTerminated(lines);
    KeptAppend(lines, [""], name);
    KeptBlank(name);
    assert Kept(Split(Terminated(lines), '\n'), name) == lines;
    assert Rebuilt(Terminated(lines), name, now) == Terminated(lines) + rec + "\n";
    TerminatedAppend(lines, [rec]);
    assert Terminated([rec]) == rec + "\n";
  }

  lemma RecordsSnoc(names: seq<string>, stamps: seq<int>)
    requires |names| == |stamps| > 0
    ensures var n := |names| - 1;
      Records(names, stamps) == Records(names[..n], stamps[..n]) + [Record(names[n], stamps[n])]
  {
    var n := |names| - 1;
    var recs := Records(names, stamps);
    var prev := Records(names[..n], stamps[..n]);
    forall k | 0 <= k < n
      ensures recs[k] == prev[k]
    {
      assert names[..n][k] == names[k] && stamps[..n][k] == stamps[k];
    }
    assert recs == prev + [recs[n]];
  }

  /** Every record is one line. */
  lemma RecordsAreLines(names: seq<string>, stamps: seq<int>)
    requires |names| == |stamps|
    requires forall k | 0 <= k < |names| :: PlainName(names[k])
    ensures forall k | 0 <= k < |names| :: '\n' !in Records(names, stamps)[k]
  {
    forall k | 0 <= k < |names|
      ensures '\n' !in Records(names, stamps)[k]
    {
      RecordIsOneLine(names[k], stamps[k]);
    }
  }

  /** The records of other plain names all survive a write of `x`. */
  lemma OtherRecordsSurvive(names: seq<string>, stamps: seq<int>, x: string)
    requires |names| == |stamps|
    requires forall k | 0 <= k < |names| :: PlainName(names[k]) && names[k] != x
    requires PlainName(x)
    ensures Kept(Records(names, stamps), x) == Records(names, stamps)
  {
    var recs := Records(names, stamps);
    forall k | 0 <= k < |recs|
      ensures recs[k] != "" && !MatchesRecord(recs[k], x)
    {
      RecordIsOneLine(names[k], stamps[k]);
      OtherRecordSurvives(names[k], x, stamps[k]);
    }
    KeptAll(recs, x);
  }

  /** Writing distinct plain names one after the other into an empty
      textfile leaves exactly one line per name, in the order written,
      followed by the empty piece after the final newline. */
  lemma {:induction false} DistinctNamesOneLineEach(names: seq<string>, stamps: seq<int>)
    requires |names| == |stamps|
    requires forall k | 0 <= k < |names| :: PlainName(names[k])
    requires forall i, j | 0 <= i < j < |names| :: names[i] != names[j]
    ensures WriteAll("", names, stamps) == Terminated(Records(names, stamps))
    ensures Split(WriteAll("", names, stamps), '\n') == Records(names, stamps) + [""]
    decreases |names|
  {
    var recs := Records(names, stamps);
    if names != [] {
      var n := |names| - 1;
      var prev := Records(names[..n], stamps[..n]);
      DistinctNamesOneLineEach(names[..n], stamps[..n]);
      RecordsAreLines(names[..n], stamps[..n]);
      OtherRecordsSurvive(names[..n], stamps[..n], names[n]);
      AppendRecord(prev, names[n], stamps[n]);
      RecordsSnoc(names, stamps);
    }
    RecordsAreLines(names, stamps);
    SplitTerminated(recs);
  }
}
