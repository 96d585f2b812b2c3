/** metrics/process_metrics.go: the `system_process_info{pid,name,user}`
    family, one series per running process. */
module ProcessMetrics {
  import opened Common
  import opened GoStrings
  import opened Gauge
  import opened Host

  const ProcessLabels: seq<string> := ["pid", "name", "user"]

  const ProcDir := "/proc"

  // ---------------------------------------------------------------------
  // One /proc/<pid>/status file

  predicate IsNameLine(line: string) { HasPrefix(line, "Name:") }

  predicate IsUidLine(line: string) { HasPrefix(line, "Uid:") }

  /** No line is both a `Name:` and a `Uid:` line. */
  lemma StatusKeysExclusive(line: string)
    ensures !(IsNameLine(line) && IsUidLine(line))
  {
    if IsNameLine(line) {
      assert line[0] == 'N';
    }
  }

  /** The text after the colon of a line that starts with `key:`, up to
      the next colon or the end of the line. */
  function AfterKey(line: string, key: string): string
    requires HasPrefix(line, key + ":")
  {
    Split(line[|key| + 1..], ':')[0]
  }

  /** `AfterKey` is what `strings.Split(line, ":")[1]` computes: the index
      is always in range for such a line, and the piece is the text between
      the key's colon and the next colon (or the end). */
  lemma AfterKeyIsSecondPiece(line: string, key: string)
    requires ':' !in key && HasPrefix(line, key + ":")
    ensures |Split(line, ':')| >= 2 && Split(line, ':')[1] == AfterKey(line, key)
    ensures var rest := line[|key| + 1..]; var v := AfterKey(line, key);
      ':' !in v && v <= rest && (|v| == |rest| || rest[|v|] == ':')
  {
    var rest := line[|key| + 1..];
    assert line == key + [':'] + rest;
    SplitAfterKey(key, ':', rest);
    SplitHead(rest, ':');
  }

  /** The name a `Name:` line gives. */
  function NameValue(line: string): string
    requires IsNameLine(line)
  {
    TrimSpace(AfterKey(line, "Name"))
  }

  /** The whitespace-separated fields after `Uid:`: real, effective, saved
      and file-system uid. */
  function UidFields(line: string): seq<string>
    requires IsUidLine(line)
  {
    Fields(AfterKey(line, "Uid"))
  }

  /** The `name` variable after the scan: the value of the last `Name:`
      line, or "" without one. It never holds a ':' and has no surrounding
      white space. */
  function StatusName(lines: seq<string>): (name: string)
    ensures name == [] || (!IsSpace(name[0]) && !IsSpace(name[|name| - 1]))
    decreases |lines|
  {
    if lines == [] then ""
    else
      var last := lines[|lines| - 1];
      if IsNameLine(last) then
        NameValue(last)
      else StatusName(lines[..|lines| - 1])
  }

  /** A process name never holds a ':', since Go cuts the line there. */
  lemma {:induction false} StatusNameHasNoColon(lines: seq<string>)
    ensures ':' !in StatusName(lines)
    decreases |lines|
  {
    if lines != [] {
      var last := lines[|lines| - 1];
      if IsNameLine(last) {
        TrimSpaceKeeps(AfterKey(last, "Name"));
      } else {
        StatusNameHasNoColon(lines[..|lines| - 1]);
      }
    }
  }

  /** The `user` variable after the scan: the first field of the last
      `Uid:` line (the real uid, as a number), or "" without one. */
  function StatusUser(lines: seq<string>): (user: string)
    ensures NoSpace(user)
    decreases |lines|
  {
    if lines == [] then ""
    else
      var last := lines[|lines| - 1];
      if IsUidLine(last) then
        var f := UidFields(last);
        if f == [] then "" else f[0]
      else StatusUser(lines[..|lines| - 1])
  }

  /** Whether the scan indexes an empty field list: some `Uid:` line has
      nothing but white space before its next colon. Go panics there. */
  predicate StatusPanics(lines: seq<string>)
    decreases |lines|
  {
    lines != [] &&
      var last := lines[|lines| - 1];
      (IsUidLine(last) && UidFields(last) == []) || StatusPanics(lines[..|lines| - 1])
  }

  /** A panic in the first lines is a panic of the whole file. */
  lemma {:induction false} StatusPanicsExtends(a: seq<string>, b: seq<string>)
    requires StatusPanics(a)
    ensures StatusPanics(a + b)
    decreases |b|
  {
    if b != [] {
      var init := b[..|b| - 1];
      StatusPanicsExtends(a, init);
      assert (a + b)[..|a + b| - 1] == a + init;
      assert StatusPanics((a + b)[..|a + b| - 1]);
    } else {
      assert a + b == a;
    }
  }

  /** The last `Name:` line decides the name; earlier ones are overwritten. */
  lemma {:induction false} NameIsLastNameLine(lines: seq<string>, i: nat)
    requires i < |lines| && IsNameLine(lines[i])
    requires forall j :: i < j < |lines| ==> !IsNameLine(lines[j])
    ensures StatusName(lines) == NameValue(lines[i])
    decreases |lines| - i
  {
    if i < |lines| - 1 {
      var init := lines[..|lines| - 1];
      assert init[i] == lines[i];
      assert forall j :: i < j < |init| ==> init[j] == lines[j];
      NameIsLastNameLine(init, i);
    }
  }

  /** The last `Uid:` line decides the user; earlier ones are overwritten. */
  lemma {:induction false} UserIsLastUidLine(lines: seq<string>, i: nat)
    requires i < |lines| && IsUidLine(lines[i]) && UidFields(lines[i]) != []
    requires forall j :: i < j < |lines| ==> !IsUidLine(lines[j])
    ensures StatusUser(lines) == UidFields(lines[i])[0]
    decreases |lines| - i
  {
    if i < |lines| - 1 {
      var init := lines[..|lines| - 1];
      assert init[i] == lines[i];
      assert forall j :: i < j < |init| ==> init[j] == lines[j];
      UserIsLastUidLine(init, i);
    }
  }

  /** Without a `Name:` line the name label is "", and without a `Uid:`
      line the user label is "" and the scan cannot panic. */
  lemma {:induction false} AbsentLinesGiveEmptyLabels(lines: seq<string>)
    ensures (forall j :: 0 <= j < |lines| ==> !IsNameLine(lines[j])) ==> StatusName(lines) == ""
    ensures (forall j :: 0 <= j < |lines| ==> !IsUidLine(lines[j])) ==>
      StatusUser(lines) == "" && !StatusPanics(lines)
    decreases |lines|
  {
    if lines != [] {
      var init := lines[..|lines| - 1];
      assert forall j :: 0 <= j < |init| ==> init[j] == lines[j];
      AbsentLinesGiveEmptyLabels(init);
    }
  }

  /** One pass of the line loop: a `Name:` line sets the name, a `Uid:`
      line sets the user to its first field or panics without one. */
  method ScanStatusLine(line: string, name0: string, user0: string)
    returns (name: string, user: string, panicked: bool)
    ensures panicked == (IsUidLine(line) && UidFields(line) == [])
    ensures !panicked ==> name == (if IsNameLine(line) then NameValue(line) else name0)
    ensures !panicked ==> user == (if IsUidLine(line) then UidFields(line)[0] else user0)
  {
    name, user, panicked := name0, user0, false;
    StatusKeysExclusive(line);
    if HasPrefix(line, "Name:") {
      AfterKeyIsSecondPiece(line, "Name");
      name := TrimSpace(Split(line, ':')[1]);
    } else if HasPrefix(line, "Uid:") {
      AfterKeyIsSecondPiece(line, "Uid");
      var fields := Fields(Split(line, ':')[1]);
      if fields == [] {
        panicked := true;
        return;
      }
      user := fields[0];
    }
  }

  /** The line loop of `collectLinuxProcessMetrics` for one status file;
      `panicked` reports the index failure on a `Uid:` line without fields. */
  method ParseStatus(lines: seq<string>) returns (name: string, user: string, panicked: bool)
    ensures panicked == StatusPanics(lines)
    ensures !panicked ==> name == StatusName(lines) && user == StatusUser(lines)
  {
    name, user, panicked := "", "", false;
    var i := 0;
    while i < |lines|
      invariant 0 <= i <= |lines|
      invariant !StatusPanics(lines[..i])
      invariant name == StatusName(lines[..i]) && user == StatusUser(lines[..i])
    {
      var prefix := lines[..i + 1];
      assert prefix[..i] == lines[..i] && prefix[i] == lines[i];
      var n, u, p := ScanStatusLine(lines[i], name, user);
      if p {
        StatusPanicsExtends(prefix, lines[i + 1..]);
        assert prefix + lines[i + 1..] == lines;
        panicked := true;
        return;
      }
      name, user := n, u;
      i := i + 1;
    }
    assert lines[..i] == lines;
  }

  // ---------------------------------------------------------------------
  // The pids of /proc

  /** What one entry of /proc contributes. */
  datatype PidOutcome = Skip | Panic | Emit(tuple: LabelTuple)

  function StatusPath(pid: string): string {
    ProcDir + "/" + pid + "/status"
  }

  /** The lines of a readable status file: `strings.Split(string(data), "\n")`. */
  function StatusLines(h: Host, pid: string): seq<string>
    requires StatusPath(pid) in h.contents
  {
    Split(h.contents[StatusPath(pid)], '\n')
  }

  /** Only directories with an integer name whose status file can be read
      are processes; each sets (pid, name, user). */
  function PidOutcomeOf(h: Host, e: DirEntry): PidOutcome {
    if !e.isDir || Atoi(e.name).None? then Skip
    else if StatusPath(e.name) !in h.contents then Skip
    else
      var lines := StatusLines(h, e.name);
      if StatusPanics(lines) then Panic
      else Emit([e.name, StatusName(lines), StatusUser(lines)])
  }

  /** The tuples a run sets, in order, and whether it ended in a panic. */
  datatype Run = Run(tuples: seq<LabelTuple>, panicked: bool)

  /** The run made of a sequence of outcomes: a panic ends it. */
  function RunOf(outs: seq<PidOutcome>): Run {
    if outs == [] then Run([], false)
    else match outs[0]
      case Skip => RunOf(outs[1..])
      case Panic => Run([], true)
      case Emit(t) =>
        var rest := RunOf(outs[1..]);
        Run([t] + rest.tuples, rest.panicked)
  }

  /** The outcome of each entry of /proc, in listing order. */
  function Outcomes(h: Host, entries: seq<DirEntry>): (outs: seq<PidOutcome>)
    ensures |outs| == |entries|
    ensures forall i :: 0 <= i < |entries| ==> outs[i] == PidOutcomeOf(h, entries[i])
  {
    seq(|entries|, i requires 0 <= i < |entries| => PidOutcomeOf(h, entries[i]))
  }

  function PidsRun(h: Host, entries: seq<DirEntry>): Run {
    RunOf(Outcomes(h, entries))
  }

  /** What `collectLinuxProcessMetrics` sets: nothing when /proc cannot be
      listed. */
  function LinuxProcessRun(h: Host): Run {
    match ReadDir(h, ProcDir)
    case None => Run([], false)
    case Some(entries) => PidsRun(h, entries)
  }

  /** Every tuple of a run is emitted by one of its outcomes. */
  lemma {:induction false} RunTuplesAreEmitted(outs: seq<PidOutcome>, t: LabelTuple)
    requires t in RunOf(outs).tuples
    ensures exists i :: 0 <= i < |outs| && outs[i] == Emit(t)
  {
    if outs[0] == Emit(t) {
      assert outs[0] == Emit(t);
    } else {
      RunTuplesAreEmitted(outs[1..], t);
      var i :| 0 <= i < |outs[1..]| && outs[1..][i] == Emit(t);
      assert outs[i + 1] == Emit(t);
    }
  }

  /** Every series set comes from a directory entry of /proc whose name is
      an integer and whose status file could be read without a panic, and
      is (pid, name, user) with the name and user of that status file. */
  lemma TuplesComeFromPidDirectories(h: Host, entries: seq<DirEntry>, t: LabelTuple)
    requires t in PidsRun(h, entries).tuples
    ensures |t| == |ProcessLabels|
    ensures exists i :: 0 <= i < |entries| && entries[i].isDir && entries[i].name == t[0]
    ensures Atoi(t[0]).Some? && StatusPath(t[0]) in h.contents
    ensures var lines := StatusLines(h, t[0]);
      !StatusPanics(lines) && t == [t[0], StatusName(lines), StatusUser(lines)]
  {
    RunTuplesAreEmitted(Outcomes(h, entries), t);
    var i :| 0 <= i < |entries| && Outcomes(h, entries)[i] == Emit(t);
    assert PidOutcomeOf(h, entries[i]) == Emit(t);
  }

  /** An outcome that emits, with no panic before it, is in the run. */
  lemma {:induction false} EmittedBeforePanicIsInRun(outs: seq<PidOutcome>, i: nat)
    requires i < |outs| && outs[i].Emit?
    requires forall j :: 0 <= j < i ==> !outs[j].Panic?
    ensures outs[i].tuple in RunOf(outs).tuples
    decreases i
  {
    if i > 0 {
      assert outs[1..][i - 1] == outs[i];
      assert forall j :: 0 <= j < i - 1 ==> outs[1..][j] == outs[j + 1];
      EmittedBeforePanicIsInRun(outs[1..], i - 1);
      assert !outs[0].Panic?;
    }
  }

  /** Conversely, a directory entry with an integer name and a readable
      status file that does not panic sets (pid, name, user), unless an
      entry listed before it has already panicked. */
  lemma PidDirectoryIsSet(h: Host, entries: seq<DirEntry>, i: nat)
    requires i < |entries| && entries[i].isDir && Atoi(entries[i].name).Some?
    requires StatusPath(entries[i].name) in h.contents
    requires !StatusPanics(StatusLines(h, entries[i].name))
    requires forall j :: 0 <= j < i ==> !PidOutcomeOf(h, entries[j]).Panic?
    ensures var lines := StatusLines(h, entries[i].name);
      [entries[i].name, StatusName(lines), StatusUser(lines)] in PidsRun(h, entries).tuples
  {
    var outs := Outcomes(h, entries);
    assert outs[i] == PidOutcomeOf(h, entries[i]);
    EmittedBeforePanicIsInRun(outs, i);
  }

  /** A process whose status file cannot be read sets nothing, and the
      pids after it are still read. */
  lemma UnreadableStatusIsSkipped(h: Host, e: DirEntry, rest: seq<DirEntry>)
    requires StatusPath(e.name) !in h.contents
    ensures PidsRun(h, [e] + rest) == PidsRun(h, rest)
  {
    var outs := Outcomes(h, [e] + rest);
    assert outs[0] == Skip;
    assert outs[1..] == Outcomes(h, rest);
  }

  /** The family after one entry's outcome. */
  function ApplyOutcome(m: Series, o: PidOutcome): Series {
    if o.Emit? then m[o.tuple := 1] else m
  }

  /** One step of the pid loop: a panic ends the run, any other outcome is
      applied and the run goes on with the next outcome. */
  lemma RunStep(m: Series, outs: seq<PidOutcome>, i: nat)
    requires i < |outs|
    ensures outs[i].Panic? ==> RunOf(outs[i..]) == Run([], true)
    ensures !outs[i].Panic? ==> RunOf(outs[i..]).panicked == RunOf(outs[i + 1..]).panicked
    ensures !outs[i].Panic? ==>
      SetAll(m, RunOf(outs[i..]).tuples, 1) == SetAll(ApplyOutcome(m, outs[i]), RunOf(outs[i + 1..]).tuples, 1)
  {
    assert outs[i..][0] == outs[i] && outs[i..][1..] == outs[i + 1..];
    if outs[i].Emit? {
      SetAllStep(m, Some(outs[i].tuple), RunOf(outs[i + 1..]).tuples, 1);
    }
  }

  /** The body of the pid loop for one entry of /proc. */
  method CollectPid(g: GaugeVec, h: Host, file: DirEntry) returns (panicked: bool)
    requires g.Valid() && g.labelNames == ProcessLabels
    modifies g
    ensures panicked <==> PidOutcomeOf(h, file).Panic?
    ensures g.Valid()
    ensures g.series == ApplyOutcome(old(g.series), PidOutcomeOf(h, file))
  {
    panicked := false;
    if !file.isDir {
      return;
    }
    var pid := file.name;
    if Atoi(pid).None? {
      return;
    }
    var statusPath := ProcDir + "/" + pid + "/status";
    if statusPath !in h.contents {
      return;
    }
    var lines := Split(h.contents[statusPath], '\n');
    var name, user, failed := ParseStatus(lines);
    if failed {
      panicked := true;
      return;
    }
    g.Set([pid, name, user], 1);
  }

  /** The pid loop of `collectLinuxProcessMetrics` over the listed entries. */
  method CollectPids(g: GaugeVec, h: Host, entries: seq<DirEntry>) returns (panicked: bool)
    requires g.Valid() && g.labelNames == ProcessLabels
    modifies g
    ensures g.Valid() && g.series == SetAll(old(g.series), PidsRun(h, entries).tuples, 1)
    ensures panicked == PidsRun(h, entries).panicked
  {
    ghost var outs := Outcomes(h, entries);
    var i := 0;
    while i < |entries|
      invariant 0 <= i <= |entries| && g.Valid()
      invariant SetAll(g.series, RunOf(outs[i..]).tuples, 1) == SetAll(old(g.series), RunOf(outs).tuples, 1)
      invariant RunOf(outs[i..]).panicked == RunOf(outs).panicked
    {
      RunStep(g.series, outs, i);
      assert outs[i] == PidOutcomeOf(h, entries[i]);
      var failed := CollectPid(g, h, entries[i]);
      if failed {
        return true;
      }
      i := i + 1;
    }
    assert outs[i..] == [];
    assert RunOf(outs[i..]) == Run([], false);
    return false;
  }

  /** `collectLinuxProcessMetrics`: nothing is set when /proc cannot be
      listed. */
  method CollectLinuxProcessMetrics(g: GaugeVec, h: Host) returns (panicked: bool)
    requires g.Valid() && g.labelNames == ProcessLabels
    modifies g
    ensures g.Valid() && g.series == SetAll(old(g.series), LinuxProcessRun(h).tuples, 1)
    ensures panicked == LinuxProcessRun(h).panicked
  {
    var files := ReadDir(h, ProcDir);
    if files.None? {
      return false;
    }
    panicked := CollectPids(g, h, files.value);
  }

  // ---------------------------------------------------------------------
  // macOS

  /** A process listed by gopsutil sets (pid, name, user) unless its name
      or its user name cannot be fetched. */
  function MacProcessTuple(p: ProcInfo): Option<LabelTuple> {
    if p.name.None? || p.username.None? then None
    else Some([Itoa(p.pid), p.name.value, p.username.value])
  }

  function MacProcessTuples(procs: seq<ProcInfo>): seq<LabelTuple> {
    FilterMap(MacProcessTuple, procs)
  }

  /** The pid label is the decimal form of the pid: it reads back as the
      same number. */
  lemma MacPidLabelRoundTrip(p: ProcInfo)
    requires IsInt64(p.pid) && MacProcessTuple(p).Some?
    ensures Atoi(MacProcessTuple(p).value[0]) == Some(p.pid)
  {
    AtoiOfItoa(p.pid);
  }

  /** `collectMacOSProcessMetrics` */
  method CollectMacOSProcessMetrics(g: GaugeVec, h: Host)
    requires g.Valid() && g.labelNames == ProcessLabels
    modifies g
    ensures g.Valid()
    ensures g.series == SetAll(old(g.series), if h.processes.None? then [] else MacProcessTuples(h.processes.value), 1)
  {
    if h.processes.None? {
      return;
    }
    var processes := h.processes.value;
    var i := 0;
    while i < |processes|
      invariant 0 <= i <= |processes| && g.Valid()
      invariant SetAll(g.series, MacProcessTuples(processes[i..]), 1)
        == SetAll(old(g.series), MacProcessTuples(processes), 1)
    {
      assert processes[i..][0] == processes[i] && processes[i..][1..] == processes[i + 1..];
      SetAllStep(g.series, MacProcessTuple(processes[i]), MacProcessTuples(processes[i + 1..]), 1);
      var proc := processes[i];
      var pid := Itoa(proc.pid);
      if proc.name.None? {
        i := i + 1;
        continue;
      }
      if proc.username.None? {
        i := i + 1;
        continue;
      }
      g.Set([pid, proc.name.value, proc.username.value], 1);
      i := i + 1;
    }
    assert processes[i..] == [];
  }

  /** What one run of `CollectProcessMetrics` sets, and whether it panicked. */
  function ProcessRun(h: Host): Run {
    if h.goos == "linux" then LinuxProcessRun(h)
    else if h.goos == "darwin" then
      Run(if h.processes.None? then [] else MacProcessTuples(h.processes.value), false)
    else Run([], false)
  }

  /** `CollectProcessMetrics()` */
  method CollectProcessMetrics(g: GaugeVec, h: Host) returns (panicked: bool)
    requires g.Valid() && g.labelNames == ProcessLabels
    modifies g
    ensures g.Valid() && g.series == SetAll(old(g.series), ProcessRun(h).tuples, 1)
    ensures panicked == ProcessRun(h).panicked
  {
    panicked := false;
    if h.goos == "linux" {
      panicked := CollectLinuxProcessMetrics(g, h);
    } else if h.goos == "darwin" {
      CollectMacOSProcessMetrics(g, h);
    }
  }
}
