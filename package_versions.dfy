/** metrics/package_versions.go: the `system_package_version{package,version}`
    family, filled from the dpkg status file, from `yum`/`dnf list installed`,
    or from the Homebrew cellar. */
module PackageVersions {
  import opened Common
  import opened GoStrings
  import opened Gauge
  import opened Host

  const PackageVersionLabels: seq<string> := ["package", "version"]

  const DpkgStatusPath := "/var/lib/dpkg/status"

  // ---------------------------------------------------------------------
  // yum / dnf listing

  predicate IsYumHeader(line: string) {
    HasPrefix(line, "Installed Packages") || HasPrefix(line, "Loaded plugins:")
  }

  /** The tuple one line of `yum list installed` yields, if any. */
  function YumLineTuple(line: string): (r: Option<LabelTuple>)
  {
    if IsYumHeader(line) || TrimSpace(line) == "" then None
    else
      var fields := Fields(line);
      if |fields| >= 3 then Some([fields[0], fields[1]]) else None
  }

  /** A line yields a tuple exactly when it is no header and has at least
      three fields; the tuple is then its first two fields, which are
      non-empty and free of white space. */
  lemma YumLineTupleSpec(line: string)
    ensures YumLineTuple(line).Some? <==> !IsYumHeader(line) && |Fields(line)| >= 3
    ensures AllSpace(line) ==> YumLineTuple(line) == None
    ensures YumLineTuple(line).Some? ==>
      var t := YumLineTuple(line).value;
      |t| == 2 && t[0] == Fields(line)[0] && t[1] == Fields(line)[1]
      && t[0] != "" && t[1] != "" && NoSpace(t[0]) && NoSpace(t[1])
  {
    TrimSpaceEmptyIffAllSpace(line);
    FieldsEmptyIffAllSpace(line);
  }

  /** The tuples a whole listing yields, in line order. */
  function YumTuples(lines: seq<string>): seq<LabelTuple> {
    FilterMap(YumLineTuple, lines)
  }

  lemma YumTuplesStep(lines: seq<string>)
    requires lines != []
    ensures YumTuples(lines) == Values(YumLineTuple(lines[0])) + YumTuples(lines[1..])
  {
  }

  /** `parseYumOutput`: sets every tuple of the listing to 1. */
  method ParseYumOutput(g: GaugeVec, lines: seq<string>)
    requires g.Valid() && g.labelNames == PackageVersionLabels
    modifies g
    ensures g.Valid() && g.series == SetAll(old(g.series), YumTuples(lines), 1)
  {
    var i := 0;
    while i < |lines|
      invariant 0 <= i <= |lines| && g.Valid()
      invariant SetAll(g.series, YumTuples(lines[i..]), 1) == SetAll(old(g.series), YumTuples(lines), 1)
    {
      assert lines[i..][0] == lines[i] && lines[i..][1..] == lines[i + 1..];
      YumTuplesStep(lines[i..]);
      SetAllStep(g.series, YumLineTuple(lines[i]), YumTuples(lines[i + 1..]), 1);
      var line := lines[i];
      if HasPrefix(line, "Installed Packages") || HasPrefix(line, "Loaded plugins:") || TrimSpace(line) == "" {
        i := i + 1;
        continue;
      }
      var fields := Fields(line);
      if |fields| >= 3 {
        g.Set([fields[0], fields[1]], 1);
      }
      i := i + 1;
    }
    assert lines[i..] == [];
  }

  // ---------------------------------------------------------------------
  // dpkg status file

  /** The two variables the dpkg scan carries from line to line. */
  datatype DpkgState = DpkgState(packageName: string, version: string)

  const DpkgStart := DpkgState("", "")

  /** One iteration of the dpkg scan: the new state and the tuple set, if any. */
  function DpkgStep(st: DpkgState, line: string): (DpkgState, Option<LabelTuple>) {
    if HasPrefix(line, "Package: ") then
      (st.(packageName := TrimPrefix(line, "Package: ")), None)
    else if HasPrefix(line, "Version: ") then
      var version := TrimPrefix(line, "Version: ");
      if st.packageName != "" && version != "" then
        (DpkgStart, Some([st.packageName, version]))
      else
        (st.(version := version), None)
    else
      (st, None)
  }

  /** The tuples the dpkg scan sets from state `st` over `lines`, in order. */
  function DpkgTuples(st: DpkgState, lines: seq<string>): seq<LabelTuple>
    decreases |lines|
  {
    if lines == [] then []
    else
      var (next, emitted) := DpkgStep(st, lines[0]);
      match emitted
      case Some(t) => [t] + DpkgTuples(next, lines[1..])
      case None => DpkgTuples(next, lines[1..])
  }

  /** Before line `j`, the last "Package: " line names `name`, or there is
      none and the scan started with `name` pending. */
  predicate LastPackageBefore(st: DpkgState, lines: seq<string>, j: nat, name: string)
    requires j <= |lines|
  {
    || (st.packageName == name && forall k :: 0 <= k < j ==> !HasPrefix(lines[k], "Package: "))
    || exists i :: 0 <= i < j && lines[i] == "Package: " + name
         && forall k :: i < k < j ==> !HasPrefix(lines[k], "Package: ")
  }

  /** One line of scan in front of the lines moves the "last Package: line"
      fact back by one line. */
  lemma LastPackageBeforeShift(st: DpkgState, lines: seq<string>, j: nat, name: string)
    requires j < |lines| - 1 && name != ""
    requires LastPackageBefore(DpkgStep(st, lines[0]).0, lines[1..], j, name)
    ensures LastPackageBefore(st, lines, j + 1, name)
  {
    var next := DpkgStep(st, lines[0]).0;
    assert forall k :: 0 < k < |lines| ==> lines[k] == lines[1..][k - 1];
    if next.packageName == name && forall k :: 0 <= k < j ==> !HasPrefix(lines[1..][k], "Package: ") {
      if HasPrefix(lines[0], "Package: ") {
        assert lines[0] == "Package: " + name;
      } else {
        assert DpkgStep(st, lines[0]).1.None? by { assert next.packageName != ""; }
        assert st.packageName == name;
      }
    } else {
      var i :| 0 <= i < j && lines[1..][i] == "Package: " + name
        && forall k :: i < k < j ==> !HasPrefix(lines[1..][k], "Package: ");
      assert lines[i + 1] == "Package: " + name;
    }
  }

  /** Every tuple comes from a "Version: " line with a non-empty version,
      and its name is that of the last "Package: " line before it (or the
      name pending at the start). From the empty state the name always
      comes from an earlier "Package: " line. */
  lemma {:induction false} DpkgTupleFromVersionLine(st: DpkgState, lines: seq<string>, t: LabelTuple)
    requires t in DpkgTuples(st, lines)
    ensures |t| == 2 && t[0] != "" && t[1] != ""
    ensures exists j :: (0 <= j < |lines| && lines[j] == "Version: " + t[1]
      && LastPackageBefore(st, lines, j, t[0]))
    ensures st.packageName == "" ==>
      exists i, j :: 0 <= i < j < |lines| && lines[i] == "Package: " + t[0] && lines[j] == "Version: " + t[1]
    decreases |lines|
  {
    var (next, emitted) := DpkgStep(st, lines[0]);
    var j: nat;
    if emitted == Some(t) {
      assert lines[0] == "Version: " + t[1];
      j := 0;
    } else {
      DpkgTupleFromVersionLine(next, lines[1..], t);
      var j' :| 0 <= j' < |lines[1..]| && lines[1..][j'] == "Version: " + t[1]
        && LastPackageBefore(next, lines[1..], j', t[0]);
      j := j' + 1;
      assert lines[j] == lines[1..][j'];
      LastPackageBeforeShift(st, lines, j', t[0]);
    }
    assert lines[j] == "Version: " + t[1] && LastPackageBefore(st, lines, j, t[0]);
    if st.packageName == "" {
      var i :| 0 <= i < j && lines[i] == "Package: " + t[0]
        && forall k :: i < k < j ==> !HasPrefix(lines[k], "Package: ");
      assert lines[i] == "Package: " + t[0] && lines[j] == "Version: " + t[1];
    }
  }

  /** With no package name pending, lines that hold no "Package: " line set
      nothing: after a tuple is set both variables are reset, so a second
      "Version: " line without a new "Package: " line is dropped. */
  lemma {:induction false} DpkgNothingWithoutPackage(version: string, lines: seq<string>)
    requires forall i :: 0 <= i < |lines| ==> !HasPrefix(lines[i], "Package: ")
    ensures DpkgTuples(DpkgState("", version), lines) == []
    decreases |lines|
  {
    if lines != [] {
      var (next, _) := DpkgStep(DpkgState("", version), lines[0]);
      DpkgNothingWithoutPackage(next.version, lines[1..]);
    }
  }

  /** A line that starts with neither key, such as `Status:` or
      `Architecture:`. */
  predicate IsOtherDpkgLine(line: string) {
    !HasPrefix(line, "Package: ") && !HasPrefix(line, "Version: ")
  }

  /** Lines with neither key leave the scan unchanged. */
  lemma {:induction false} DpkgOtherLinesIgnored(st: DpkgState, others: seq<string>, rest: seq<string>)
    requires forall i :: 0 <= i < |others| ==> IsOtherDpkgLine(others[i])
    ensures DpkgTuples(st, others + rest) == DpkgTuples(st, rest)
    decreases |others|
  {
    if others != [] {
      assert (others + rest)[0] == others[0];
      assert (others + rest)[1..] == others[1..] + rest;
      DpkgOtherLinesIgnored(st, others[1..], rest);
    } else {
      assert others + rest == rest;
    }
  }

  /** A package stanza sets its tuple and then resets the scan, whatever
      other fields stand between its "Package: " and "Version: " lines. */
  lemma DpkgStanzaResets(st: DpkgState, name: string, mid: seq<string>, version: string, rest: seq<string>)
    requires name != "" && version != ""
    requires forall i :: 0 <= i < |mid| ==> IsOtherDpkgLine(mid[i])
    ensures DpkgTuples(st, ["Package: " + name] + mid + ["Version: " + version] + rest)
      == [[name, version]] + DpkgTuples(DpkgStart, rest)
  {
    var lines := ["Package: " + name] + mid + ["Version: " + version] + rest;
    var versionLine := "Version: " + version;
    assert TrimPrefix(lines[0], "Package: ") == name;
    assert lines[1..] == mid + ([versionLine] + rest);
    var st1 := st.(packageName := name);
    DpkgOtherLinesIgnored(st1, mid, [versionLine] + rest);
    assert !HasPrefix(versionLine, "Package: ") by { assert versionLine[0] == 'V'; }
    assert TrimPrefix(versionLine, "Version: ") == version;
    assert ([versionLine] + rest)[1..] == rest;
  }

  /** Whatever lines come before a stanza, as long as none of them is a
      "Version: " line, the stanza's own "Package: " line names the package:
      earlier "Package: " lines are overwritten. */
  lemma {:induction false} DpkgLastPackageWins(st: DpkgState, pre: seq<string>, name: string,
                                               mid: seq<string>, version: string, rest: seq<string>)
    requires forall i :: 0 <= i < |pre| ==> !HasPrefix(pre[i], "Version: ")
    requires name != "" && version != ""
    requires forall i :: 0 <= i < |mid| ==> IsOtherDpkgLine(mid[i])
    ensures DpkgTuples(st, pre + (["Package: " + name] + mid + ["Version: " + version] + rest))
      == [[name, version]] + DpkgTuples(DpkgStart, rest)
    decreases |pre|
  {
    var stanza := ["Package: " + name] + mid + ["Version: " + version] + rest;
    if pre == [] {
      assert pre + stanza == stanza;
      DpkgStanzaResets(st, name, mid, version, rest);
    } else {
      var (next, emitted) := DpkgStep(st, pre[0]);
      assert (pre + stanza)[0] == pre[0] && (pre + stanza)[1..] == pre[1..] + stanza;
      assert emitted == None;
      DpkgLastPackageWins(next, pre[1..], name, mid, version, rest);
    }
  }

  function DpkgStatusTuples(scan: FileScan): seq<LabelTuple>
  {
    match scan
    case OpenFailed => []
    case Scanned(lines, _, _) => DpkgTuples(DpkgStart, lines)
  }

  lemma DpkgTuplesStep(st: DpkgState, lines: seq<string>, i: nat)
    requires i < |lines|
    ensures DpkgTuples(st, lines[i..])
      == Values(DpkgStep(st, lines[i]).1) + DpkgTuples(DpkgStep(st, lines[i]).0, lines[i + 1..])
  {
    assert lines[i..][0] == lines[i] && lines[i..][1..] == lines[i + 1..];
  }

  /** One iteration of the dpkg loop: the two variables move on, and the
      tuple of a completed stanza is set. */
  method ScanDpkgLine(g: GaugeVec, st: DpkgState, line: string) returns (next: DpkgState)
    requires g.Valid() && g.labelNames == PackageVersionLabels
    modifies g
    ensures next == DpkgStep(st, line).0
    ensures g.Valid()
    ensures var t := DpkgStep(st, line).1;
      g.series == if t.Some? then old(g.series)[t.value := 1] else old(g.series)
  {
    next := st;
    if HasPrefix(line, "Package: ") {
      next := next.(packageName := TrimPrefix(line, "Package: "));
    } else if HasPrefix(line, "Version: ") {
      next := next.(version := TrimPrefix(line, "Version: "));
      if next.packageName != "" && next.version != "" {
        g.Set([next.packageName, next.version], 1);
        next := DpkgStart;
      }
    }
  }

  /** `parseDpkgStatusFile`: nothing when the file cannot be opened; else
      every tuple of the scan, including those set before a read error. */
  method ParseDpkgStatusFile(g: GaugeVec, scan: FileScan)
    requires g.Valid() && g.labelNames == PackageVersionLabels
    modifies g
    ensures g.Valid() && g.series == SetAll(old(g.series), DpkgStatusTuples(scan), 1)
  {
    if scan.OpenFailed? {
      return;
    }
    var lines := scan.lines;
    var st := DpkgStart;
    var i := 0;
    while i < |lines|
      invariant 0 <= i <= |lines| && g.Valid()
      invariant SetAll(g.series, DpkgTuples(st, lines[i..]), 1)
        == SetAll(old(g.series), DpkgTuples(DpkgStart, lines), 1)
    {
      DpkgTuplesStep(st, lines, i);
      SetAllStep(g.series, DpkgStep(st, lines[i]).1, DpkgTuples(DpkgStep(st, lines[i]).0, lines[i + 1..]), 1);
      st := ScanDpkgLine(g, st, lines[i]);
      i := i + 1;
    }
    assert lines[i..] == [];
  }

  // ---------------------------------------------------------------------
  // Homebrew cellar

  const HomebrewCellars: seq<string> := ["/usr/local/Cellar", "/opt/homebrew/Cellar"]

  /** The first of `paths` that exists, or "" when none does. */
  function FirstExisting(paths: seq<string>, existing: set<string>): (r: string)
    requires forall i :: 0 <= i < |paths| ==> paths[i] != ""
    ensures r == "" <==> forall i :: 0 <= i < |paths| ==> paths[i] !in existing
    ensures r != "" ==>
      exists i :: 0 <= i < |paths| && paths[i] == r && r in existing
        && forall j :: 0 <= j < i ==> paths[j] !in existing
  {
    if paths == [] then ""
    else if paths[0] in existing then paths[0]
    else
      var r := FirstExisting(paths[1..], existing);
      assert forall i :: 0 < i < |paths| ==> paths[i] == paths[1..][i - 1];
      r
  }

  /** The loop that picks the Homebrew cellar: the first existing one in list
      order, or "" (Homebrew not found). The same loop is
      metrics/package_updates.go:74-82. */
  method FindHomebrewCellar(existing: set<string>) returns (cellar: string)
    ensures cellar == FirstExisting(HomebrewCellars, existing)
    ensures cellar == "" || cellar in HomebrewCellars
  {
    cellar := "";
    var i := 0;
    while i < |HomebrewCellars|
      invariant 0 <= i <= |HomebrewCellars|
      invariant FirstExisting(HomebrewCellars, existing) == FirstExisting(HomebrewCellars[i..], existing)
    {
      assert HomebrewCellars[i..][0] == HomebrewCellars[i] && HomebrewCellars[i..][1..] == HomebrewCellars[i + 1..];
      if HomebrewCellars[i] in existing {
        cellar := HomebrewCellars[i];
        return;
      }
      i := i + 1;
    }
  }

  /** A directory of the cellar whose own listing can be read and is not
      empty yields the package name and its first version directory in the
      listing's (name-sorted) order. */
  function CellarEntryTuple(h: Host, cellar: string, e: DirEntry): (r: Option<LabelTuple>)
    ensures r.Some? <==>
      e.isDir && ReadDir(h, cellar + "/" + e.name).Some? && ReadDir(h, cellar + "/" + e.name).value != []
    ensures r.Some? ==> r.value == [e.name, ReadDir(h, cellar + "/" + e.name).value[0].name]
  {
    var versions := ReadDir(h, cellar + "/" + e.name);
    if e.isDir && versions.Some? && versions.value != [] then Some([e.name, versions.value[0].name]) else None
  }

  function CellarTuples(h: Host, cellar: string, entries: seq<DirEntry>): seq<LabelTuple> {
    FilterMap(e => CellarEntryTuple(h, cellar, e), entries)
  }

  lemma CellarTuplesStep(h: Host, cellar: string, entries: seq<DirEntry>, i: nat)
    requires i < |entries|
    ensures CellarTuples(h, cellar, entries[i..])
      == Values(CellarEntryTuple(h, cellar, entries[i])) + CellarTuples(h, cellar, entries[i + 1..])
  {
    assert entries[i..][0] == entries[i] && entries[i..][1..] == entries[i + 1..];
  }

  function MacPackageTuples(h: Host): seq<LabelTuple>
  {
    var cellar := FirstExisting(HomebrewCellars, h.existing);
    if cellar == "" then []
    else
      match ReadDir(h, cellar)
      case None => []
      case Some(entries) => CellarTuples(h, cellar, entries)
  }

  /** The body of the loop over the cellar's entries: a package directory
      with a readable, non-empty listing sets its first version. */
  method RecordCellarEntry(g: GaugeVec, h: Host, cellar: string, entry: DirEntry)
    requires g.Valid() && g.labelNames == PackageVersionLabels
    modifies g
    ensures g.Valid()
    ensures var t := CellarEntryTuple(h, cellar, entry);
      g.series == if t.Some? then old(g.series)[t.value := 1] else old(g.series)
  {
    if entry.isDir {
      var packageName := entry.name;
      var versionEntries := ReadDir(h, cellar + "/" + packageName);
      if versionEntries.Some? && versionEntries.value != [] {
        var version := versionEntries.value[0].name;
        g.Set([packageName, version], 1);
      }
    }
  }

  /** The loop over the cellar's entries. */
  method RecordCellar(g: GaugeVec, h: Host, cellar: string, entries: seq<DirEntry>)
    requires g.Valid() && g.labelNames == PackageVersionLabels
    modifies g
    ensures g.Valid() && g.series == SetAll(old(g.series), CellarTuples(h, cellar, entries), 1)
  {
    var i := 0;
    while i < |entries|
      invariant 0 <= i <= |entries| && g.Valid()
      invariant SetAll(g.series, CellarTuples(h, cellar, entries[i..]), 1)
        == SetAll(old(g.series), CellarTuples(h, cellar, entries), 1)
    {
      CellarTuplesStep(h, cellar, entries, i);
      SetAllStep(g.series, CellarEntryTuple(h, cellar, entries[i]), CellarTuples(h, cellar, entries[i + 1..]), 1);
      RecordCellarEntry(g, h, cellar, entries[i]);
      i := i + 1;
    }
    assert entries[i..] == [];
  }

  /** `collectMacOSPackageVersions` */
  method CollectMacOSPackageVersions(g: GaugeVec, h: Host)
    requires g.Valid() && g.labelNames == PackageVersionLabels
    modifies g
    ensures g.Valid() && g.series == SetAll(old(g.series), MacPackageTuples(h), 1)
  {
    var cellar := FindHomebrewCellar(h.existing);
    if cellar == "" {
      return;
    }
    var listing := ReadDir(h, cellar);
    if listing.None? {
      return;
    }
    RecordCellar(g, h, cellar, listing.value);
  }

  // ---------------------------------------------------------------------
  // Choice of package manager

  datatype PackageSource = Dpkg | Yum | Dnf | NoPackageManager

  /** dpkg is preferred over yum, and yum over dnf; when the dpkg status
      file exists neither yum nor dnf is consulted. */
  function LinuxPackageSource(dpkgStatusExists: bool, yumFound: bool, dnfFound: bool): (r: PackageSource)
    ensures dpkgStatusExists <==> r == Dpkg
    ensures r == Yum <==> !dpkgStatusExists && yumFound
    ensures r == Dnf <==> !dpkgStatusExists && !yumFound && dnfFound
    ensures r == NoPackageManager <==> !dpkgStatusExists && !yumFound && !dnfFound
  {
    if dpkgStatusExists then Dpkg
    else if yumFound then Yum
    else if dnfFound then Dnf
    else NoPackageManager
  }

  function ListingTuples(output: Option<string>): seq<LabelTuple>
  {
    match output
    case None => []
    case Some(text) => YumTuples(ScanLines(text))
  }

  function LinuxPackageTuples(h: Host): seq<LabelTuple>
  {
    match LinuxPackageSource(DpkgStatusPath in h.existing, "yum" in h.onPath, "dnf" in h.onPath)
    case Dpkg => DpkgStatusTuples(Scan(h, DpkgStatusPath))
    case Yum => ListingTuples(Command(h, ["yum", "list", "installed"]))
    case Dnf => ListingTuples(Command(h, ["dnf", "list", "installed"]))
    case NoPackageManager => []
  }

  /** When the dpkg status file exists, the family receives the dpkg tuples
      and nothing from yum or dnf, whatever their listings hold. */
  lemma DpkgShadowsYumAndDnf(h: Host, yumListing: string, dnfListing: string)
    requires DpkgStatusPath in h.existing
    ensures LinuxPackageTuples(h) == DpkgStatusTuples(Scan(h, DpkgStatusPath))
    ensures LinuxPackageTuples(h.(commands := h.commands[["yum", "list", "installed"] := yumListing]
                                                  [["dnf", "list", "installed"] := dnfListing]))
      == LinuxPackageTuples(h)
  {
  }

  /** `collectLinuxPackageVersions` */
  method CollectLinuxPackageVersions(g: GaugeVec, h: Host)
    requires g.Valid() && g.labelNames == PackageVersionLabels
    modifies g
    ensures g.Valid() && g.series == SetAll(old(g.series), LinuxPackageTuples(h), 1)
  {
    if DpkgStatusPath in h.existing {
      ParseDpkgStatusFile(g, Scan(h, DpkgStatusPath));
      return;
    }
    if "yum" in h.onPath {
      var output := Command(h, ["yum", "list", "installed"]);
      if output.None? {
        return;
      }
      ParseYumOutput(g, ScanLines(output.value));
      return;
    }
    if "dnf" in h.onPath {
      var output := Command(h, ["dnf", "list", "installed"]);
      if output.None? {
        return;
      }
      ParseYumOutput(g, ScanLines(output.value));
      return;
    }
  }

  function PackageVersionTuples(h: Host): seq<LabelTuple>
  {
    if h.goos == "linux" then LinuxPackageTuples(h)
    else if h.goos == "darwin" then MacPackageTuples(h)
    else []
  }

  /** `CollectPackageVersions(debug)`; the debug flag only adds log lines. */
  method CollectPackageVersions(g: GaugeVec, h: Host)
    requires g.Valid() && g.labelNames == PackageVersionLabels
    modifies g
    ensures g.Valid() && g.series == SetAll(old(g.series), PackageVersionTuples(h), 1)
  {
    if h.goos == "linux" {
      CollectLinuxPackageVersions(g, h);
    } else if h.goos == "darwin" {
      CollectMacOSPackageVersions(g, h);
    }
  }
}
