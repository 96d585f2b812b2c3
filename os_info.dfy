/** metrics/os_info.go: the `system_os_info{os_name,os_version,architecture,
    platform,kernel_version}` family. A cycle sets at most one series. */
module OSInfo {
  import opened Common
  import opened GoStrings
  import opened Gauge
  import opened Host

  const OSInfoLabels: seq<string> := ["os_name", "os_version", "architecture", "platform", "kernel_version"]

  const OsReleasePath := "/etc/os-release"
  const UnameArgs: seq<string> := ["uname", "-r"]
  const SwVersArgs: seq<string> := ["sw_vers"]

  const NameKey := "NAME="
  const VersionIdKey := "VERSION_ID="
  const ProductNameKey := "ProductName:"
  const ProductVersionKey := "ProductVersion:"

  // ---------------------------------------------------------------------
  // /etc/os-release: guarded first-wins

  /** The value of an os-release line after its key, with every
      surrounding `"` removed. */
  function QuotedValue(line: string, key: string): string {
    TrimChar(TrimPrefix(line, key), '"')
  }

  /** A line that sets the variable while it is still "": it starts with
      the key and its unquoted value is not empty. */
  predicate SetsValue(line: string, key: string) {
    HasPrefix(line, key) && QuotedValue(line, key) != ""
  }

  /** The value a guarded scan ends with: that of the first line that sets
      it, or "" when no line does. */
  function FirstValue(key: string, lines: seq<string>): (v: string)
    ensures v == "" || (v[0] != '"' && v[|v| - 1] != '"')
    decreases |lines|
  {
    if lines == [] then ""
    else if SetsValue(lines[0], key) then QuotedValue(lines[0], key)
    else FirstValue(key, lines[1..])
  }

  /** The first key line with a non-empty value decides; key lines before
      it (e.g. `NAME=""`) are passed over and key lines after it are not
      read. The result never starts or ends with `"`. */
  lemma {:induction false} FirstValueAt(key: string, lines: seq<string>, i: nat)
    requires i < |lines| && SetsValue(lines[i], key)
    requires forall j {:trigger SetsValue(lines[j], key)} :: 0 <= j < i ==> !SetsValue(lines[j], key)
    ensures FirstValue(key, lines) == QuotedValue(lines[i], key) != ""
    decreases i
  {
    if i > 0 {
      assert !SetsValue(lines[0], key);
      assert lines[1..][i - 1] == lines[i];
      forall j | 0 <= j < i - 1 ensures !SetsValue(lines[1..][j], key) {
        assert lines[1..][j] == lines[j + 1];
      }
      FirstValueAt(key, lines[1..], i - 1);
    }
  }

  /** Without such a line the value stays "". */
  lemma {:induction false} FirstValueAbsent(key: string, lines: seq<string>)
    requires forall j :: 0 <= j < |lines| ==> !SetsValue(lines[j], key)
    ensures FirstValue(key, lines) == ""
    decreases |lines|
  {
    if lines != [] {
      assert forall j :: 0 <= j < |lines| - 1 ==> lines[1..][j] == lines[j + 1];
      FirstValueAbsent(key, lines[1..]);
    }
  }

  /** No line starts with both keys, so each line is read for one of them
      at most. */
  lemma OsReleaseKeysExclusive(line: string)
    ensures !(HasPrefix(line, NameKey) && HasPrefix(line, VersionIdKey))
  {
    if HasPrefix(line, NameKey) {
      assert line[0] == NameKey[0] == 'N';
    }
  }

  /** The scan loop of `collectLinuxOSInfo`: a variable is only assigned
      while it is still "". */
  method ScanOsRelease(lines: seq<string>) returns (osName: string, osVersion: string)
    ensures osName == FirstValue(NameKey, lines)
    ensures osVersion == FirstValue(VersionIdKey, lines)
  {
    osName, osVersion := "", "";
    var i := 0;
    while i < |lines|
      invariant 0 <= i <= |lines|
      invariant osName == "" ==> FirstValue(NameKey, lines) == FirstValue(NameKey, lines[i..])
      invariant osName != "" ==> FirstValue(NameKey, lines) == osName
      invariant osVersion == "" ==> FirstValue(VersionIdKey, lines) == FirstValue(VersionIdKey, lines[i..])
      invariant osVersion != "" ==> FirstValue(VersionIdKey, lines) == osVersion
    {
      assert lines[i..][0] == lines[i] && lines[i..][1..] == lines[i + 1..];
      var line := lines[i];
      OsReleaseKeysExclusive(line);
      if HasPrefix(line, NameKey) && osName == "" {
        osName := QuotedValue(line, NameKey);
      } else if HasPrefix(line, VersionIdKey) && osVersion == "" {
        osVersion := QuotedValue(line, VersionIdKey);
      }
      i := i + 1;
    }
  }

  // ---------------------------------------------------------------------
  // sw_vers: unguarded last-wins

  /** The white-space-trimmed value of the last line with the key, if any. */
  function LastValue(key: string, lines: seq<string>): (v: Option<string>)
    ensures v.Some? && v.value != "" ==> !IsSpace(v.value[0]) && !IsSpace(v.value[|v.value| - 1])
    decreases |lines|
  {
    if lines == [] then None
    else if HasPrefix(lines[|lines| - 1], key) then Some(TrimSpace(TrimPrefix(lines[|lines| - 1], key)))
    else LastValue(key, lines[..|lines| - 1])
  }

  /** The value an unguarded scan ends with. */
  function LastValueOr(key: string, lines: seq<string>): string {
    match LastValue(key, lines)
    case None => ""
    case Some(v) => v
  }

  /** The last key line decides, even when its value is empty: earlier
      lines are overwritten. */
  lemma {:induction false} LastValueAt(key: string, lines: seq<string>, i: nat)
    requires i < |lines| && HasPrefix(lines[i], key)
    requires forall j :: i < j < |lines| ==> !HasPrefix(lines[j], key)
    ensures LastValueOr(key, lines) == TrimSpace(TrimPrefix(lines[i], key))
    decreases |lines| - i
  {
    if i < |lines| - 1 {
      var init := lines[..|lines| - 1];
      assert init[i] == lines[i];
      assert forall j :: i < j < |init| ==> init[j] == lines[j];
      LastValueAt(key, init, i);
    }
  }

  /** Without a key line the value stays "". */
  lemma {:induction false} LastValueAbsent(key: string, lines: seq<string>)
    requires forall j :: 0 <= j < |lines| ==> !HasPrefix(lines[j], key)
    ensures LastValueOr(key, lines) == ""
    decreases |lines|
  {
    if lines != [] {
      var init := lines[..|lines| - 1];
      assert forall j :: 0 <= j < |init| ==> init[j] == lines[j];
      LastValueAbsent(key, init);
    }
  }

  lemma SwVersKeysExclusive(line: string)
    ensures !(HasPrefix(line, ProductNameKey) && HasPrefix(line, ProductVersionKey))
  {
    if HasPrefix(line, ProductNameKey) {
      assert line[7] == ProductNameKey[7] == 'N';
    }
  }

  /** The scan loop of `collectMacOSInfo`. */
  method ScanSwVers(lines: seq<string>) returns (osName: string, osVersion: string)
    ensures osName == LastValueOr(ProductNameKey, lines)
    ensures osVersion == LastValueOr(ProductVersionKey, lines)
  {
    osName, osVersion := "", "";
    var i := 0;
    while i < |lines|
      invariant 0 <= i <= |lines|
      invariant osName == LastValueOr(ProductNameKey, lines[..i])
      invariant osVersion == LastValueOr(ProductVersionKey, lines[..i])
    {
      assert lines[..i + 1][..i] == lines[..i] && lines[..i + 1][i] == lines[i];
      var line := lines[i];
      SwVersKeysExclusive(line);
      if HasPrefix(line, ProductNameKey) {
        osName := TrimSpace(TrimPrefix(line, ProductNameKey));
      } else if HasPrefix(line, ProductVersionKey) {
        osVersion := TrimSpace(TrimPrefix(line, ProductVersionKey));
      }
      i := i + 1;
    }
    assert lines[..i] == lines;
  }

  // ---------------------------------------------------------------------
  // The tuple

  /** A non-empty value without a surrounding quote. */
  predicate Unquoted(s: string) {
    s != "" && s[0] != '"' && s[|s| - 1] != '"'
  }

  /** A non-empty value without surrounding white space. */
  predicate SpaceTrimmed(s: string) {
    s != "" && !IsSpace(s[0]) && !IsSpace(s[|s| - 1])
  }

  /** The tuple of one platform, set only when both the name and the
      version were found. */
  function InfoTuple(osName: string, osVersion: string, h: Host, kernel: string): Option<LabelTuple> {
    if osName == "" || osVersion == "" then None
    else Some([osName, osVersion, h.goarch, h.goos, kernel])
  }

  function LinuxTuple(h: Host, kernel: string): Option<LabelTuple> {
    match Scan(h, OsReleasePath)
    case OpenFailed => None
    case Scanned(lines, failed, _) =>
      if failed then None
      else InfoTuple(FirstValue(NameKey, lines), FirstValue(VersionIdKey, lines), h, kernel)
  }

  function MacTuple(h: Host, kernel: string): Option<LabelTuple> {
    match Command(h, SwVersArgs)
    case None => None
    case Some(output) =>
      var lines := Split(output, '\n');
      InfoTuple(LastValueOr(ProductNameKey, lines), LastValueOr(ProductVersionKey, lines), h, kernel)
  }

  /** What one run of `CollectOSInfo` sets. */
  function OSInfoTuple(h: Host): Option<LabelTuple> {
    match Command(h, UnameArgs)
    case None => None
    case Some(output) =>
      var kernel := TrimSpace(output);
      if h.goos == "linux" then LinuxTuple(h, kernel)
      else if h.goos == "darwin" then MacTuple(h, kernel)
      else None
  }

  /** A set tuple lists, in label order, a non-empty name and version, the
      architecture, the platform (Linux or macOS only) and the trimmed
      output of `uname -r`; on Linux the name and version carry no
      surrounding quote, on macOS no surrounding white space. */
  lemma OSInfoTupleShape(h: Host)
    ensures var t := OSInfoTuple(h);
      t.Some? ==>
        && Command(h, UnameArgs).Some?
        && |t.value| == |OSInfoLabels|
        && t.value[2] == h.goarch && t.value[3] == h.goos
        && t.value[4] == TrimSpace(Command(h, UnameArgs).value)
        && (h.goos == "linux" || h.goos == "darwin")
        && (h.goos == "linux" ==> Unquoted(t.value[0]) && Unquoted(t.value[1]))
        && (h.goos == "darwin" ==> SpaceTrimmed(t.value[0]) && SpaceTrimmed(t.value[1]))
  {
    if Command(h, UnameArgs).Some? {
      var kernel := TrimSpace(Command(h, UnameArgs).value);
      if h.goos == "linux" {
        assert OSInfoTuple(h) == LinuxTuple(h, kernel);
        LinuxTupleShape(h, kernel);
      } else if h.goos == "darwin" {
        assert OSInfoTuple(h) == MacTuple(h, kernel);
        MacTupleShape(h, kernel);
      } else {
        assert OSInfoTuple(h) == None;
      }
    }
  }

  /** On Linux the name and version are the first non-empty `NAME=` and
      `VERSION_ID=` values, without surrounding quotes. */
  lemma LinuxTupleShape(h: Host, kernel: string)
    ensures var t := LinuxTuple(h, kernel);
      t.Some? ==>
        var lines := Scan(h, OsReleasePath).lines;
        && t.value == [FirstValue(NameKey, lines), FirstValue(VersionIdKey, lines), h.goarch, h.goos, kernel]
        && Unquoted(t.value[0]) && Unquoted(t.value[1])
  {
  }

  /** On macOS the name and version are the last `ProductName:` and
      `ProductVersion:` values, without surrounding white space. */
  lemma MacTupleShape(h: Host, kernel: string)
    ensures var t := MacTuple(h, kernel);
      t.Some? ==>
        var lines := Split(Command(h, SwVersArgs).value, '\n');
        && t.value == [LastValueOr(ProductNameKey, lines), LastValueOr(ProductVersionKey, lines), h.goarch, h.goos, kernel]
        && SpaceTrimmed(t.value[0]) && SpaceTrimmed(t.value[1])
  {
  }

  /** When `uname -r` fails nothing is set, whatever else the host holds. */
  lemma KernelFailureSetsNothing(h: Host)
    requires Command(h, UnameArgs).None?
    ensures OSInfoTuple(h) == None
  {
  }

  // ---------------------------------------------------------------------
  // The collectors

  method SetTuple(g: GaugeVec, t: Option<LabelTuple>)
    requires g.Valid() && (t.Some? ==> |t.value| == |g.labelNames|)
    modifies g
    ensures g.Valid() && g.series == SetAll(old(g.series), Values(t), 1)
  {
    if t.Some? {
      g.Set(t.value, 1);
      assert Values(t)[1..] == [];
    }
  }

  method CollectLinuxOSInfo(g: GaugeVec, h: Host, kernelVersion: string)
    requires g.Valid() && g.labelNames == OSInfoLabels
    modifies g
    ensures g.Valid() && g.series == SetAll(old(g.series), Values(LinuxTuple(h, kernelVersion)), 1)
  {
    var scan := Scan(h, OsReleasePath);
    if scan.OpenFailed? {
      return;
    }
    var osName, osVersion := ScanOsRelease(scan.lines);
    if scan.failed {
      return;
    }
    if osName == "" || osVersion == "" {
      return;
    }
    SetTuple(g, Some([osName, osVersion, h.goarch, h.goos, kernelVersion]));
  }

  method CollectMacOSInfo(g: GaugeVec, h: Host, kernelVersion: string)
    requires g.Valid() && g.labelNames == OSInfoLabels
    modifies g
    ensures g.Valid() && g.series == SetAll(old(g.series), Values(MacTuple(h, kernelVersion)), 1)
  {
    var output := Command(h, SwVersArgs);
    if output.None? {
      return;
    }
    var lines := Split(output.value, '\n');
    var osName, osVersion := ScanSwVers(lines);
    if osName == "" || osVersion == "" {
      return;
    }
    SetTuple(g, Some([osName, osVersion, h.goarch, h.goos, kernelVersion]));
  }

  /** `CollectOSInfo()` */
  method CollectOSInfo(g: GaugeVec, h: Host)
    requires g.Valid() && g.labelNames == OSInfoLabels
    modifies g
    ensures g.Valid() && g.series == SetAll(old(g.series), Values(OSInfoTuple(h)), 1)
  {
    var output := Command(h, UnameArgs);
    if output.None? {
      return;
    }
    var kernelVersion := TrimSpace(output.value);
    if h.goos == "linux" {
      CollectLinuxOSInfo(g, h, kernelVersion);
    } else if h.goos == "darwin" {
      CollectMacOSInfo(g, h, kernelVersion);
    }
  }
}
