/** metrics/package_updates.go: the `system_package_update_available{package}`
    family. Each cycle sets at most one series: the package manager the host
    uses, with 1 when the manager's cache suggests updates and 0 otherwise. */
module PackageUpdates {
  import opened Common
  import opened GoStrings
  import opened Gauge
  import opened Host
  import PackageVersions

  const PackageUpdateLabels: seq<string> := ["package"]

  const OsReleasePath := "/etc/os-release"
  const AptListsPath := "/var/lib/apt/lists"
  const AptPartialPath := "/var/lib/apt/lists/partial"
  const YumCachePath := "/var/cache/yum"
  const DnfCachePath := "/var/cache/dnf"

  /** The one series a cycle sets: the manager's label and its value. */
  datatype Update = Update(manager: string, available: int)

  /** The family after setting the cycle's series, if there is one. */
  function SetUpdate(m: Series, u: Option<Update>): Series {
    if u.Some? then m[[u.value.manager] := u.value.available] else m
  }

  // ---------------------------------------------------------------------
  // The distribution id

  predicate IsIdLine(line: string) { HasPrefix(line, "ID=") }

  /** The index of the first line that starts with `ID=`, where the scan
      stops, or `|lines|` when no line does. */
  function FirstIdIndex(lines: seq<string>): (i: nat)
    ensures i <= |lines| && (i < |lines| ==> IsIdLine(lines[i]))
    ensures forall j :: 0 <= j < i ==> !IsIdLine(lines[j])
    decreases |lines|
  {
    if lines == [] || IsIdLine(lines[0]) then 0
    else
      var i := 1 + FirstIdIndex(lines[1..]);
      assert forall j :: 0 < j < i ==> lines[j] == lines[1..][j - 1];
      i
  }

  /** The value of the first `ID=` line with every surrounding `"` removed,
      or "" when no line starts with `ID=`. */
  function DistroId(lines: seq<string>): string
    decreases |lines|
  {
    if lines == [] then ""
    else if IsIdLine(lines[0]) then TrimChar(TrimPrefix(lines[0], "ID="), '"')
    else DistroId(lines[1..])
  }

  /** The first `ID=` line decides; later `ID=` lines are never read. */
  lemma {:induction false} DistroIdIsFirstIdLine(lines: seq<string>, i: nat)
    requires i < |lines| && IsIdLine(lines[i])
    requires forall j :: 0 <= j < i ==> !IsIdLine(lines[j])
    ensures DistroId(lines) == TrimChar(lines[i][3..], '"')
    decreases i
  {
    if i > 0 {
      assert !IsIdLine(lines[0]);
      assert forall j :: 0 <= j < i - 1 ==> lines[1..][j] == lines[j + 1];
      DistroIdIsFirstIdLine(lines[1..], i - 1);
    } else {
      assert "ID=" + lines[0][3..] == lines[0];
    }
  }

  /** Without an `ID=` line the distribution is "". */
  lemma {:induction false} DistroIdWithoutIdLine(lines: seq<string>)
    requires forall j :: 0 <= j < |lines| ==> !IsIdLine(lines[j])
    ensures DistroId(lines) == ""
    decreases |lines|
  {
    if lines != [] {
      assert forall j :: 0 <= j < |lines| - 1 ==> lines[1..][j] == lines[j + 1];
      DistroIdWithoutIdLine(lines[1..]);
    }
  }

  /** The first `ID=` line decides, whatever surrounds it. */
  lemma DistroIdAfter(before: seq<string>, line: string, after: seq<string>)
    requires IsIdLine(line)
    requires forall j :: 0 <= j < |before| ==> !IsIdLine(before[j])
    ensures DistroId(before + [line] + after) == TrimChar(line[3..], '"')
  {
    var lines := before + [line] + after;
    assert lines[|before|] == line;
    assert forall j :: 0 <= j < |before| ==> lines[j] == before[j];
    DistroIdIsFirstIdLine(lines, |before|);
  }

  /** `ID="fedora"` and `ID=fedora` name the same distribution. */
  lemma QuotedIdIsUnquoted(before: seq<string>, id: string, after: seq<string>)
    requires id != [] && id[0] != '"' && id[|id| - 1] != '"'
    requires forall j :: 0 <= j < |before| ==> !IsIdLine(before[j])
    ensures DistroId(before + ["ID=\"" + id + "\""] + after) == id
    ensures DistroId(before + ["ID=" + id] + after) == id
  {
    var quoted := "ID=\"" + id + "\"";
    var plain := "ID=" + id;
    assert quoted[..3] == "ID=" && quoted[3..] == ['"'] + id + ['"'];
    assert plain[..3] == "ID=" && plain[3..] == id;
    TrimCharQuoted(id, '"');
    TrimCharUnquoted(id, '"');
    DistroIdAfter(before, quoted, after);
    DistroIdAfter(before, plain, after);
  }

  /** The `ID=` scan of `detectLinuxDistroAndCollectUpdates`, stopping at
      the first match; `stop` is the line it broke at, or `|lines|` when it
      ran to the end. */
  method ReadDistroId(lines: seq<string>) returns (distro: string, stop: nat)
    ensures distro == DistroId(lines)
    ensures stop <= |lines| && (stop < |lines| ==> IsIdLine(lines[stop]))
    ensures forall j :: 0 <= j < stop ==> !IsIdLine(lines[j])
  {
    distro := "";
    var i := 0;
    while i < |lines|
      invariant 0 <= i <= |lines|
      invariant DistroId(lines) == DistroId(lines[i..])
      invariant forall j :: 0 <= j < i ==> !IsIdLine(lines[j])
    {
      assert lines[i..][0] == lines[i] && lines[i..][1..] == lines[i + 1..];
      var line := lines[i];
      if HasPrefix(line, "ID=") {
        distro := TrimChar(TrimPrefix(line, "ID="), '"');
        return distro, i;
      }
      i := i + 1;
    }
    DistroIdWithoutIdLine(lines);
    return distro, i;
  }

  // ---------------------------------------------------------------------
  // Decision rules

  datatype UpdateManager = Apt | YumOrDnf | Unsupported

  /** The distribution switch. */
  function ManagerOf(distro: string): (r: UpdateManager)
    ensures r == Apt <==> distro in {"ubuntu", "debian"}
    ensures r == YumOrDnf <==> distro in {"rhel", "centos", "fedora", "amazon", "amzn"}
    ensures r == Unsupported <==>
      distro !in {"ubuntu", "debian", "rhel", "centos", "fedora", "amazon", "amzn"}
  {
    if distro == "ubuntu" || distro == "debian" then Apt
    else if distro == "rhel" || distro == "centos" || distro == "fedora"
      || distro == "amazon" || distro == "amzn" then YumOrDnf
    else Unsupported
  }

  /** `collectAptUpdates`: nothing without the lists directory; otherwise
      "apt" is 1 exactly when the partial directory exists too. */
  function AptUpdate(existing: set<string>): (r: Option<Update>)
    ensures r.Some? <==> AptListsPath in existing
    ensures r.Some? ==>
      && r.value.manager == "apt"
      && (r.value.available == 1 <==> AptPartialPath in existing)
      && (r.value.available == 0 <==> AptPartialPath !in existing)
  {
    if AptListsPath in existing then
      if AptPartialPath in existing then Some(Update("apt", 1)) else Some(Update("apt", 0))
    else None
  }

  /** `collectYumOrDnfUpdates`: always exactly one series; the yum cache
      takes precedence over the dnf cache, and 0 is only ever reported
      under the combined label. */
  function YumOrDnfUpdate(existing: set<string>): (u: Update)
    ensures u.manager == "yum" <==> YumCachePath in existing
    ensures u.manager == "dnf" <==> YumCachePath !in existing && DnfCachePath in existing
    ensures u.manager == "yum_or_dnf" <==> YumCachePath !in existing && DnfCachePath !in existing
    ensures u.available == 0 <==> u.manager == "yum_or_dnf"
    ensures u.available == 1 <==> u.manager != "yum_or_dnf"
  {
    if YumCachePath in existing then Update("yum", 1)
    else if DnfCachePath in existing then Update("dnf", 1)
    else Update("yum_or_dnf", 0)
  }

  /** `collectMacOSPackageUpdates`: always exactly one "homebrew" series,
      1 exactly when a cellar exists and the first one holds "outdated". */
  function HomebrewUpdate(existing: set<string>): (u: Update)
    ensures u.manager == "homebrew"
    ensures u.available == 1 <==>
      exists i :: (
        && 0 <= i < |PackageVersions.HomebrewCellars|
        && PackageVersions.HomebrewCellars[i] in existing
        && (forall j :: 0 <= j < i ==> PackageVersions.HomebrewCellars[j] !in existing)
        && PackageVersions.HomebrewCellars[i] + "/outdated" in existing)
    ensures u.available == 0 || u.available == 1
  {
    var cellar := PackageVersions.FirstExisting(PackageVersions.HomebrewCellars, existing);
    if cellar == "" then Update("homebrew", 0)
    else if cellar + "/outdated" in existing then Update("homebrew", 1)
    else Update("homebrew", 0)
  }

  /** What `detectLinuxDistroAndCollectUpdates` sets: nothing when
      /etc/os-release cannot be found or opened, or when `scanner.Err()` is
      non-nil where the `ID=` loop stops: a read error before any `ID=`
      line, or one recorded before the first `ID=` line was delivered. An
      error recorded later is never seen, because the loop has already
      stopped. */
  function LinuxUpdate(h: Host): Option<Update> {
    if OsReleasePath !in h.existing then None
    else match Scan(h, OsReleasePath)
      case OpenFailed => None
      case Scanned(lines, _, _) =>
        if ErrorSeenAt(Scan(h, OsReleasePath), FirstIdIndex(lines)) then None
        else match ManagerOf(DistroId(lines))
          case Apt => AptUpdate(h.existing)
          case YumOrDnf => Some(YumOrDnfUpdate(h.existing))
          case Unsupported => None
  }

  /** What one run of `CollectPackageUpdateAvailability` sets. */
  function PackageUpdate(h: Host): Option<Update> {
    if h.goos == "linux" then LinuxUpdate(h)
    else if h.goos == "darwin" then Some(HomebrewUpdate(h.existing))
    else None
  }

  /** Every series the family ever receives carries one of five known
      labels and a 0/1 value, and the label matches the platform: apt only
      for Debian-family distributions, yum/dnf only for Red Hat-family ones,
      homebrew only on macOS. */
  lemma UpdateLabelsFollowPlatform(h: Host)
    ensures var u := PackageUpdate(h);
      u.Some? ==>
        (u.value.available == 0 || u.value.available == 1)
        && (u.value.manager == "homebrew" <==> h.goos == "darwin")
        && (u.value.manager == "apt" ==>
              h.goos == "linux" && ManagerOf(DistroId(Scan(h, OsReleasePath).lines)) == Apt)
        && (u.value.manager in {"yum", "dnf", "yum_or_dnf"} ==>
              h.goos == "linux" && ManagerOf(DistroId(Scan(h, OsReleasePath).lines)) == YumOrDnf)
        && u.value.manager in {"apt", "yum", "dnf", "yum_or_dnf", "homebrew"}
  {
  }

  /** /etc/os-release that cannot be opened, whose scan fails before any
      `ID=` line, or whose first `ID=` line comes after the read error was
      recorded, sets nothing. */
  lemma OsReleaseErrorSetsNothing(h: Host, lines: seq<string>, late: nat)
    requires h.goos == "linux"
    requires Scan(h, OsReleasePath).OpenFailed?
      || (Scan(h, OsReleasePath) == Scanned(lines, true, late)
          && (forall j :: 0 <= j < |lines| - late ==> !IsIdLine(lines[j])))
    ensures PackageUpdate(h) == None
  {
  }

  /** A read error recorded after the first `ID=` line was delivered changes
      nothing: the loop has already stopped, so the update is the one of the
      same lines read without an error. */
  lemma ErrorAfterIdLineIsUnseen(h: Host, lines: seq<string>, late: nat, i: nat)
    requires Scan(h, OsReleasePath) == Scanned(lines, true, late)
    requires i + late < |lines| && IsIdLine(lines[i])
    ensures PackageUpdate(h) == PackageUpdate(h.(scans := h.scans[OsReleasePath := Scanned(lines, false, 0)]))
  {
  }

  // ---------------------------------------------------------------------
  // The collectors

  method CollectAptUpdates(g: GaugeVec, existing: set<string>)
    requires g.Valid() && g.labelNames == PackageUpdateLabels
    modifies g
    ensures g.Valid() && g.series == SetUpdate(old(g.series), AptUpdate(existing))
  {
    if AptListsPath in existing {
      if AptPartialPath in existing {
        g.Set(["apt"], 1);
      } else {
        g.Set(["apt"], 0);
      }
    }
  }

  method CollectYumOrDnfUpdates(g: GaugeVec, existing: set<string>)
    requires g.Valid() && g.labelNames == PackageUpdateLabels
    modifies g
    ensures g.Valid() && g.series == SetUpdate(old(g.series), Some(YumOrDnfUpdate(existing)))
  {
    if YumCachePath in existing {
      g.Set(["yum"], 1);
      return;
    }
    if DnfCachePath in existing {
      g.Set(["dnf"], 1);
      return;
    }
    g.Set(["yum_or_dnf"], 0);
  }

  method CollectMacOSPackageUpdates(g: GaugeVec, existing: set<string>)
    requires g.Valid() && g.labelNames == PackageUpdateLabels
    modifies g
    ensures g.Valid() && g.series == SetUpdate(old(g.series), Some(HomebrewUpdate(existing)))
  {
    var homebrewCellar := PackageVersions.FindHomebrewCellar(existing);
    if homebrewCellar == "" {
      g.Set(["homebrew"], 0);
      return;
    }
    var outdatedPath := homebrewCellar + "/outdated";
    if outdatedPath in existing {
      g.Set(["homebrew"], 1);
    } else {
      g.Set(["homebrew"], 0);
    }
  }

  method DetectLinuxDistroAndCollectUpdates(g: GaugeVec, h: Host)
    requires g.Valid() && g.labelNames == PackageUpdateLabels
    modifies g
    ensures g.Valid() && g.series == SetUpdate(old(g.series), LinuxUpdate(h))
  {
    if OsReleasePath !in h.existing {
      return;
    }
    var scan := Scan(h, OsReleasePath);
    if scan.OpenFailed? {
      return;
    }
    var distro, stop := ReadDistroId(scan.lines);
    if scan.failed && stop + scan.late >= |scan.lines| {
      return;
    }
    if distro == "ubuntu" || distro == "debian" {
      CollectAptUpdates(g, h.existing);
    } else if distro == "rhel" || distro == "centos" || distro == "fedora"
      || distro == "amazon" || distro == "amzn" {
      CollectYumOrDnfUpdates(g, h.existing);
    }
  }

  /** `CollectPackageUpdateAvailability()` */
  method CollectPackageUpdateAvailability(g: GaugeVec, h: Host)
    requires g.Valid() && g.labelNames == PackageUpdateLabels
    modifies g
    ensures g.Valid() && g.series == SetUpdate(old(g.series), PackageUpdate(h))
  {
    if h.goos == "linux" {
      DetectLinuxDistroAndCollectUpdates(g, h);
    } else if h.goos == "darwin" {
      CollectMacOSPackageUpdates(g, h.existing);
    }
  }
}
