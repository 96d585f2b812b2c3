# System-Info-Exporter probes, modelled in Dafny

System-Info-Exporter is a Prometheus exporter written in Go. On every
collection cycle a set of probes reads the machine and writes label tuples
into gauge families:
- package versions, from dpkg, yum/dnf or Homebrew;
- login users, from /etc/passwd;
- package update availability;
- operating system name and version;
- processes, from /proc;
- filesystems, from statfs;
- audited files, from a directory walk;
- crontab jobs;
- network interfaces.

A small main program derives CPU and memory limits from its flags and
listens on `address:port`.

This project models each probe as it is written. A probe is a Dafny method
that reads a `Host` value and writes a `GaugeVec` object.

`Host` holds everything the probe can observe:
- the operating system and architecture;
- paths that exist and commands on the path;
- file contents as scanned lines, with a flag for a scanner error;
- command outputs;
- directory listings;
- user lookups;
- walk callbacks and statfs results;
- interfaces and processes.

`GaugeVec.series` is a map from label tuple to value. Its only operation
is `Set`, because the code never deletes or resets a series.

Each probe method is proved equal to `SetAll(old series, Tuples(host), 1)`,
except the package-update probe. That one is proved equal to
`SetUpdate(old series, PackageUpdate(host))`, which sets at most one series,
with the value 0 or 1.
`Tuples` is a pure specification function: the sequence of tuples the probe
sets, in order. The properties the code promises are proved as lemmas about
those functions. They cover:
- which lines are kept;
- first-match versus last-match;
- quote and space trimming;
- the dpkg reset after each emitted tuple;
- the dpkg > yum > dnf precedence;
- the distro dispatch;
- the byte formatter's exponent range;
- int64 wrap-around in the filesystem sizes;
- the persistence of stale series.

Modules:
- `Common`: `Option`, scanned files, `FilterMap`, and the int64 range with
  two's-complement wrap-around.
- `GoStrings`: the Go `strings`/`strconv` functions the probes call.
- `Gauge`: the gauge family.
- `Host`: the observable machine.
- One module per probe file: `PackageVersions`, `UserInfo`, `PackageUpdates`,
  `OSInfo`, `ProcessMetrics`, `FilesystemMetrics`, `ByteFormat`,
  `AuditingMetrics`, `ScheduledJobsMetrics` and `NetworkMetrics`.
- `SystemOSInfo`: the main program's arithmetic and one collection cycle.

The model follows the code as written:
- No series is ever deleted or reset. `Gauge.StaleSeriesPersist` and
  `Gauge.ExitedProcessStaysExported` state this.
- On Linux, `NAME=` and `VERSION_ID=` take the first line whose trimmed
  value is non-empty. The guard is `osName == ""`, so an empty `NAME=""`
  line does not stop the search.
- A `Uid:` line with nothing after the colon makes the Go code index an
  empty slice and panic. Nothing recovers it: the collection goroutine
  (metrics/collector.go:7-16) has no `recover`, so the panic ends the
  whole exporter. The model returns `panicked` and stops the process probe
  there; the series set before it stay set, and nothing after it runs.
- On Linux, the `ID=` scan of /etc/os-release stops at the first `ID=`
  line and then asks `scanner.Err()`. A `bufio.Scanner` keeps delivering
  the lines it has buffered after it records a read error, so the answer
  depends on whether the error was recorded before that line was
  delivered. `Common.FileScan` counts those late lines, and the update is
  dropped exactly when the first `ID=` line is one of them or there is
  none; an error recorded later is never seen.
- `CollectPackageVersions` (metrics/package_versions.go:27) and
  `CollectSystemUserMetrics` (metrics/user_info.go:30) take a `debug bool`
  argument, but system_os_info.go:54 and metrics/collector.go:9 call them
  with none. As written, the program therefore does not compile. The model
  follows the callees' signatures. Debug logging has no effect on the
  gauges.

## Model

| member | source | states |
|---|---|---|
| Gauge.GaugeVec.constructor | metrics/package_versions.go:15-21 | a new family has the given label names and no series |
| Gauge.GaugeVec.Set | metrics/package_versions.go:98 | `WithLabelValues(...).Set(v)` updates exactly the one tuple's value; all other series are unchanged |
| Gauge.SetAllEffect | metrics/package_versions.go:98 | after setting a run of tuples, the keys are the old keys plus the tuples; each tuple holds the value; other series keep their old values |
| Gauge.StaleSeriesPersist | metrics/package_versions.go:145 | two cycles never remove a series: the keys after both are the union of the old keys and both cycles' tuples |
| Gauge.ExitedProcessStaysExported | metrics/process_metrics.go:78 | any tuple set in one cycle and absent from the next (a process that exited) is still exported with value 1 after the second |
| Common.WrapInt64 | metrics/filesystem_metrics.go:40-42 | the two's-complement int64 reinterpretation: in range, congruent to its input modulo 2^64, and the identity on int64 values |
| Common.FilterMapMembership | metrics/package_versions.go:177-187 | a tuple is collected exactly when some item yields it |
| Common.FilterMapAppend | metrics/package_versions.go:177-187 | collecting over two runs of items gives the first run's tuples followed by the second's |
| Host.ScanLines | metrics/package_versions.go:85-86 | line i is piece i of the text split at newlines with one trailing CR dropped, only a final empty piece (after a final newline) is not delivered, and no line contains a newline |
| Host.DropCR | metrics/package_versions.go:87 | the raw line is the scanned line, or the scanned line followed by one CR, and a final CR is always removed |
| GoStrings.TrimPrefix | metrics/package_versions.go:141 | with the prefix present, prefix + result is the input; otherwise the input is returned unchanged |
| GoStrings.TrimLeftSpace | metrics/os_info.go:93 | the result is a suffix of the input, everything removed is white space, and it does not start with white space |
| GoStrings.TrimRightSpace | metrics/os_info.go:93 | the result is a prefix of the input, everything removed is white space, and it does not end with white space |
| GoStrings.TrimSpace | metrics/os_info.go:37 | the result neither starts nor ends with white space |
| GoStrings.TrimSpaceKeeps | metrics/os_info.go:37 | trimming never introduces a character that is not in the input |
| GoStrings.AllSpaceTrimsToEmpty | metrics/package_versions.go:89 | an all-space line trims to empty from the left |
| GoStrings.TrimSpaceEmptyIffAllSpace | metrics/scheduled_jobs_metrics.go:39 | `TrimSpace(line) == ""` exactly when the line is all white space |
| GoStrings.TrimLeftChar | metrics/package_updates.go:50 | the result is a suffix whose removed part is all the cut character, and it does not start with it |
| GoStrings.TrimRightChar | metrics/package_updates.go:50 | the result is a prefix whose removed part is all the cut character, and it does not end with it |
| GoStrings.TrimChar | metrics/package_updates.go:50 | `strings.Trim(s, "\"")` neither starts nor ends with a quote |
| GoStrings.TrimCharSlice | metrics/os_info.go:62 | the trimmed value is a contiguous slice of the input with only the cut character around it |
| GoStrings.TrimCharUnquoted | metrics/os_info.go:62 | an unquoted value is returned unchanged |
| GoStrings.TrimCharQuoted | metrics/os_info.go:62 | a value in one pair of quotes comes back without them |
| GoStrings.Word | metrics/package_versions.go:94 | the first field is a space-free prefix that ends at white space or at the end |
| GoStrings.Fields | metrics/package_versions.go:94 | every field is non-empty and holds no white space, and the fields written one after another are exactly the input with its white space removed |
| GoStrings.FieldsAroundSpace | metrics/package_versions.go:94 | white space separates fields: the fields of a + c + b, for a white-space c, are the fields of a followed by the fields of b |
| GoStrings.FieldsEmptyIffAllSpace | metrics/scheduled_jobs_metrics.go:39-43 | a line has no fields exactly when it is all white space |
| GoStrings.FieldsOfJoin | metrics/scheduled_jobs_metrics.go:50 | joining non-empty, space-free words with single spaces and splitting into fields gives the words back |
| GoStrings.Split | metrics/user_info.go:86 | `strings.Split` gives at least one piece, and no piece holds the separator |
| GoStrings.JoinOfSplit | metrics/user_info.go:86 | joining the pieces with the separator gives back the line |
| GoStrings.SplitHead | metrics/process_metrics.go:71 | the first piece is a prefix that ends at a separator or at the end |
| GoStrings.SplitAfterKey | metrics/process_metrics.go:71 | a separator-free key followed by the separator splits into the key and the pieces of the rest |
| GoStrings.Atoi | metrics/user_info.go:89 | a parse succeeds only on an optional sign followed by a non-empty run of digits, and then yields the digits' decimal value negated after '-'; conversely such a numeral parses exactly when that value fits an int64 |
| GoStrings.AtoiOfItoa | metrics/process_metrics.go:90 | `strconv.Atoi(strconv.Itoa(n)) == n` for every int64 |
| PackageVersions.YumLineTupleSpec | metrics/package_versions.go:89-99 | a yum line sets a tuple iff it is not a header and has at least three fields; all-space lines set none; the tuple is (fields[0], fields[1]), both non-empty and space-free |
| PackageVersions.ParseYumOutput | metrics/package_versions.go:84-105 | the scanner loop sets exactly the listing's tuples, in order |
| PackageVersions.DpkgTupleFromVersionLine | metrics/package_versions.go:138-149 | every dpkg tuple has a non-empty name and version; its version is that of some `Version: ` line and its name that of the last `Package: ` line before it (or the name pending at the start); from the empty state an earlier `Package: ` line always names it |
| PackageVersions.DpkgNothingWithoutPackage | metrics/package_versions.go:142-146 | with no name pending and no later `Package: ` line, nothing is set; so a second `Version:` line after an emitted tuple sets nothing |
| PackageVersions.DpkgOtherLinesIgnored | metrics/package_versions.go:140-147 | lines that start with neither `Package: ` nor `Version: ` (Status:, Architecture:, …) leave the scan unchanged |
| PackageVersions.DpkgStanzaResets | metrics/package_versions.go:140-146 | a stanza, with any other fields between its `Package:` and `Version:` lines, sets its (name, version) tuple, then the scan restarts from the empty state |
| PackageVersions.DpkgLastPackageWins | metrics/package_versions.go:140-145 | after any lines without a `Version: ` line, including earlier `Package: ` lines, a stanza sets the name of its own `Package: ` line: earlier names are overwritten |
| PackageVersions.ScanDpkgLine | metrics/package_versions.go:140-147 | one iteration moves `packageName`/`version` as the dpkg step does and sets the completed stanza's tuple, if any |
| PackageVersions.ParseDpkgStatusFile | metrics/package_versions.go:128-153 | the loop carrying `packageName`/`version` sets exactly the status file's tuples; an open error sets nothing |
| PackageVersions.FirstExisting | metrics/package_versions.go:156-164 | the cellar is "" iff no candidate exists, else the first existing candidate in list order |
| PackageVersions.FindHomebrewCellar | metrics/package_versions.go:158-164 | the loop with `break` returns that first existing cellar |
| PackageVersions.CellarEntryTuple | metrics/package_versions.go:178-185 | a cellar entry sets a tuple iff it is a directory whose own listing is readable and non-empty; the tuple is (name, first version entry) |
| PackageVersions.RecordCellarEntry | metrics/package_versions.go:178-186 | one entry of the cellar loop sets its tuple or leaves the family unchanged |
| PackageVersions.RecordCellar | metrics/package_versions.go:177-187 | the cellar loop sets exactly the entries' tuples, in listing order |
| PackageVersions.CollectMacOSPackageVersions | metrics/package_versions.go:155-188 | no cellar or an unreadable cellar sets nothing; otherwise the cellar's tuples are set |
| PackageVersions.LinuxPackageSource | metrics/package_versions.go:53-81 | dpkg iff its status file exists; yum iff no dpkg and yum is found; dnf iff neither and dnf is found; otherwise none |
| PackageVersions.DpkgShadowsYumAndDnf | metrics/package_versions.go:53-57 | when the dpkg status file exists, the result is the status file's tuples whatever yum and dnf would list |
| PackageVersions.CollectLinuxPackageVersions | metrics/package_versions.go:52-82 | sets the chosen manager's tuples; a failing yum/dnf command sets nothing |
| PackageVersions.CollectPackageVersions | metrics/package_versions.go:27-50 | dispatches on the OS: Linux and macOS collectors, nothing elsewhere |
| UserInfo.PasswdUserKept | metrics/user_info.go:84-111 | a passwd line is kept iff it has at least 7 fields, an integer uid of at least 1000, a login shell of exactly /bin/bash or /bin/sh, and a known account; the gid is field 3 verbatim |
| UserInfo.UsersInFileOrder | metrics/user_info.go:107 | kept users appear in file order |
| UserInfo.LineUser | metrics/user_info.go:85-116 | one iteration of the scanner loop, with each `continue`, yields exactly the line's user |
| UserInfo.ScanUsers | metrics/user_info.go:84-118 | the loop appends exactly the kept users, in file order |
| UserInfo.FetchAllUsers | metrics/user_info.go:73-124 | an open error or a scanner error gives the error result; otherwise the kept users |
| UserInfo.UserTupleLabels | metrics/user_info.go:50-61 | the tuple is (username, home, uid, gid, active), where active is "1" iff the user is active and "0" otherwise |
| UserInfo.ReadErrorSetsNothing | metrics/user_info.go:35-39 | after an error reading /etc/passwd no user tuple is set, not even for lines read before it |
| UserInfo.CollectSystemUserMetrics | metrics/user_info.go:30-71 | sets exactly the fetched users' tuples, skipping users whose uid does not parse |
| PackageUpdates.DistroIdIsFirstIdLine | metrics/package_updates.go:47-53 | the distro is the first `ID=` line's value with the surrounding quotes trimmed |
| PackageUpdates.DistroIdWithoutIdLine | metrics/package_updates.go:46-53 | without an `ID=` line the distro is empty |
| PackageUpdates.DistroIdAfter | metrics/package_updates.go:49-52 | lines after the first `ID=` line do not matter (the loop breaks) |
| PackageUpdates.QuotedIdIsUnquoted | metrics/package_updates.go:50 | `ID="x"` and `ID=x` give the same distro x |
| PackageUpdates.FirstIdIndex | metrics/package_updates.go:47-53 | the line the `ID=` loop breaks at is the first that starts with `ID=`, or the end when none does |
| PackageUpdates.ReadDistroId | metrics/package_updates.go:45-53 | the scan loop with `break` computes that distro, and stops at the first line that starts with `ID=`, or at the end when none does |
| PackageUpdates.ManagerOf | metrics/package_updates.go:60-67 | ubuntu/debian dispatch to apt; rhel/centos/fedora/amazon/amzn to yum-or-dnf; anything else, including "", to nothing |
| PackageUpdates.AptUpdate | metrics/package_updates.go:98-109 | apt sets a tuple iff the lists directory exists; its value is 1 iff the partial directory exists, else 0 |
| PackageUpdates.YumOrDnfUpdate | metrics/package_updates.go:111-126 | exactly one tuple: ("yum",1) with the yum cache, else ("dnf",1) with the dnf cache, else ("yum_or_dnf",0) |
| PackageUpdates.HomebrewUpdate | metrics/package_updates.go:73-96 | exactly one ("homebrew", v) tuple; v is 1 iff a cellar exists and the first existing cellar's `outdated` path exists |
| PackageUpdates.UpdateLabelsFollowPlatform | metrics/package_updates.go:25-34 | any tuple has value 0 or 1; the homebrew label appears iff on macOS; the apt and yum/dnf labels only on Linux with the matching distro |
| PackageUpdates.OsReleaseErrorSetsNothing | metrics/package_updates.go:38-58 | an os-release that cannot be opened, or whose scan fails with no `ID=` line delivered before the error was recorded, sets no update tuple |
| PackageUpdates.ErrorAfterIdLineIsUnseen | metrics/package_updates.go:47-58 | a read error recorded after an `ID=` line was delivered gives the same update as the same lines read without an error, because the loop has already broken |
| PackageUpdates.CollectAptUpdates | metrics/package_updates.go:98-109 | sets the apt decision |
| PackageUpdates.CollectYumOrDnfUpdates | metrics/package_updates.go:111-126 | sets the yum/dnf decision |
| PackageUpdates.CollectMacOSPackageUpdates | metrics/package_updates.go:73-96 | sets the homebrew decision |
| PackageUpdates.DetectLinuxDistroAndCollectUpdates | metrics/package_updates.go:36-71 | a missing or unopenable os-release, or a read error before any `ID=` line, sets nothing; otherwise the distro's manager decides |
| PackageUpdates.CollectPackageUpdateAvailability | metrics/package_updates.go:25-34 | dispatches on the OS |
| OSInfo.FirstValue | metrics/os_info.go:61-64 | the Linux value is empty or carries no surrounding quote |
| OSInfo.FirstValueAt | metrics/os_info.go:61-64 | the value is that of the first line for the key whose trimmed value is non-empty; later lines are ignored |
| OSInfo.FirstValueAbsent | metrics/os_info.go:57-66 | without such a line the value stays "" |
| OSInfo.OsReleaseKeysExclusive | metrics/os_info.go:61-63 | no line is both a `NAME=` and a `VERSION_ID=` line, so the else-if loses nothing |
| OSInfo.ScanOsRelease | metrics/os_info.go:57-66 | the guarded first-wins loop computes both values |
| OSInfo.LastValue | metrics/os_info.go:91-96 | a non-empty macOS value starts and ends with a non-space character |
| OSInfo.LastValueAt | metrics/os_info.go:91-96 | the last `ProductName:`/`ProductVersion:` line wins, trimmed of white space |
| OSInfo.LastValueAbsent | metrics/os_info.go:89-97 | without such a line the value stays "" |
| OSInfo.SwVersKeysExclusive | metrics/os_info.go:92-94 | no line carries both keys |
| OSInfo.ScanSwVers | metrics/os_info.go:89-97 | the unguarded last-wins loop computes both values |
| OSInfo.OSInfoTupleShape | metrics/os_info.go:26-47 | a tuple is set only when `uname -r` succeeds, only on Linux or macOS, in label order (name, version, GOARCH, GOOS, trimmed kernel) |
| OSInfo.LinuxTupleShape | metrics/os_info.go:49-79 | the Linux tuple carries the first-wins values, with no surrounding quotes |
| OSInfo.MacTupleShape | metrics/os_info.go:81-105 | the macOS tuple carries the last-wins values, space-trimmed |
| OSInfo.KernelFailureSetsNothing | metrics/os_info.go:32-36 | a failing `uname -r` sets nothing |
| OSInfo.SetTuple | metrics/os_info.go:78 | sets the tuple if there is one |
| OSInfo.CollectLinuxOSInfo | metrics/os_info.go:49-79 | an open or read error, or an empty name or version, sets nothing; otherwise the tuple |
| OSInfo.CollectMacOSInfo | metrics/os_info.go:81-105 | a failing `sw_vers`, or an empty name or version, sets nothing; otherwise the tuple |
| OSInfo.CollectOSInfo | metrics/os_info.go:26-47 | sets exactly the OS tuple, if any |
| ProcessMetrics.StatusKeysExclusive | metrics/process_metrics.go:70-72 | no status line is both a `Name:` and a `Uid:` line |
| ProcessMetrics.AfterKeyIsSecondPiece | metrics/process_metrics.go:71-73 | `strings.Split(line, ":")[1]` of a keyed line is the text after the key up to the next ':' |
| ProcessMetrics.StatusName | metrics/process_metrics.go:67-76 | the name label is empty or trimmed at both ends |
| ProcessMetrics.StatusNameHasNoColon | metrics/process_metrics.go:71 | the name label never contains ':' |
| ProcessMetrics.StatusUser | metrics/process_metrics.go:72-74 | the user label holds no white space |
| ProcessMetrics.StatusPanicsExtends | metrics/process_metrics.go:73 | once a status file panics, more lines do not undo it |
| ProcessMetrics.NameIsLastNameLine | metrics/process_metrics.go:69-76 | the last `Name:` line supplies the name |
| ProcessMetrics.UserIsLastUidLine | metrics/process_metrics.go:69-76 | the last `Uid:` line supplies its first field as the user |
| ProcessMetrics.AbsentLinesGiveEmptyLabels | metrics/process_metrics.go:67 | without a `Name:` line the name is ""; without a `Uid:` line the user is "" and nothing panics |
| ProcessMetrics.ScanStatusLine | metrics/process_metrics.go:70-74 | one line: a `Name:` line sets the name to its trimmed value, a `Uid:` line sets the user to its first field and panics exactly when it has none, any other line changes nothing |
| ProcessMetrics.ParseStatus | metrics/process_metrics.go:67-76 | the line loop panics exactly when `StatusPanics` holds, and otherwise yields `StatusName` and `StatusUser` |
| ProcessMetrics.TuplesComeFromPidDirectories | metrics/process_metrics.go:50-78 | every tuple set is (pid, Name:, Uid-derived user) of the status file of a directory entry with an integer name, and that status file is readable and does not panic |
| ProcessMetrics.PidDirectoryIsSet | metrics/process_metrics.go:50-78 | conversely, a directory entry with an integer name whose status file is readable and does not panic sets its (pid, name, user) tuple, unless an earlier entry panicked |
| ProcessMetrics.UnreadableStatusIsSkipped | metrics/process_metrics.go:61-65 | an unreadable status file skips its pid without a tuple |
| ProcessMetrics.CollectPid | metrics/process_metrics.go:51-78 | one iteration: skip, set (pid, name, user), or panic |
| ProcessMetrics.CollectPids | metrics/process_metrics.go:50-79 | the pid loop sets the tuples up to the first panic and reports it |
| ProcessMetrics.CollectLinuxProcessMetrics | metrics/process_metrics.go:42-80 | an unreadable /proc sets nothing; otherwise the pid loop |
| ProcessMetrics.MacPidLabelRoundTrip | metrics/process_metrics.go:90 | the macOS pid label reads back as the pid |
| ProcessMetrics.CollectMacOSProcessMetrics | metrics/process_metrics.go:82-104 | a failing process list sets nothing; processes whose name or user lookup fails are skipped |
| ProcessMetrics.CollectProcessMetrics | metrics/process_metrics.go:32-40 | dispatches on the OS |
| ByteFormat.UnitExp | metrics/filesystem_metrics.go:72-75 | the exponent the loop reaches from n: n < 1024^(e+1), and 1024^e <= n when e > 0 |
| ByteFormat.UnitExpUnique | metrics/filesystem_metrics.go:72-75 | that exponent is the only k with 1024^k <= n < 1024^(k+1) |
| ByteFormat.ExpWithinLetters | metrics/auditing_metrics.go:64-68 | for every int64 the exponent is at most 5, so indexing "KMGTPE" is in bounds |
| ByteFormat.SmallCountIsExact | metrics/auditing_metrics.go:60-62 | below 1024, negatives included, the label is the decimal count followed by " B", and it reads back as the count |
| ByteFormat.ScaledCountIsInRange | metrics/filesystem_metrics.go:71-76 | from 1024 on, div = 1024^(exp+1) <= bytes, 1 <= bytes / div < 1024, and the label names the unit of exp; no other exponent brackets the count |
| ByteFormat.FormatBytes | metrics/auditing_metrics.go:58-69 | the loop over n, div and exp computes that label (the same code as metrics/filesystem_metrics.go:66-77) |
| FilesystemMetrics.FilesystemType | metrics/filesystem_metrics.go:54-64 | "ext4" iff 0xEF53, "tmpfs" iff 0x01021994, "unknown" iff neither |
| FilesystemMetrics.UsedSpaceIsAllocatedBlocks | metrics/filesystem_metrics.go:40-42 | when the sizes fit an int64, total = blocks·bsize, free = bfree·bsize, used = (blocks − bfree)·bsize, and 0 <= used <= total |
| FilesystemMetrics.FilesystemTuplesAreProbedMounts | metrics/filesystem_metrics.go:31-50 | a tuple is set iff it is the tuple of one of "/", "/home" and "/var" whose statfs succeeds |
| FilesystemMetrics.MountsInProbingOrder | metrics/filesystem_metrics.go:31-32 | the mount points are probed in the order "/", "/home", "/var" |
| FilesystemMetrics.CollectMountPoint | metrics/filesystem_metrics.go:33-50 | a failing statfs sets nothing; otherwise (mount point, type, formatted total, formatted used) |
| FilesystemMetrics.CollectFilesystemMetrics | metrics/filesystem_metrics.go:30-52 | sets exactly the probed mounts' tuples |
| AuditingMetrics.OnlyFilesAreSet | metrics/auditing_metrics.go:32-48 | a tuple is set iff some visit without an error is a file; its tuple is (path, modification time, formatted size); directories set nothing |
| AuditingMetrics.VisitTuplesAppend | metrics/auditing_metrics.go:32 | the visits of a walk set their tuples in walk order |
| AuditingMetrics.ErrorsDoNotStopTheWalk | metrics/auditing_metrics.go:33-36 | a visit with an error sets nothing and the visits after it are set as if it had not happened |
| AuditingMetrics.LogsBeforeEtc | metrics/auditing_metrics.go:29-31 | /var/log is walked first, then /etc |
| AuditingMetrics.WalkDirectory | metrics/auditing_metrics.go:32-50 | the walk callback sets exactly the walk's file tuples |
| AuditingMetrics.CollectAuditingMetrics | metrics/auditing_metrics.go:27-56 | sets exactly the tuples of both walks, in order |
| ScheduledJobsMetrics.CronTupleKept | metrics/scheduled_jobs_metrics.go:39-47 | a line sets a tuple iff it does not start with '#' and has at least 6 fields |
| ScheduledJobsMetrics.IndentedHashIsAJob | metrics/scheduled_jobs_metrics.go:39 | a '#' after leading white space is not a comment |
| ScheduledJobsMetrics.ScheduleRoundTrip | metrics/scheduled_jobs_metrics.go:50 | the schedule label splits back into the first five fields |
| ScheduledJobsMetrics.JobLabels | metrics/scheduled_jobs_metrics.go:50-55 | job_name is the sixth field (one word), schedule is the first five fields joined by single spaces and splits back into exactly those fields, last_run_status is "unknown" |
| ScheduledJobsMetrics.ReadErrorKeepsEarlierJobs | metrics/scheduled_jobs_metrics.go:55-60 | a scanner error keeps the tuples of every line delivered, before or after the error was recorded |
| ScheduledJobsMetrics.CollectScheduledJobsMetrics | metrics/scheduled_jobs_metrics.go:26-61 | an open error sets nothing; otherwise exactly the crontab's tuples |
| NetworkMetrics.FirstIPv4 | metrics/network_metrics.go:43-50 | a chosen address is the text of some IPv4 address |
| NetworkMetrics.FirstIPv4At | metrics/network_metrics.go:44-49 | the first IPv4 address in list order is chosen |
| NetworkMetrics.FirstIPv4Absent | metrics/network_metrics.go:43-50 | no address is chosen iff none is IPv4, and the label is then "unknown" |
| NetworkMetrics.MacLabel | metrics/network_metrics.go:52-55 | the MAC label is never empty; a non-empty MAC is kept |
| NetworkMetrics.OnlyUpInterfacesAreSet | metrics/network_metrics.go:31-57 | every tuple comes from an up interface whose addresses were read, and is (name, IP label, MAC label) |
| NetworkMetrics.PickIPAddress | metrics/network_metrics.go:43-50 | the inner loop with `break` computes the IP label |
| NetworkMetrics.CollectNetworkMetrics | metrics/network_metrics.go:24-59 | an interface enumeration error sets nothing; otherwise exactly the up interfaces' tuples |
| SystemOSInfo.NumCores | system_os_info.go:27 | the cores are ⌈millicores / 1000⌉: at least 1, and the least count covering the cap |
| SystemOSInfo.CpuCap | system_os_info.go:26-28 | a cap is set exactly when the millicores are positive, and it is the least core count whose millicores cover them |
| SystemOSInfo.MemoryLimitBytes | system_os_info.go:35 | the limit is MB·1024·1024 when that fits an int64 |
| SystemOSInfo.BreachIsStrict | system_os_info.go:33-40 | the monitor runs for a positive limit; a breach is strictly `Alloc >` limit, and equality is not one |
| SystemOSInfo.ServerAddressSplits | system_os_info.go:83 | the address is address + ":" + port and splits back at its last ':' |
| SystemOSInfo.CollectionCycle | system_os_info.go:52-56 | one tick collects package versions, then OS info, then update availability, each into its own family |

## Left out

- All I/O is an input held in `Host`: reading files, stat, directory
  listings, commands, statfs, the directory walk, `net.Interfaces`,
  gopsutil and `user.Lookup`.
- `isUserActive` (metrics/user_info.go:126-168) is the set `activeUids`.
  Its /proc and `w -h` scans are not modelled.
- The `%.1f` rendering of `float64(bytes)/float64(div)` is a parameter
  `render` of the byte formatter, because floating point is not modelled.
  `parseVersionToFloat` (metrics/package_versions.go:107-126) is left out
  for the same reason; nothing calls it.
- RFC 3339 formatting of the modification time is a string input.
- `net.ParseCIDR`/`To4` is the `IP` datatype: an address that failed to
  parse, or one with a known IPv4 flag.
- SystemOSInfo.NumCores: uses exact integer ceiling. `math.Ceil` on a
  float64 agrees for every cap below 2^53 millicores.
- The bufio scanner's token-size limit is not modelled. A scanned file is
  the lines delivered, an error flag, and how many of the final lines
  were delivered after the error was recorded.
- Text is modelled as sequences of Unicode code points, while Go strings
  are bytes. Bytes that are not valid UTF-8 cannot be represented: for
  example a file name under /var/log or /etc, or a process `Name:`.
- Gauge.GaugeVec.Set: never fails. The Prometheus client's
  `WithLabelValues` panics on a label value that is not valid UTF-8, and
  such values cannot be represented here.
- Concurrency and timing are not modelled: the ticker and memory-monitor
  goroutines, `GOMAXPROCS`, `ReadMemStats` and `log.Fatalf`.
- Also not modelled: HTTP serving and the landing page, flag parsing,
  Prometheus registration, and debug logging.
- metrics/user_metrics.go and the metrics/collector.go loop are not part of
  this model.
- The int64 overflow of `*memoryLimit * 1024 * 1024` is modelled by
  `SystemOSInfo.MemoryLimitBytes` (wrap-around) and `SystemOSInfo.Breach`
  (the uint64 reinterpretation). Strictness is proved only for limits that
  fit an int64.
