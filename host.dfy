/** What one collection cycle can observe of the machine it runs on. Every
    file, directory, command and system call that the probes touch is an
    input here, so that each probe is a deterministic function of the host. */
module Host {
  import opened Common
  import opened GoStrings

  /** An entry of `os.ReadDir` / `ioutil.ReadDir`. */
  datatype DirEntry = DirEntry(name: string, isDir: bool)

  /** One call of the `filepath.Walk` callback: the path, whether the walk
      passed an error for it, and the file's information. The modification
      time is already rendered in RFC 3339 form. */
  datatype WalkVisit = WalkVisit(path: string, failed: bool, isDir: bool, size: Int64, modTime: string)

  /** The fields of `syscall.Statfs_t` the filesystem probe reads: `Type`
      (a uint32 magic number), `Bsize` (int64), `Blocks` and `Bfree` (uint64). */
  datatype Statfs = Statfs(fsType: int, bsize: Int64, blocks: int, bfree: int)

  /** An interface address as `net.ParseCIDR` sees its text: `None` when it
      does not parse, else the IP with whether `To4()` is non-nil and the
      IP's `String()`. */
  datatype IP = IP(isV4: bool, text: string)

  /** A `net.Interface`: its name, whether `FlagUp` is set, the result of
      `Addrs()` (`None` on error), and `HardwareAddr.String()`. */
  datatype Interface = Interface(name: string, up: bool, addrs: Option<seq<Option<IP>>>, mac: string)

  /** A process as gopsutil's `process.Processes()` lists it on macOS: its
      pid and the results of `Name()` and `Username()` (`None` on error). */
  datatype ProcInfo = ProcInfo(pid: int, name: Option<string>, username: Option<string>)

  /** What `user.Lookup(name)` returns on success. */
  datatype Account = Account(username: string, uid: string, homeDir: string)

  datatype Host = Host(
    goos: string,                         // runtime.GOOS
    goarch: string,                       // runtime.GOARCH
    existing: set<string>,                // paths on which os.Stat succeeds
    onPath: set<string>,                  // commands exec.LookPath finds
    scans: map<string, FileScan>,         // bufio.Scanner over os.Open(path); absent: open fails
    contents: map<string, string>,        // ioutil.ReadFile(path); absent: read fails
    dirs: map<string, seq<DirEntry>>,     // os.ReadDir(path); absent: read fails
    commands: map<seq<string>, string>,   // stdout of a command that succeeds; absent: it fails
    accounts: map<string, Account>,       // user.Lookup(name); absent: lookup fails
    activeUids: set<int>,                 // the uids for which isUserActive holds
    walks: map<string, seq<WalkVisit>>,   // the callbacks of filepath.Walk(root)
    statfs: map<string, Statfs>,          // syscall.Statfs(path); absent: it fails
    interfaces: Option<seq<Interface>>,   // net.Interfaces()
    processes: Option<seq<ProcInfo>>)     // gopsutil process.Processes()

  function Scan(h: Host, path: string): FileScan {
    if path in h.scans then h.scans[path] else OpenFailed
  }

  function Command(h: Host, argv: seq<string>): Option<string> {
    if argv in h.commands then Some(h.commands[argv]) else None
  }

  function ReadDir(h: Host, path: string): Option<seq<DirEntry>> {
    if path in h.dirs then Some(h.dirs[path]) else None
  }

  /** The lines a `bufio.Scanner` with `ScanLines` delivers for a complete
      text: split at each newline, no empty line after a final newline, and
      one trailing carriage return dropped from each line. */
  function ScanLines(text: string): (lines: seq<string>)
    ensures forall i :: 0 <= i < |lines| ==> '\n' !in lines[i]
    ensures var parts := Split(text, '\n');
      && (|lines| == |parts| || |lines| + 1 == |parts|)
      && (|lines| < |parts| <==> parts[|parts| - 1] == [])
      && forall i :: 0 <= i < |lines| ==> lines[i] == DropCR(parts[i])
  {
    var parts := Split(text, '\n');
    var complete := if parts[|parts| - 1] == [] then parts[..|parts| - 1] else parts;
    seq(|complete|, i requires 0 <= i < |complete| => DropCR(complete[i]))
  }

  /** A line with one trailing carriage return removed, if it has one. */
  function DropCR(line: string): (r: string)
    ensures line == r || line == r + "\r"
    ensures line != [] && line[|line| - 1] == '\r' ==> line == r + "\r"
  {
    if line != [] && line[|line| - 1] == '\r' then line[..|line| - 1] else line
  }
}
