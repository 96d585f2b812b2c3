/** metrics/user_info.go: the `system_user_info{username,home_directory,uid,
    gid,active}` family, filled from the login users of /etc/passwd. */
module UserInfo {
  import opened Common
  import opened GoStrings
  import opened Gauge
  import opened Host

  const SystemUserLabels: seq<string> := ["username", "home_directory", "uid", "gid", "active"]

  const PasswdPath := "/etc/passwd"

  /** The `user.User` values `fetchAllUsers` builds: the account as
      `user.Lookup` reports it, with the group id copied from /etc/passwd. */
  datatype User = User(username: string, uid: string, gid: string, homeDir: string)

  /** The numeric uid of a passwd entry, when its third field is one. */
  function PasswdUid(fields: seq<string>): Option<int>
    requires |fields| >= 3
  {
    Atoi(fields[2])
  }

  predicate IsLoginShell(shell: string) {
    shell == "/bin/bash" || shell == "/bin/sh"
  }

  /** The user one line of /etc/passwd contributes, if any. */
  function PasswdUser(accounts: map<string, Account>, line: string): Option<User> {
    var fields := Split(line, ':');
    if |fields| < 7 then None
    else
      var uid := PasswdUid(fields);
      if uid.None? || uid.value < 1000 then None
      else if !IsLoginShell(fields[6]) then None
      else if fields[0] !in accounts then None
      else
        var usr := accounts[fields[0]];
        Some(User(usr.username, usr.uid, fields[3], usr.homeDir))
  }

  /** A line is kept exactly when it has at least seven ':'-separated
      fields, its uid field is an integer of at least 1000, its shell is
      /bin/bash or /bin/sh and the named account can be looked up; the group
      id is then its fourth field verbatim, so it never holds a ':'. */
  lemma PasswdUserKept(accounts: map<string, Account>, line: string)
    ensures var fields := Split(line, ':');
      PasswdUser(accounts, line).Some? <==>
        |fields| >= 7 && Atoi(fields[2]).Some? && Atoi(fields[2]).value >= 1000
        && IsLoginShell(fields[6]) && fields[0] in accounts
    ensures var fields := Split(line, ':');
      PasswdUser(accounts, line).Some? ==>
        var u := PasswdUser(accounts, line).value;
        u.gid == fields[3] && ':' !in u.gid && u == User(accounts[fields[0]].username,
          accounts[fields[0]].uid, fields[3], accounts[fields[0]].homeDir)
  {
  }

  /** The users of a passwd file, in file order. */
  function Users(accounts: map<string, Account>, lines: seq<string>): seq<User> {
    FilterMap(line => PasswdUser(accounts, line), lines)
  }

  /** Users are listed in file order: the users of two consecutive runs of
      lines are those of the first run followed by those of the second. */
  lemma UsersInFileOrder(accounts: map<string, Account>, a: seq<string>, b: seq<string>)
    ensures Users(accounts, a + b) == Users(accounts, a) + Users(accounts, b)
  {
    FilterMapAppend(line => PasswdUser(accounts, line), a, b);
  }

  /** What `fetchAllUsers` returns: `None` for its error result. */
  function FetchedUsers(accounts: map<string, Account>, scan: FileScan): Option<seq<User>> {
    match scan
    case OpenFailed => None
    case Scanned(lines, failed, _) => if failed then None else Some(Users(accounts, lines))
  }

  /** One more line read extends the users of the lines before it by that
      line's user, if any. */
  lemma UsersOfPrefix(accounts: map<string, Account>, lines: seq<string>, i: nat)
    requires i < |lines|
    ensures Users(accounts, lines[..i + 1]) == Users(accounts, lines[..i]) + Values(PasswdUser(accounts, lines[i]))
  {
    assert lines[..i + 1] == lines[..i] + [lines[i]];
    UsersInFileOrder(accounts, lines[..i], [lines[i]]);
    assert [lines[i]][0] == lines[i] && [lines[i]][1..] == [];
    assert Users(accounts, [lines[i]]) == Values(PasswdUser(accounts, lines[i])) + Users(accounts, []);
  }

  /** The body of the scanner loop of `fetchAllUsers`: the user one line
      yields, or none when one of the filters says `continue`. */
  method LineUser(accounts: map<string, Account>, line: string) returns (u: Option<User>)
    ensures u == PasswdUser(accounts, line)
  {
    var fields := Split(line, ':');
    if |fields| < 7 {
      return None;
    }
    var uid := Atoi(fields[2]);
    if uid.None? || uid.value < 1000 {
      return None;
    }
    var shell := fields[6];
    if shell != "/bin/bash" && shell != "/bin/sh" {
      return None;
    }
    if fields[0] !in accounts {
      return None;
    }
    var usr := accounts[fields[0]];
    return Some(User(usr.username, usr.uid, fields[3], usr.homeDir));
  }

  /** The scanner loop of `fetchAllUsers`: appends each kept user in
      file order. */
  method ScanUsers(accounts: map<string, Account>, lines: seq<string>) returns (kept: seq<User>)
    ensures kept == Users(accounts, lines)
  {
    kept := [];
    var i := 0;
    while i < |lines|
      invariant 0 <= i <= |lines|
      invariant kept == Users(accounts, lines[..i])
    {
      UsersOfPrefix(accounts, lines, i);
      var u := LineUser(accounts, lines[i]);
      if u.Some? {
        kept := kept + [u.value];
      }
      i := i + 1;
    }
    assert lines[..i] == lines;
  }

  /** `fetchAllUsers(debug)`: `None` when /etc/passwd cannot be opened or
      its scan ends in an error, the kept users otherwise. */
  method FetchAllUsers(h: Host) returns (users: Option<seq<User>>)
    ensures users == FetchedUsers(h.accounts, Scan(h, PasswdPath))
  {
    var scan := Scan(h, PasswdPath);
    if scan.OpenFailed? {
      return None;
    }
    var kept := ScanUsers(h.accounts, scan.lines);
    if scan.failed {
      return None;
    }
    return Some(kept);
  }

  /** The tuple one fetched user yields: none when the looked-up uid is not
      an integer; the active label is "1" or "0". */
  function UserTuple(activeUids: set<int>, u: User): Option<LabelTuple> {
    match Atoi(u.uid)
    case None => None
    case Some(uid) =>
      var active := if uid in activeUids then "1" else "0";
      Some([u.username, u.homeDir, u.uid, u.gid, active])
  }

  /** The active label is "1" exactly when the user is active and "0"
      otherwise; the other labels come from the user in label order. */
  lemma UserTupleLabels(activeUids: set<int>, u: User)
    requires Atoi(u.uid).Some?
    ensures var t := UserTuple(activeUids, u).value;
      |t| == |SystemUserLabels| && t[..4] == [u.username, u.homeDir, u.uid, u.gid]
      && (t[4] == "1" <==> Atoi(u.uid).value in activeUids)
      && (t[4] == "0" <==> Atoi(u.uid).value !in activeUids)
  {
  }

  function UserTuples(activeUids: set<int>, users: seq<User>): seq<LabelTuple> {
    FilterMap(u => UserTuple(activeUids, u), users)
  }

  lemma UserTuplesStep(activeUids: set<int>, users: seq<User>)
    requires users != []
    ensures UserTuples(activeUids, users) == Values(UserTuple(activeUids, users[0])) + UserTuples(activeUids, users[1..])
  {
  }

  /** Everything one run of `CollectSystemUserMetrics` sets. */
  function SystemUserTuples(h: Host): seq<LabelTuple> {
    match FetchedUsers(h.accounts, Scan(h, PasswdPath))
    case None => []
    case Some(users) => UserTuples(h.activeUids, users)
  }

  /** A read error on /etc/passwd sets no tuple at all, not even for the
      lines read before it. */
  lemma ReadErrorSetsNothing(h: Host)
    requires Scan(h, PasswdPath).OpenFailed? || Scan(h, PasswdPath).failed
    ensures SystemUserTuples(h) == []
  {
  }

  /** `CollectSystemUserMetrics(debug)` */
  method CollectSystemUserMetrics(g: GaugeVec, h: Host)
    requires g.Valid() && g.labelNames == SystemUserLabels
    modifies g
    ensures g.Valid() && g.series == SetAll(old(g.series), SystemUserTuples(h), 1)
  {
    var fetched := FetchAllUsers(h);
    if fetched.None? {
      return;
    }
    var users := fetched.value;
    var i := 0;
    while i < |users|
      invariant 0 <= i <= |users| && g.Valid()
      invariant SetAll(g.series, UserTuples(h.activeUids, users[i..]), 1)
        == SetAll(old(g.series), UserTuples(h.activeUids, users), 1)
    {
      assert users[i..][0] == users[i] && users[i..][1..] == users[i + 1..];
      UserTuplesStep(h.activeUids, users[i..]);
      SetAllStep(g.series, UserTuple(h.activeUids, users[i]), UserTuples(h.activeUids, users[i + 1..]), 1);
      var user := users[i];
      var uid := Atoi(user.uid);
      if uid.None? {
        i := i + 1;
        continue;
      }
      var active := "0";
      if uid.value in h.activeUids {
        active := "1";
      }
      g.Set([user.username, user.homeDir, user.uid, user.gid, active], 1);
      i := i + 1;
    }
    assert users[i..] == [];
  }
}
