/**
 * The health check: eight checks over the store, the home directory, the
 * repository and the backups, their results saved, and an overall verdict.
 */
module Health {
  import opened Wrappers
  import opened Paths
  import opened FileSystem
  import opened Walk
  import opened Config
  import opened Git
  import opened Manager
  import opened Backup
  import Text

  datatype Severity = Info | Warning | Error

  /** One check's result; `error` is the error value the check attaches, if any. */
  datatype CheckResult = CheckResult(status: string, message: string, error: Option<string>, severity: Severity)

  /** The result of a check that lists what it flagged: a warning naming them, or all clear. */
  function Report(status: string, noun: string, flagged: seq<Path>, flaggedError: Option<string>, clear: string): (r: CheckResult)
    ensures r.status == status
    ensures r.severity == Info <==> flagged == []
    ensures r.severity != Error
    ensures r.error.Some? <==> flagged != [] && flaggedError.Some?
  {
    if flagged == [] then CheckResult(status, clear, None, Info)
    else
      CheckResult(status, "Found " + Text.NatToString(|flagged|) + " " + noun + ": " + Text.Join(RelStrings(flagged), ", "),
                  flaggedError, Warning)
  }

  /** The result of a check whose walk of the store failed. */
  function WalkFailed(status: string, what: string, err: string): CheckResult
  {
    CheckResult(status, "Error checking " + what + ": " + err, Some(err), Error)
  }

  /** A check over the store's files, flagging those `flag` accepts. */
  ghost function StoreCheckOn(t: Tree, c: Config, flag: Path -> bool, status: string, what: string, noun: string,
                              flaggedError: Option<string>, clear: string): CheckResult
  {
    if c.ConfigsDir !in t then WalkFailed(status, what, LstatError(t, c.ConfigsDir))
    else Report(status, noun, Filter(SortedEnum(Tracked(t, c.ConfigsDir)), flag), flaggedError, clear)
  }

  /** No file in walk order is flagged exactly when no stored file is flagged. */
  lemma NoneFlagged(s: set<Path>, flag: Path -> bool)
    ensures Filter(SortedEnum(s), flag) == [] <==> forall x | x in s :: !flag(x)
  {
    SortedEnumSpec(s);
    FilterEmpty(SortedEnum(s), flag);
    var e := SortedEnum(s);
    if forall i | 0 <= i < |e| :: !flag(e[i]) {
      forall x | x in s
        ensures !flag(x)
      {
        assert x in e;
      }
    }
  }

  /** Walks the store and reports the files `flag` accepts. */
  method StoreCheck(t: Tree, c: Config, flag: Path -> bool, status: string, what: string, noun: string,
                    flaggedError: Option<string>, clear: string) returns (r: CheckResult)
    ensures r == StoreCheckOn(t, c, flag, status, what, noun, flaggedError, clear)
    ensures r.status == status
    ensures r.severity == Error <==> c.ConfigsDir !in t
    ensures c.ConfigsDir in t ==>
      (r.severity == Warning <==> exists rel | rel in Tracked(t, c.ConfigsDir) :: flag(rel))
  {
    var files, err := WalkFiles(t, c.ConfigsDir);
    if err.Some? {
      return WalkFailed(status, what, err.value);
    }
    var flagged := Collect(files, flag);
    NoneFlagged(Tracked(t, c.ConfigsDir), flag);
    r := Report(status, noun, flagged, flaggedError, clear);
  }

  // ---------------------------------------------------------------------------
  // The store checks.

  /**
   * Lstat says there is no such file at the file's place in the home
   * directory; a dangling link still counts as present, and a place below a
   * file (where lstat says "not a directory") is not flagged.
   */
  predicate IsBroken(t: Tree, c: Config, rel: Path)
  {
    LstatNotExist(t, c.HomeDir + rel)
  }

  /** The stored file itself (not what a link leads to) lacks the owner's read bit. */
  predicate Unreadable(t: Tree, c: Config, rel: Path)
  {
    var p := c.ConfigsDir + rel;
    p in t && t[p].File? && !OwnerReadable(t[p].mode)
  }

  /** Something other than the right link sits at the file's place in the home directory. */
  predicate InConflict(t: Tree, c: Config, rel: Path)
  {
    var h := c.HomeDir + rel;
    h in t && (!t[h].Symlink? || t[h].target != c.ConfigsDir + rel)
  }

  /** Thirty days, in nanoseconds. */
  const OutdatedAfter := 30 * 24 * 3600 * 1000000000

  /** Unmodified for longer than thirty days; `age` gives the time since each entry's modification. */
  predicate Outdated(age: Path -> int, c: Config, rel: Path)
  {
    age(c.ConfigsDir + rel) > OutdatedAfter
  }

  ghost function SymlinkCheckOn(t: Tree, c: Config): CheckResult
  {
    StoreCheckOn(t, c, rel => IsBroken(t, c, rel), "Symlink Check", "symlinks", "broken symlinks",
                 Some("broken symlinks found"), "All symlinks are valid")
  }

  ghost function PermissionCheckOn(t: Tree, c: Config): CheckResult
  {
    StoreCheckOn(t, c, rel => Unreadable(t, c, rel), "Permission Check", "permissions", "files with invalid permissions",
                 Some("invalid permissions found"), "All files have correct permissions")
  }

  ghost function ConflictCheckOn(t: Tree, c: Config): CheckResult
  {
    StoreCheckOn(t, c, rel => InConflict(t, c, rel), "Conflict Check", "conflicts", "potential conflicts",
                 Some("conflicts found"), "No conflicts found")
  }

  ghost function OutdatedCheckOn(t: Tree, c: Config, age: Path -> int): CheckResult
  {
    StoreCheckOn(t, c, rel => Outdated(age, c, rel), "Outdated Check", "outdated files", "potentially outdated files",
                 None, "No outdated files found")
  }

  /** Broken links: a warning, with an error attached, exactly when some stored file has nothing at its home place. */
  method CheckBrokenSymlinks(t: Tree, c: Config) returns (r: CheckResult)
    ensures r == SymlinkCheckOn(t, c)
    ensures c.ConfigsDir in t ==>
      (r.error.Some? <==> exists rel | rel in Tracked(t, c.ConfigsDir) :: IsBroken(t, c, rel))
  {
    r := StoreCheck(t, c, rel => IsBroken(t, c, rel), "Symlink Check", "symlinks", "broken symlinks",
                    Some("broken symlinks found"), "All symlinks are valid");
  }

  /** Permissions: a warning, with an error attached, exactly when some stored file is unreadable to its owner. */
  method CheckFilePermissions(t: Tree, c: Config) returns (r: CheckResult)
    ensures r == PermissionCheckOn(t, c)
    ensures c.ConfigsDir in t ==>
      (r.error.Some? <==> exists rel | rel in Tracked(t, c.ConfigsDir) :: Unreadable(t, c, rel))
  {
    r := StoreCheck(t, c, rel => Unreadable(t, c, rel), "Permission Check", "permissions", "files with invalid permissions",
                    Some("invalid permissions found"), "All files have correct permissions");
  }

  /** Conflicts: a warning, with an error attached, exactly when some home place holds something else. */
  method CheckFileConflicts(t: Tree, c: Config) returns (r: CheckResult)
    ensures r == ConflictCheckOn(t, c)
    ensures c.ConfigsDir in t ==>
      (r.error.Some? <==> exists rel | rel in Tracked(t, c.ConfigsDir) :: InConflict(t, c, rel))
  {
    r := StoreCheck(t, c, rel => InConflict(t, c, rel), "Conflict Check", "conflicts", "potential conflicts",
                    Some("conflicts found"), "No conflicts found");
  }

  /** Outdated files: a warning with no error attached, so they never fail the health check. */
  method CheckOutdatedConfigs(t: Tree, c: Config, age: Path -> int) returns (r: CheckResult)
    ensures r == OutdatedCheckOn(t, c, age)
    ensures r.error.Some? <==> c.ConfigsDir !in t
    ensures c.ConfigsDir in t ==>
      (r.severity == Warning <==> exists rel | rel in Tracked(t, c.ConfigsDir) :: Outdated(age, c, rel))
  {
    r := StoreCheck(t, c, rel => Outdated(age, c, rel), "Outdated Check", "outdated files", "potentially outdated files",
                    None, "No outdated files found");
  }

  /** A file is never both broken and in conflict: one needs its home place empty, the other occupied. */
  lemma BrokenExcludesConflict(t: Tree, c: Config, rel: Path)
    ensures !(IsBroken(t, c, rel) && InConflict(t, c, rel))
  {
  }

  /**
   * A home place below a regular file is neither broken nor in conflict:
   * lstat fails there with "not a directory", which is not "no such file".
   */
  lemma BelowFileNotFlagged(t: Tree, c: Config, rel: Path)
    requires ValidTree(t) && c.HomeDir + rel != []
    requires Parent(c.HomeDir + rel) in t && t[Parent(c.HomeDir + rel)].File?
    ensures !IsBroken(t, c, rel) && !InConflict(t, c, rel)
  {
    NothingBelowLeaf(t, Parent(c.HomeDir + rel), c.HomeDir + rel);
  }

  /** For a stored regular file, the permission flag is exactly a read refused for permissions. */
  lemma UnreadableMeansRefused(t: Tree, c: Config, rel: Path)
    requires c.ConfigsDir + rel in t && t[c.ConfigsDir + rel].File?
    ensures Unreadable(t, c, rel) <==> ReadFileOn(t, c.ConfigsDir + rel) == Err(EACCES)
  {
  }

  /**
   * After a Link that succeeds, with no file linked onto the store's own path,
   * no stored file is broken or in conflict.
   */
  lemma LinkedStoreIsHealthy(t: Tree, c: Config)
    requires ValidTree(t)
    requires forall rel | rel in Tracked(t, c.ConfigsDir) :: !MirrorsIntoStore(c, rel)
    requires LinkOn(t, c).err.None?
    ensures var t' := LinkOn(t, c).tree;
      && Tracked(t', c.ConfigsDir) == Tracked(t, c.ConfigsDir)
      && forall rel | rel in Tracked(t', c.ConfigsDir) :: !IsBroken(t', c, rel) && !InConflict(t', c, rel)
  {
    var t' := LinkOn(t, c).tree;
    LinkKeepsStore(t, c);
    LinkEstablishesLinks(t, c);
    forall rel
      ensures rel in Tracked(t', c.ConfigsDir) <==> rel in Tracked(t, c.ConfigsDir)
    {
      TrackedMember(t, c.ConfigsDir, rel);
      TrackedMember(t', c.ConfigsDir, rel);
    }
  }

  // ---------------------------------------------------------------------------
  // The repository checks.

  /** Git status: guard, status, uncommitted changes, remote; only a clean repository with a remote is all clear. */
  function CheckGitStatus(t: Tree, c: Config, o: Oracle): (r: CheckResult)
    ensures r.status == "Git Status"
    ensures r.severity == Info <==>
      IsGitRepo(t, c) && o.run(Status).None? && o.statusOutput == "" && o.run(RemoteOrigin).None?
    ensures r.error.Some? <==> r.severity != Info
    ensures r.severity == Warning <==> IsGitRepo(t, c) && o.run(Status).None? && o.statusOutput != ""
  {
    if !IsGitRepo(t, c) then CheckResult("Git Status", "Not a git repository", Some("not a git repository"), Error)
    else match o.run(Status)
      case Some(m) => CheckResult("Git Status", "Error checking git status: " + m, Some(m), Error)
      case None =>
        if o.statusOutput != "" then
          CheckResult("Git Status", "Found uncommitted changes", Some("uncommitted changes found"), Warning)
        else if o.run(RemoteOrigin).Some? then
          CheckResult("Git Status", "No remote repository configured", Some("no remote repository"), Error)
        else CheckResult("Git Status", "Repository is clean and properly configured", None, Info)
  }

  /** File changes: outside a repository all is well; uncommitted changes warn but attach no error. */
  function CheckFileChanges(t: Tree, c: Config, o: Oracle): (r: CheckResult)
    ensures r.status == "File Changes"
    ensures r.error.Some? <==> IsGitRepo(t, c) && o.run(Status).Some?
    ensures r.error.Some? <==> r.severity == Error
    ensures r.severity == Warning <==> IsGitRepo(t, c) && o.run(Status).None? && o.statusOutput != ""
  {
    if !IsGitRepo(t, c) then CheckResult("File Changes", "Not a git repository", None, Info)
    else match o.run(Status)
      case Some(m) => CheckResult("File Changes", "Error checking file changes: " + m, Some(m), Error)
      case None =>
        if o.statusOutput != "" then CheckResult("File Changes", "Found uncommitted changes", None, Warning)
        else CheckResult("File Changes", "No uncommitted changes", None, Info)
  }

  // ---------------------------------------------------------------------------
  // The backup check.

  /** A directory entry of the backups directory that lacks its metadata or its content. */
  predicate InvalidBackup(t: Tree, dir: Path, name: Path)
  {
    var d := dir + name;
    d in t && t[d] == Dir && (StatNotExist(t, d + ["metadata.json"]) || StatNotExist(t, d + ["content"]))
  }

  ghost function BackupCheckOn(t: Tree, c: Config): CheckResult
  {
    if StatNotExist(t, BackupsDir(c)) then
      CheckResult("Backup Check", "No backups directory found", Some("no backups directory"), Error)
    else match ReadDirOn(t, BackupsDir(c))
      case Err(m) => CheckResult("Backup Check", "Error reading backups directory: " + m, Some(m), Error)
      case Ok(names) =>
        var at := Resolve(t, BackupsDir(c)).value;
        Report("Backup Check", "invalid backups", Filter(SortedEnum(names), name => InvalidBackup(t, at, name)),
               Some("invalid backups found"), "All backups are valid")
  }

  /** Looks into every backup directory for its two files. */
  method CheckBackupIntegrity(t: Tree, c: Config) returns (r: CheckResult)
    ensures r == BackupCheckOn(t, c)
    ensures r.status == "Backup Check"
    ensures r.error.Some? <==> r.severity != Info
    ensures IsDirectory(t, BackupsDir(c)) ==>
      (r.severity == Info <==>
        forall name | name in Children(t, Resolve(t, BackupsDir(c)).value) ::
          !InvalidBackup(t, Resolve(t, BackupsDir(c)).value, name))
  {
    var dir := BackupsDir(c);
    if StatNotExist(t, dir) {
      return CheckResult("Backup Check", "No backups directory found", Some("no backups directory"), Error);
    }
    var entries := ReadDirOn(t, dir);
    if entries.Err? {
      return CheckResult("Backup Check", "Error reading backups directory: " + entries.msg, Some(entries.msg), Error);
    }
    var names := Enumerate(entries.value);
    var at := Resolve(t, dir).value;
    var invalid := Collect(names, name => InvalidBackup(t, at, name));
    NoneFlagged(entries.value, name => InvalidBackup(t, at, name));
    r := Report("Backup Check", "invalid backups", invalid, Some("invalid backups found"), "All backups are valid");
  }

  /** A backups path that is a regular file is not "missing": reading it as a directory fails. */
  lemma BackupCheckOnFile(t: Tree, c: Config)
    requires BackupsDir(c) in t && t[BackupsDir(c)].File?
    ensures BackupCheckOn(t, c) ==
      CheckResult("Backup Check", "Error reading backups directory: " + ENOTDIR, Some(ENOTDIR), Error)
  {
  }

  /** A backup just taken into a fresh directory passes the integrity check's test. */
  lemma BackupIsValid(t: Tree, c: Config, p: Path, id: string, stamp: string, codec: Codec)
    requires ValidTree(t) && BackupDir(c, id) !in t
    requires BackupOn(t, c, p, id, stamp, codec).err.None?
    ensures var t1 := BackupOn(t, c, p, id, stamp, codec).tree;
      && BackupsDir(c) in t1 && t1[BackupsDir(c)] == Dir
      && !InvalidBackup(t1, BackupsDir(c), [id])
  {
    var t1 := BackupOn(t, c, p, id, stamp, codec).tree;
    BackupSpec(t, c, p, id, stamp, codec);
    assert Parent(BackupDir(c, id)) == BackupsDir(c);
  }

  // ---------------------------------------------------------------------------
  // The whole check.

  /** Saving the results under `.dotman/health`, in a file named after the time `stamp`. */
  function SaveResultsOn(t: Tree, c: Config, stamp: string, data: Bytes): Effect
  {
    var dir := c.DotmanDir + ["health"];
    var e := MkdirAllOn(t, dir);
    if e.err.Some? then e else WriteFileOn(e.tree, dir + ["health-check-" + stamp + ".json"], data)
  }

  const Issues := "health check found issues"

  /**
   * Runs the eight checks on the same tree, saves their results (a failure to
   * save is only reported), and fails exactly when some result carries an error.
   * The disk-space result, the modification ages, the time stamp and the JSON
   * encoding come from outside.
   */
  method HealthCheck(c: Config, fs: Disk, o: Oracle, age: Path -> int, disk: CheckResult, stamp: string,
                     encode: seq<CheckResult> -> Bytes) returns (results: seq<CheckResult>, err: Option<string>)
    modifies fs
    ensures results == [SymlinkCheckOn(old(fs.tree), c), PermissionCheckOn(old(fs.tree), c),
                        CheckGitStatus(old(fs.tree), c, o), BackupCheckOn(old(fs.tree), c),
                        ConflictCheckOn(old(fs.tree), c), OutdatedCheckOn(old(fs.tree), c, age), disk,
                        CheckFileChanges(old(fs.tree), c, o)]
    ensures fs.tree == SaveResultsOn(old(fs.tree), c, stamp, encode(results)).tree
    ensures err.Some? <==> exists i | 0 <= i < |results| :: results[i].error.Some?
    ensures err.Some? ==> err.value == Issues
  {
    var t := fs.tree;
    var broken := CheckBrokenSymlinks(t, c);
    var perms := CheckFilePermissions(t, c);
    var git := CheckGitStatus(t, c, o);
    var backups := CheckBackupIntegrity(t, c);
    var conflicts := CheckFileConflicts(t, c);
    var outdated := CheckOutdatedConfigs(t, c, age);
    var changes := CheckFileChanges(t, c, o);
    results := [broken, perms, git, backups, conflicts, outdated, disk, changes];
    var saveErr := SaveResults(c, fs, stamp, encode(results));
    err := Summarize(results);
  }

  method SaveResults(c: Config, fs: Disk, stamp: string, data: Bytes) returns (err: Option<string>)
    modifies fs
    ensures Effect(fs.tree, err) == SaveResultsOn(old(fs.tree), c, stamp, data)
  {
    var dir := c.DotmanDir + ["health"];
    err := fs.MkdirAll(dir);
    if err.None? {
      err := fs.WriteFile(dir + ["health-check-" + stamp + ".json"], data);
    }
  }

  /** The verdict: the run fails exactly when some result carries an error, whatever its severity. */
  method Summarize(results: seq<CheckResult>) returns (err: Option<string>)
    ensures err.Some? <==> exists i | 0 <= i < |results| :: results[i].error.Some?
    ensures err.Some? ==> err.value == Issues
  {
    var hasErrors := false;
    var i := 0;
    while i < |results|
      invariant 0 <= i <= |results|
      invariant hasErrors <==> exists j | 0 <= j < i :: results[j].error.Some?
    {
      if results[i].error.Some? {
        hasErrors := true;
      }
      i := i + 1;
    }
    err := if hasErrors then Some(Issues) else None;
  }

  /** A store check whose walk succeeds and flags nothing attaches no error. */
  lemma StoreCheckClear(t: Tree, c: Config, flag: Path -> bool, status: string, what: string, noun: string,
                        flaggedError: Option<string>, clear: string)
    requires c.ConfigsDir in t
    requires forall rel | rel in Tracked(t, c.ConfigsDir) :: !flag(rel)
    ensures StoreCheckOn(t, c, flag, status, what, noun, flaggedError, clear).error.None?
  {
    NoneFlagged(Tracked(t, c.ConfigsDir), flag);
  }

  /** After such a Link the three store checks that can fail find nothing, and the store is still there. */
  lemma LinkedStoreChecksClear(t: Tree, c: Config)
    requires ValidTree(t)
    requires forall rel | rel in Tracked(t, c.ConfigsDir) :: !MirrorsIntoStore(c, rel) && !Unreadable(t, c, rel)
    requires LinkOn(t, c).err.None?
    ensures var t' := LinkOn(t, c).tree;
      && c.ConfigsDir in t'
      && SymlinkCheckOn(t', c).error.None?
      && PermissionCheckOn(t', c).error.None?
      && ConflictCheckOn(t', c).error.None?
  {
    var t' := LinkOn(t, c).tree;
    LinkedStoreIsHealthy(t, c);
    LinkKeepsStore(t, c);
    assert c.ConfigsDir in t';
    StoreCheckClear(t', c, rel => IsBroken(t', c, rel), "Symlink Check", "symlinks", "broken symlinks",
                    Some("broken symlinks found"), "All symlinks are valid");
    StoreCheckClear(t', c, rel => InConflict(t', c, rel), "Conflict Check", "conflicts", "potential conflicts",
                    Some("conflicts found"), "No conflicts found");
    forall rel | rel in Tracked(t', c.ConfigsDir)
      ensures !Unreadable(t', c, rel)
    {
      assert !Unreadable(t, c, rel);
      assert c.ConfigsDir <= c.ConfigsDir + rel;
    }
    StoreCheckClear(t', c, rel => Unreadable(t', c, rel), "Permission Check", "permissions", "files with invalid permissions",
                    Some("invalid permissions found"), "All files have correct permissions");
  }

  /**
   * Right after a successful Link (none of whose files maps onto the store),
   * in a repository whose status is clean with a remote, with readable files,
   * valid backups and enough disk space, the health check passes.
   */
  lemma HealthyAfterLink(t: Tree, c: Config, o: Oracle, age: Path -> int, disk: CheckResult)
    requires ValidTree(t)
    requires forall rel | rel in Tracked(t, c.ConfigsDir) :: !MirrorsIntoStore(c, rel) && !Unreadable(t, c, rel)
    requires LinkOn(t, c).err.None?
    requires disk.error.None?
    requires IsGitRepo(LinkOn(t, c).tree, c) && o.run(Status).None? && o.statusOutput == "" && o.run(RemoteOrigin).None?
    requires BackupCheckOn(LinkOn(t, c).tree, c).error.None?
    ensures var t' := LinkOn(t, c).tree;
      var results := [SymlinkCheckOn(t', c), PermissionCheckOn(t', c), CheckGitStatus(t', c, o), BackupCheckOn(t', c),
                      ConflictCheckOn(t', c), OutdatedCheckOn(t', c, age), disk, CheckFileChanges(t', c, o)];
      forall i | 0 <= i < |results| :: results[i].error.None?
  {
    LinkedStoreChecksClear(t, c);
    assert OutdatedCheckOn(LinkOn(t, c).tree, c, age).error.None?;
  }
}
