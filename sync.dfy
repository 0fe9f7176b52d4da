/**
 * The repository side of the manager: creating the repository, committing,
 * pushing, pulling. Every command's outcome comes from the oracle.
 */
module Sync {
  import opened Wrappers
  import opened Paths
  import opened FileSystem
  import opened Config
  import opened Git
  import opened Manager

  const NotARepository := "not a git repository. Please initialize git first"

  /** A command and the texts put around its failure. */
  datatype Step = Step(cmd: Command, what: string, after: string)

  /** The commands started, in order, and the error returned. */
  datatype Outcome = Outcome(ran: seq<Command>, err: Option<string>)

  /** Runs `steps` in order and stops at the first that fails, reporting it with its prefix. */
  function RunSteps(o: Oracle, steps: seq<Step>): (r: Outcome)
    ensures |r.ran| <= |steps|
  {
    if steps == [] then Outcome([], None)
    else
      match o.run(steps[0].cmd)
      case Some(m) => Outcome([steps[0].cmd], Some(steps[0].what + m + steps[0].after))
      case None =>
        var r := RunSteps(o, steps[1..]);
        Outcome([steps[0].cmd] + r.ran, r.err)
  }

  /**
   * The steps started are a prefix of `steps`; all succeed exactly when every
   * command does; otherwise the last one started is the first that failed,
   * and the error is its message with its prefix and suffix.
   */
  lemma {:induction false} RunStepsSpec(o: Oracle, steps: seq<Step>)
    ensures var r := RunSteps(o, steps);
      && (forall i | 0 <= i < |r.ran| :: r.ran[i] == steps[i].cmd)
      && (r.err.None? <==> forall i | 0 <= i < |steps| :: o.run(steps[i].cmd).None?)
      && (r.err.None? ==> |r.ran| == |steps|)
      && (r.err.Some? ==>
            && |r.ran| >= 1
            && (forall i | 0 <= i < |r.ran| - 1 :: o.run(steps[i].cmd).None?)
            && o.run(steps[|r.ran| - 1].cmd).Some?
            && r.err.value == steps[|r.ran| - 1].what + o.run(steps[|r.ran| - 1].cmd).value + steps[|r.ran| - 1].after)
    decreases |steps|
  {
    if steps != [] && o.run(steps[0].cmd).None? {
      var rest := RunSteps(o, steps[1..]);
      RunStepsSpec(o, steps[1..]);
      var r := RunSteps(o, steps);
      assert r == Outcome([steps[0].cmd] + rest.ran, rest.err);
      assert forall i | 1 <= i < |steps| :: steps[i] == steps[1..][i - 1];
      assert forall i | 1 <= i < |r.ran| :: r.ran[i] == rest.ran[i - 1];
    }
  }

  /** CommitAndPush: add everything, commit with `message`, push; nothing runs outside a repository. */
  function CommitAndPush(t: Tree, c: Config, o: Oracle, message: string): (r: Outcome)
    ensures !IsGitRepo(t, c) ==> r == Outcome([], Some(NotARepository))
    ensures r.err.None? <==>
      IsGitRepo(t, c) && o.run(AddAll).None? && o.run(Commit(message)).None? && o.run(Push).None?
    ensures r.err.None? ==> r.ran == [AddAll, Commit(message), Push]
    ensures Push in r.ran ==> o.run(AddAll).None? && o.run(Commit(message)).None?
  {
    if !IsGitRepo(t, c) then Outcome([], Some(NotARepository))
    else
      var steps := [Step(AddAll, "error adding files: ", ""), Step(Commit(message), "error committing changes: ", ""),
                    Step(Push, "error pushing changes: ", "")];
      var r := RunSteps(o, steps);
      RunStepsSpec(o, steps);
      assert steps[0].cmd == AddAll && steps[1].cmd == Commit(message) && steps[2].cmd == Push;
      assert r.err.None? ==> r.ran == [AddAll, Commit(message), Push];
      assert Push in r.ran ==> r.ran[|r.ran| - 1] == Push;
      r
  }

  /** Push: one `git push`, guarded like the rest. */
  function PushChanges(t: Tree, c: Config, o: Oracle): (r: Outcome)
    ensures r.err.None? <==> IsGitRepo(t, c) && o.run(Push).None?
    ensures r.ran == (if IsGitRepo(t, c) then [Push] else [])
    ensures r.err.Some? && IsGitRepo(t, c) ==> r.err.value == "error pushing changes: " + o.run(Push).value + ""
  {
    if !IsGitRepo(t, c) then Outcome([], Some(NotARepository))
    else
      var steps := [Step(Push, "error pushing changes: ", "")];
      RunStepsSpec(o, steps);
      RunSteps(o, steps)
  }

  /**
   * Update: pull, then link the store again. What `git pull` does to the files
   * is the parameter `pull`.
   */
  method Update(c: Config, fs: Disk, o: Oracle, pull: Tree -> Tree) returns (err: Option<string>)
    modifies fs
    ensures !IsGitRepo(old(fs.tree), c) ==> err == Some(NotARepository) && fs.tree == old(fs.tree)
    ensures IsGitRepo(old(fs.tree), c) && o.run(Pull).Some? ==>
      err == Some("error pulling changes: " + o.run(Pull).value) && fs.tree == old(fs.tree)
    ensures IsGitRepo(old(fs.tree), c) && o.run(Pull).None? ==>
      Effect(fs.tree, err) == LinkOn(pull(old(fs.tree)), c)
  {
    if !IsGitRepo(fs.tree, c) {
      return Some(NotARepository);
    }
    var pulled := o.run(Pull);
    if pulled.Some? {
      return Some("error pulling changes: " + pulled.value);
    }
    fs.tree := pull(fs.tree);
    err := Link(c, fs);
  }

  // ---------------------------------------------------------------------------
  // Creating the repository.

  const MaxRetries := 3

  /**
   * The first push, retried: up to MaxRetries attempts, sleeping one second
   * more after each failure but the last. Asking the finished command for its
   * output again yields nothing, so the final message ends in an empty output.
   */
  method PushWithRetries(o: Oracle) returns (err: Option<string>, attempts: nat, sleeps: seq<nat>)
    ensures 1 <= attempts <= MaxRetries
    ensures forall i | 0 <= i < attempts - 1 :: o.run(PushUpstream(i)).Some?
    ensures err.None? <==> o.run(PushUpstream(attempts - 1)).None?
    ensures err.None? <==> exists i | 0 <= i < MaxRetries :: o.run(PushUpstream(i)).None?
    ensures err.Some? ==> attempts == MaxRetries
    ensures err.Some? ==> err.value == "error pushing to GitHub after 3 attempts: " + o.run(PushUpstream(MaxRetries - 1)).value + "\nOutput: "
    ensures |sleeps| == attempts - 1 && forall i | 0 <= i < |sleeps| :: sleeps[i] == i + 1
  {
    sleeps := [];
    var i := 0;
    while i < MaxRetries
      invariant 0 <= i < MaxRetries
      invariant forall j | 0 <= j < i :: o.run(PushUpstream(j)).Some?
      invariant |sleeps| == i && forall j | 0 <= j < i :: sleeps[j] == j + 1
    {
      var pushed := o.run(PushUpstream(i));
      if pushed.Some? {
        if i == MaxRetries - 1 {
          return Some("error pushing to GitHub after 3 attempts: " + pushed.value + "\nOutput: "), i + 1, sleeps;
        }
        sleeps := sleeps + [i + 1];
        i := i + 1;
        continue;
      }
      return None, i + 1, sleeps;
    }
    assert false;
  }

  const GitignoreText := "# Ignore everything in this directory\n*\n# Except this file\n!.gitignore\n!configs/\n"
  const ReadmeText := "# Dotman Managed Dotfiles\n\nThis is my dotman-managed dotfiles repository."
  const GitignoreBytes := Ascii(GitignoreText)
  const ReadmeBytes := Ascii(ReadmeText)
  const UserNameMissing := "git user.name not configured. Please run: git config --global user.name 'Your Name'"
  const UserEmailMissing := "git user.email not configured. Please run: git config --global user.email 'your.email@example.com'"

  /** `git init` (which makes the `.git` directory), then the two files the repository starts with. */
  function InitFilesOn(t: Tree, c: Config, o: Oracle): Effect
  {
    InitFilesWith(t, c, o, GitignoreBytes, ReadmeBytes)
  }

  function InitFilesWith(t: Tree, c: Config, o: Oracle, gitignore: Bytes, readme: Bytes): Effect
  {
    match o.run(Init)
    case Some(m) => Effect(t, Some("error initializing git repository: " + m))
    case None =>
      var e0 := MkdirAllOn(t, c.DotmanDir + [".git"]);
      if e0.err.Some? then Wrap(e0, "error initializing git repository: ")
      else
        var e1 := WriteFileOn(e0.tree, c.DotmanDir + [".gitignore"], gitignore);
        if e1.err.Some? then Wrap(e1, "error creating .gitignore: ")
        else Wrap(WriteFileOn(e1.tree, c.DotmanDir + ["README.md"], readme), "error creating README.md: ")
  }

  /** Once the files are in place the dotman directory passes the repository guard and holds the README. */
  lemma InitMakesRepository(t: Tree, c: Config, o: Oracle, gitignore: Bytes, readme: Bytes)
    requires ValidTree(t) && InitFilesWith(t, c, o, gitignore, readme).err.None?
    ensures var t' := InitFilesWith(t, c, o, gitignore, readme).tree;
      && ValidTree(t')
      && IsGitRepo(t', c)
      && ContentAt(t', c.DotmanDir + ["README.md"]) == Some(readme)
  {
    var git := c.DotmanDir + [".git"];
    var e0 := MkdirAllOn(t, git);
    MkdirAllSpec(t, git);
    var e1 := WriteFileOn(e0.tree, c.DotmanDir + [".gitignore"], gitignore);
    WriteFileSpec(e0.tree, c.DotmanDir + [".gitignore"], gitignore);
    WriteKeepsDirectories(e0.tree, c.DotmanDir + [".gitignore"], gitignore, git);
    WriteFileSpec(e1.tree, c.DotmanDir + ["README.md"], readme);
    WriteKeepsDirectories(e1.tree, c.DotmanDir + ["README.md"], readme, git);
  }

  /** The remote repository, the first commit and the branch, before the first push. */
  function RemoteSteps(name: string): seq<Step>
  {
    [ Step(RepoCreate(name), "error creating GitHub repository: ",
           ". Make sure you have the GitHub CLI (gh) installed and are authenticated"),
      Step(AddAll, "error adding files: ", ""),
      Step(Commit("Initial commit"), "error committing files: ", ""),
      Step(BranchMain, "error setting default branch: ", "") ]
  }

  /** The local part of InitializeGitRepo: `git init` and the repository's first two files. */
  method InitFiles(c: Config, fs: Disk, o: Oracle) returns (err: Option<string>)
    modifies fs
    ensures Effect(fs.tree, err) == InitFilesOn(old(fs.tree), c, o)
    ensures err.None? && ValidTree(old(fs.tree)) ==> IsGitRepo(fs.tree, c)
  {
    ghost var t := fs.tree;
    var initialized := o.run(Init);
    if initialized.Some? {
      return Some("error initializing git repository: " + initialized.value);
    }
    err := fs.MkdirAll(c.DotmanDir + [".git"]);
    if err.Some? {
      return Some("error initializing git repository: " + err.value);
    }
    err := fs.WriteFile(c.DotmanDir + [".gitignore"], GitignoreBytes);
    if err.Some? {
      return Some("error creating .gitignore: " + err.value);
    }
    err := fs.WriteFile(c.DotmanDir + ["README.md"], ReadmeBytes);
    if err.Some? {
      return Some("error creating README.md: " + err.value);
    }
    if ValidTree(t) {
      InitMakesRepository(t, c, o, GitignoreBytes, ReadmeBytes);
    }
  }

  /** The remote half of InitializeGitRepo succeeds: every remote step, then one of the push attempts. */
  predicate Published(o: Oracle, name: string)
  {
    && RunSteps(o, RemoteSteps(name)).err.None?
    && exists i | 0 <= i < MaxRetries :: o.run(PushUpstream(i)).None?
  }

  /** The remote steps all succeed exactly when their four commands do. */
  lemma RemoteStepsSpec(o: Oracle, name: string)
    ensures RunSteps(o, RemoteSteps(name)).err.None? <==>
      && o.run(RepoCreate(name)).None? && o.run(AddAll).None?
      && o.run(Commit("Initial commit")).None? && o.run(BranchMain).None?
  {
    var steps := RemoteSteps(name);
    RunStepsSpec(o, steps);
    assert steps[0].cmd == RepoCreate(name) && steps[1].cmd == AddAll;
    assert steps[2].cmd == Commit("Initial commit") && steps[3].cmd == BranchMain;
  }

  /** Publishing needs the repository created, the files added and committed, the branch set, and a push through. */
  lemma PublishedSpec(o: Oracle, name: string)
    ensures Published(o, name) <==>
      && o.run(RepoCreate(name)).None? && o.run(AddAll).None?
      && o.run(Commit("Initial commit")).None? && o.run(BranchMain).None?
      && (o.run(PushUpstream(0)).None? || o.run(PushUpstream(1)).None? || o.run(PushUpstream(2)).None?)
  {
    RemoteStepsSpec(o, name);
    if o.run(PushUpstream(2)).None? {
      assert exists i | 0 <= i < MaxRetries :: o.run(PushUpstream(i)).None? by { assert 2 < MaxRetries; }
    }
  }


  /** The remote half of InitializeGitRepo: the steps in order, then the first push with retries. */
  method Publish(o: Oracle, name: string) returns (err: Option<string>)
    ensures err.None? <==> Published(o, name)
    ensures RunSteps(o, RemoteSteps(name)).err.Some? ==> err == RunSteps(o, RemoteSteps(name)).err
  {
    var remote := RunSteps(o, RemoteSteps(name));
    if remote.err.Some? {
      return remote.err;
    }
    var attempts, sleeps;
    err, attempts, sleeps := PushWithRetries(o);
  }

  /** The repository once git knows who commits: the local files, then the remote and the first push. */
  method CreateRepository(c: Config, fs: Disk, o: Oracle, name: string) returns (err: Option<string>)
    modifies fs
    ensures fs.tree == InitFilesOn(old(fs.tree), c, o).tree
    ensures InitFilesOn(old(fs.tree), c, o).err.Some? ==> err == InitFilesOn(old(fs.tree), c, o).err
    ensures err.None? <==> InitFilesOn(old(fs.tree), c, o).err.None? && Published(o, name)
    ensures err.None? && ValidTree(old(fs.tree)) ==> IsGitRepo(fs.tree, c)
  {
    err := InitFiles(c, fs, o);
    if err.Some? {
      return;
    }
    err := Publish(o, name);
  }

  /**
   * InitializeGitRepo: git must know the user's name and e-mail; then the
   * repository and its files, the GitHub repository, the first commit, and the
   * first push with retries.
   */
  method InitializeGitRepo(c: Config, fs: Disk, o: Oracle, name: string) returns (err: Option<string>)
    modifies fs
    ensures o.run(ConfigGet("user.name")).Some? ==> err == Some(UserNameMissing) && fs.tree == old(fs.tree)
    ensures o.run(ConfigGet("user.name")).None? && o.run(ConfigGet("user.email")).Some? ==>
      err == Some(UserEmailMissing) && fs.tree == old(fs.tree)
    ensures o.run(ConfigGet("user.name")).None? && o.run(ConfigGet("user.email")).None? ==>
      && fs.tree == InitFilesOn(old(fs.tree), c, o).tree
      && (InitFilesOn(old(fs.tree), c, o).err.Some? ==> err == InitFilesOn(old(fs.tree), c, o).err)
      && (err.None? <==> InitFilesOn(old(fs.tree), c, o).err.None? && Published(o, name))
      && (err.None? && ValidTree(old(fs.tree)) ==> IsGitRepo(fs.tree, c))
  {
    if o.run(ConfigGet("user.name")).Some? {
      return Some(UserNameMissing);
    }
    if o.run(ConfigGet("user.email")).Some? {
      return Some(UserEmailMissing);
    }
    err := CreateRepository(c, fs, o, name);
  }
}
