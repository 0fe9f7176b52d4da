/**
 * The manager's file operations: listing the store, linking it into the home
 * directory and adopting a new file into it.
 */
module Manager {
  import opened Wrappers
  import opened Paths
  import opened FileSystem
  import opened Walk
  import opened Config
  import opened Git

  // ---------------------------------------------------------------------------
  // Listing.

  /** The store's files, relative to the store, in walk order. */
  method ListFiles(c: Config, t: Tree) returns (files: seq<Path>, err: Option<string>)
    ensures err.Some? <==> c.ConfigsDir !in t
    ensures err.Some? ==> err.value == LstatError(t, c.ConfigsDir)
    ensures err.Some? ==> (err.value == ENOENT <==> LstatNotExist(t, c.ConfigsDir))
    ensures err.None? ==> files == SortedEnum(Tracked(t, c.ConfigsDir))
    ensures err.None? ==> Sorted(files) && |files| == |Tracked(t, c.ConfigsDir)|
    ensures err.None? ==> forall rel :: rel in files <==> c.ConfigsDir + rel in t && t[c.ConfigsDir + rel] != Dir
  {
    files, err := WalkFiles(t, c.ConfigsDir);
    if err.None? {
      SortedEnumSpec(Tracked(t, c.ConfigsDir));
      forall rel
        ensures rel in files <==> c.ConfigsDir + rel in t && t[c.ConfigsDir + rel] != Dir
      {
        TrackedMember(t, c.ConfigsDir, rel);
      }
    }
  }

  // ---------------------------------------------------------------------------
  // Linking.

  /** One walk step of Link: make the parent, clear the spot, link it to the store. */
  function LinkOne(t: Tree, c: Config, rel: Path): Effect
  {
    var target := c.HomeDir + rel;
    var e1 := MkdirAllOn(t, Parent(target));
    if e1.err.Some? then e1
    else
      var e2 := RemoveAllOn(e1.tree, target);
      if e2.err.Some? then e2
      else SymlinkOn(e2.tree, c.ConfigsDir + rel, target)
  }

  /** The steps for `files` in order, stopping at the first failure. */
  function LinkEach(t: Tree, c: Config, files: seq<Path>): Effect
    decreases |files|
  {
    if files == [] then Effect(t, None)
    else
      var e := LinkOne(t, c, files[0]);
      if e.err.Some? then e else LinkEach(e.tree, c, files[1..])
  }

  /** Link over the store as walked: missing store, or each file in walk order. */
  ghost function LinkOn(t: Tree, c: Config): Effect
  {
    if c.ConfigsDir !in t then Effect(t, Some(LstatError(t, c.ConfigsDir)))
    else LinkEach(t, c, SortedEnum(Tracked(t, c.ConfigsDir)))
  }

  /** One step links `rel` when it succeeds, and touches nothing outside its target. */
  lemma LinkOneSpec(t: Tree, c: Config, rel: Path)
    requires ValidTree(t)
    ensures var e := LinkOne(t, c, rel);
      && ValidTree(e.tree)
      && (e.err.None? ==> c.HomeDir + rel in e.tree && e.tree[c.HomeDir + rel] == Symlink(c.ConfigsDir + rel))
      && (forall q | q in t && !(c.HomeDir + rel <= q) :: q in e.tree && e.tree[q] == t[q])
      && (forall q | q in e.tree && q !in t :: q <= c.HomeDir + rel)
  {
    var target := c.HomeDir + rel;
    var e1 := MkdirAllOn(t, Parent(target));
    MkdirAllSpec(t, Parent(target));
    if e1.err.None? && target != [] {
      RemoveAllSpec(e1.tree, target);
      SymlinkSpec(RemoveAllOn(e1.tree, target).tree, c.ConfigsDir + rel, target);
    }
  }

  /** Whatever is not at or below some file's target survives the whole walk. */
  lemma {:induction false} LinkEachFrame(t: Tree, c: Config, files: seq<Path>)
    requires ValidTree(t)
    ensures var e := LinkEach(t, c, files);
      && ValidTree(e.tree)
      && (forall q | q in t && (forall i | 0 <= i < |files| :: !(c.HomeDir + files[i] <= q)) ::
            q in e.tree && e.tree[q] == t[q])
      && (forall q | q in e.tree && q !in t :: exists i | 0 <= i < |files| :: q <= c.HomeDir + files[i])
    decreases |files|
  {
    if files != [] {
      var e := LinkOne(t, c, files[0]);
      LinkOneSpec(t, c, files[0]);
      if e.err.None? {
        LinkEachFrame(e.tree, c, files[1..]);
        var r := LinkEach(e.tree, c, files[1..]);
        forall q | q in r.tree && q !in t
          ensures exists i | 0 <= i < |files| :: q <= c.HomeDir + files[i]
        {
          if q !in e.tree {
            var i :| 0 <= i < |files[1..]| && q <= c.HomeDir + files[1..][i];
            assert files[1..][i] == files[i + 1];
          } else {
            assert q <= c.HomeDir + files[0];
          }
        }
        forall q | q in t && (forall i | 0 <= i < |files| :: !(c.HomeDir + files[i] <= q))
          ensures q in r.tree && r.tree[q] == t[q]
        {
          assert !(c.HomeDir + files[0] <= q);
          assert forall i | 0 <= i < |files[1..]| :: files[1..][i] == files[i + 1];
        }
      }
    }
  }

  /** No file of the walk lies at or below another, nor equals it. */
  predicate Antichain(files: seq<Path>)
  {
    forall i, j | 0 <= i < |files| && 0 <= j < |files| && i != j :: !(files[i] <= files[j])
  }

  /** Each file whose step completed is, at the end, a link to its copy in the store. */
  lemma {:induction false} LinkEachLinks(t: Tree, c: Config, files: seq<Path>)
    requires ValidTree(t) && Antichain(files)
    ensures forall k | 0 <= k < |files| && LinkEach(t, c, files[..k + 1]).err.None? ::
      && c.HomeDir + files[k] in LinkEach(t, c, files).tree
      && LinkEach(t, c, files).tree[c.HomeDir + files[k]] == Symlink(c.ConfigsDir + files[k])
    decreases |files|
  {
    if files != [] {
      var e := LinkOne(t, c, files[0]);
      LinkOneSpec(t, c, files[0]);
      var rest := files[1..];
      assert Antichain(rest) by {
        forall i, j | 0 <= i < |rest| && 0 <= j < |rest| && i != j
          ensures !(rest[i] <= rest[j])
        {
          assert rest[i] == files[i + 1] && rest[j] == files[j + 1];
        }
      }
      forall k | 0 <= k < |files| && LinkEach(t, c, files[..k + 1]).err.None?
        ensures c.HomeDir + files[k] in LinkEach(t, c, files).tree
        ensures LinkEach(t, c, files).tree[c.HomeDir + files[k]] == Symlink(c.ConfigsDir + files[k])
      {
        assert files[..k + 1][0] == files[0];
        assert files[..k + 1][1..] == rest[..k];
        assert e.err.None?;
        var r := LinkEach(e.tree, c, rest);
        if k == 0 {
          var x := c.HomeDir + files[0];
          LinkEachFrame(e.tree, c, rest);
          forall i | 0 <= i < |rest|
            ensures !(c.HomeDir + rest[i] <= x)
          {
            assert rest[i] == files[i + 1];
            JoinPrefix(c.HomeDir, rest[i], files[0]);
          }
        } else {
          LinkEachLinks(e.tree, c, rest);
          assert rest[..k - 1 + 1] == rest[..k];
          assert files[k] == rest[k - 1];
        }
      }
    }
  }

  /** A walk that completes has completed every prefix. */
  lemma {:induction false} LinkEachPrefix(t: Tree, c: Config, files: seq<Path>, k: nat)
    requires k <= |files| && LinkEach(t, c, files).err.None?
    ensures LinkEach(t, c, files[..k]).err.None?
    decreases |files|
  {
    if k > 0 {
      var e := LinkOne(t, c, files[0]);
      assert e.err.None? && LinkEach(t, c, files) == LinkEach(e.tree, c, files[1..]);
      LinkEachPrefix(e.tree, c, files[1..], k - 1);
      assert files[..k][0] == files[0];
      assert files[..k][1..] == files[1..][..k - 1];
      assert LinkEach(t, c, files[..k]) == LinkEach(e.tree, c, files[1..][..k - 1]);
    }
  }

  /** The store's files never lie below one another: only directories have contents. */
  lemma WalkIsAntichain(t: Tree, root: Path)
    requires ValidTree(t)
    ensures Antichain(SortedEnum(Tracked(t, root)))
  {
    var files := SortedEnum(Tracked(t, root));
    SortedEnumSpec(Tracked(t, root));
    forall i, j | 0 <= i < |files| && 0 <= j < |files| && i != j
      ensures !(files[i] <= files[j])
    {
      SortedDistinct(files, i, j);
      TrackedAntichain(t, root, files[i], files[j]);
    }
  }

  /**
   * A Link that succeeds leaves every file of the store linked from the same
   * relative place in the home directory, and keeps the tree well formed.
   */
  lemma LinkEstablishesLinks(t: Tree, c: Config)
    requires ValidTree(t)
    ensures ValidTree(LinkOn(t, c).tree)
    ensures LinkOn(t, c).err.None? ==>
      forall rel | rel in Tracked(t, c.ConfigsDir) ::
        c.HomeDir + rel in LinkOn(t, c).tree && LinkOn(t, c).tree[c.HomeDir + rel] == Symlink(c.ConfigsDir + rel)
  {
    if c.ConfigsDir in t {
      var files := SortedEnum(Tracked(t, c.ConfigsDir));
      SortedEnumSpec(Tracked(t, c.ConfigsDir));
      LinkEachFrame(t, c, files);
      if LinkOn(t, c).err.None? {
        WalkIsAntichain(t, c.ConfigsDir);
        LinkEachLinks(t, c, files);
        forall rel | rel in Tracked(t, c.ConfigsDir)
          ensures c.HomeDir + rel in LinkOn(t, c).tree
          ensures LinkOn(t, c).tree[c.HomeDir + rel] == Symlink(c.ConfigsDir + rel)
        {
          var k :| 0 <= k < |files| && files[k] == rel;
          LinkEachPrefix(t, c, files, k + 1);
        }
      }
    }
  }

  /** `rel` in the store would be linked from a place on the way to, or inside, the store. */
  predicate MirrorsIntoStore(c: Config, rel: Path)
  {
    c.HomeDir + rel <= c.ConfigsDir || c.ConfigsDir <= c.HomeDir + rel
  }

  /**
   * Link leaves the store itself alone unless some file would be linked onto
   * the store's own path; so the walk sees the same store however it
   * interleaves with the links it makes.
   */
  lemma LinkKeepsStore(t: Tree, c: Config)
    requires ValidTree(t)
    requires forall rel | rel in Tracked(t, c.ConfigsDir) :: !MirrorsIntoStore(c, rel)
    ensures forall q | c.ConfigsDir <= q :: (q in LinkOn(t, c).tree <==> q in t)
    ensures forall q | c.ConfigsDir <= q && q in t :: LinkOn(t, c).tree[q] == t[q]
  {
    if c.ConfigsDir in t {
      var files := SortedEnum(Tracked(t, c.ConfigsDir));
      SortedEnumSpec(Tracked(t, c.ConfigsDir));
      LinkEachFrame(t, c, files);
      var r := LinkOn(t, c).tree;
      forall q | c.ConfigsDir <= q && (q in t || q in r)
        ensures forall i | 0 <= i < |files| :: !(c.HomeDir + files[i] <= q) && !(q <= c.HomeDir + files[i])
      {
        forall i | 0 <= i < |files|
          ensures !(c.HomeDir + files[i] <= q) && !(q <= c.HomeDir + files[i])
        {
          MirrorAwayFromStore(c, files[i], q);
        }
      }
    }
  }

  /** A link that does not mirror into the store is neither above nor below anything in the store. */
  lemma MirrorAwayFromStore(c: Config, rel: Path, q: Path)
    requires !MirrorsIntoStore(c, rel) && c.ConfigsDir <= q
    ensures !(c.HomeDir + rel <= q) && !(q <= c.HomeDir + rel)
  {
    if c.HomeDir + rel <= q {
      PrefixesComparable(c.HomeDir + rel, c.ConfigsDir, q);
    }
  }


  /** Walks the store and links each file into the home directory; the first failure ends the walk. */
  method Link(c: Config, fs: Disk) returns (err: Option<string>)
    modifies fs
    ensures Effect(fs.tree, err) == LinkOn(old(fs.tree), c)
  {
    var files;
    files, err := WalkFiles(fs.tree, c.ConfigsDir);
    if err.Some? {
      return;
    }
    var i := 0;
    while i < |files|
      invariant 0 <= i <= |files|
      invariant LinkEach(fs.tree, c, files[i..]) == LinkOn(old(fs.tree), c)
    {
      assert files[i..][1..] == files[i + 1..];
      var target := c.HomeDir + files[i];
      err := fs.MkdirAll(Parent(target));
      if err.Some? {
        return;
      }
      err := fs.RemoveAll(target);
      if err.Some? {
        return;
      }
      err := fs.Symlink(c.ConfigsDir + files[i], target);
      if err.Some? {
        return;
      }
      i := i + 1;
    }
    err := None;
  }

  // ---------------------------------------------------------------------------
  // Copying and the repository guard.

  /** `copyFile`: read `src` whole, write it to `dst`. */
  function CopyFileOn(t: Tree, src: Path, dst: Path): Effect
  {
    var r := ReadFileOn(t, src);
    if r.Err? then Effect(t, Some(r.msg)) else WriteFileOn(t, dst, r.value)
  }

  /** A copy shows the source's bytes at `dst` and changes only the path it writes. */
  lemma CopyFileSpec(t: Tree, src: Path, dst: Path)
    requires ValidTree(t)
    ensures var e := CopyFileOn(t, src, dst);
      && ValidTree(e.tree)
      && (e.err.Some? ==> e.tree == t)
      && (e.err.None? ==> ContentAt(t, src).Some? && ContentAt(e.tree, dst) == ContentAt(t, src))
      && (forall q | q != WriteTarget(t, dst) :: (q in e.tree <==> q in t) && (q in t ==> e.tree[q] == t[q]))
  {
    var r := ReadFileOn(t, src);
    if r.Ok? {
      WriteFileSpec(t, dst, r.value);
    }
  }

  method CopyFile(fs: Disk, src: Path, dst: Path) returns (err: Option<string>)
    modifies fs
    ensures Effect(fs.tree, err) == CopyFileOn(old(fs.tree), src, dst)
  {
    var r := ReadFileOn(fs.tree, src);
    if r.Err? {
      return Some(r.msg);
    }
    err := fs.WriteFile(dst, r.value);
  }

  /** The repository guard: the dotman directory holds something named `.git` that can be stat'ed. */
  predicate IsGitRepo(t: Tree, c: Config)
  {
    Exists(t, c.DotmanDir + [".git"])
  }

  /** The guard checks existence only: a plain file named `.git` passes, a dangling link does not. */
  lemma GitRepoByExistence(t: Tree, c: Config)
    ensures var g := c.DotmanDir + [".git"];
      && (g in t && t[g].File? ==> IsGitRepo(t, c))
      && (g !in t ==> !IsGitRepo(t, c))
      && (g in t && t[g].Symlink? && t[g].target !in t ==> !IsGitRepo(t, c))
  {
  }

  // ---------------------------------------------------------------------------
  // Adopting a file.

  /** Resolving a path that resolves already is not disturbed by added entries. */
  lemma ResolveKept(t: Tree, t': Tree, p: Path)
    requires Resolve(t, p).Some?
    requires forall q | q in t :: q in t' && t'[q] == t[q]
    ensures Resolve(t', p) == Resolve(t, p)
    ensures ContentAt(t', p) == ContentAt(t, p)
  {
  }

  /**
   * The file-system part of adopting `abs`: make the store directory, copy the
   * file in, make the file's parent, clear the file's spot and link it to the copy.
   */
  function AddFileSteps(t: Tree, abs: Path, targetDir: Path, target: Path): Effect
  {
    var e1 := MkdirAllOn(t, targetDir);
    if e1.err.Some? then Wrap(e1, "error creating target directory: ")
    else
      var e2 := CopyFileOn(e1.tree, abs, target);
      if e2.err.Some? then Wrap(e2, "error copying file: ")
      else
        var e3 := MkdirAllOn(e2.tree, Parent(abs));
        if e3.err.Some? then Wrap(e3, "error creating parent directories: ")
        else
          var e4 := RemoveAllOn(e3.tree, abs);
          if e4.err.Some? then Wrap(e4, "error removing existing file: ")
          else Wrap(SymlinkOn(e4.tree, target, abs), "error creating symbolic link: ")
  }

  /** Every failure of the adopting steps is reported as an "error ..." message. */
  lemma AddFileStepsFail(t: Tree, abs: Path, targetDir: Path, target: Path)
    ensures AddFileSteps(t, abs, targetDir, target).err.Some? ==>
      "error " <= AddFileSteps(t, abs, targetDir, target).err.value
  {
  }

  /** Where in the store a file at `abs` is kept: the same place relative to the store as `abs` to home. */
  function StoreTarget(c: Config, abs: Path): (r: Option<Path>)
    ensures r.Some? <==> c.HomeDir <= abs
    ensures r.Some? ==> c.ConfigsDir <= r.value && r.value[|c.ConfigsDir|..] == abs[|c.HomeDir|..]
  {
    if c.HomeDir <= abs then Some(c.ConfigsDir + abs[|c.HomeDir|..]) else None
  }

  function DoesNotExist(abs: Path): string
  {
    "file does not exist: " + AbsString(abs)
  }

  /**
   * Adopting `abs` on the file system. Only "no such file" stops it at once; a
   * path that stat cannot reach for another reason goes on to the copy, which
   * fails. A file outside the home directory is refused.
   */
  function AddFileOn(t: Tree, c: Config, abs: Path): Effect
  {
    if StatNotExist(t, abs) then Effect(t, Some(DoesNotExist(abs)))
    else match StoreTarget(c, abs)
      case None =>
        Effect(t, Some("error getting relative path: Rel: can't make " + AbsString(abs) + " relative to " + AbsString(c.HomeDir)))
      case Some(target) => AddFileSteps(t, abs, c.ConfigsDir + Parent(abs[|c.HomeDir|..]), target)
  }

  /** The commands that record an adopted file: force-add the copy, then commit if anything changed. */
  function RecordAdd(o: Oracle, target: Path, rel: Path): Option<string>
  {
    match o.run(AddForce(target))
    case Some(m) => Some("error adding file to git: " + m)
    case None =>
      match o.run(Status)
      case Some(m) => Some("error checking git status: " + m)
      case None =>
        if o.statusOutput == "" then None
        else
          match o.run(Commit("Add " + RelString(rel)))
          case Some(m) => Some("error committing file: " + m)
          case None => None
  }

  /**
   * A missing file, and one outside the home directory, are refused before
   * anything changes; "file does not exist" is reported exactly when stat
   * says there is no such file.
   */
  lemma AddFileRefusals(t: Tree, c: Config, abs: Path)
    ensures StatNotExist(t, abs) ==> AddFileOn(t, c, abs) == Effect(t, Some(DoesNotExist(abs)))
    ensures !StatNotExist(t, abs) && !(c.HomeDir <= abs) ==>
      AddFileOn(t, c, abs).tree == t && AddFileOn(t, c, abs).err.Some?
    ensures AddFileOn(t, c, abs).err == Some(DoesNotExist(abs)) <==> StatNotExist(t, abs)
  {
    var e := AddFileOn(t, c, abs);
    if !StatNotExist(t, abs) && e.err.Some? {
      if c.HomeDir <= abs {
        AddFileStepsFail(t, abs, c.ConfigsDir + Parent(abs[|c.HomeDir|..]), c.ConfigsDir + abs[|c.HomeDir|..]);
        assert "error " <= e.err.value;
      }
      assert e.err.value[0] == "error "[0];
      assert DoesNotExist(abs)[0] == 'f';
    }
  }

  /**
   * A path below a file is not reported missing, since stat fails there with
   * "not a directory": the store directory is made, and then the copy fails.
   */
  lemma AddFileBelowFile(t: Tree, c: Config, abs: Path)
    requires ValidTree(t) && c.HomeDir <= abs && abs != []
    requires Parent(abs) in t && t[Parent(abs)].File?
    requires MkdirAllOn(t, c.ConfigsDir + Parent(abs[|c.HomeDir|..])).err.None?
    ensures !StatNotExist(t, abs)
    ensures AddFileOn(t, c, abs) ==
      Effect(MkdirAllOn(t, c.ConfigsDir + Parent(abs[|c.HomeDir|..])).tree, Some("error copying file: " + ENOTDIR))
  {
    var targetDir := c.ConfigsDir + Parent(abs[|c.HomeDir|..]);
    var t1 := MkdirAllOn(t, targetDir).tree;
    MkdirAllSpec(t, targetDir);
    NothingBelowLeaf(t, Parent(abs), abs);
    NothingBelowLeaf(t1, Parent(abs), abs);
    assert ReadFileOn(t1, abs) == Err(ENOTDIR);
    assert StoreTarget(c, abs).Some?;
  }

  /** Making the store directory and copying in: the copy shows the file's bytes, nothing else of `t` changes. */
  lemma CopyStage(t: Tree, abs: Path, targetDir: Path, target: Path)
    requires ValidTree(t) && targetDir == Parent(target)
    requires !(target in t && t[target].Symlink?)
    requires MkdirAllOn(t, targetDir).err.None?
    requires CopyFileOn(MkdirAllOn(t, targetDir).tree, abs, target).err.None?
    ensures var t2 := CopyFileOn(MkdirAllOn(t, targetDir).tree, abs, target).tree;
      && ValidTree(t2)
      && ContentAt(t, abs).Some?
      && target in t2 && t2[target].File? && ContentAt(t2, target) == ContentAt(t, abs)
      && (forall q | q in t && q != target :: q in t2 && t2[q] == t[q])
  {
    var t1 := MkdirAllOn(t, targetDir).tree;
    MkdirAllSpec(t, targetDir);
    CopyFileSpec(t1, abs, target);
    assert WriteTarget(t1, target) == target;
    ResolveKept(t, t1, abs);
  }

  /** Clearing the file's spot and linking it: the file becomes a link to the copy, which stays put. */
  lemma LinkStage(t2: Tree, abs: Path, target: Path)
    requires ValidTree(t2) && target in t2 && t2[target].File?
    requires abs in t2 && t2[abs] != Dir && abs != target
    requires MkdirAllOn(t2, Parent(abs)).err.None?
    requires RemoveAllOn(MkdirAllOn(t2, Parent(abs)).tree, abs).err.None?
    requires SymlinkOn(RemoveAllOn(MkdirAllOn(t2, Parent(abs)).tree, abs).tree, target, abs).err.None?
    ensures var t5 := SymlinkOn(RemoveAllOn(MkdirAllOn(t2, Parent(abs)).tree, abs).tree, target, abs).tree;
      && ValidTree(t5)
      && t5 == RemoveAllOn(MkdirAllOn(t2, Parent(abs)).tree, abs).tree[abs := Symlink(target)]
      && target in t5 && t5[target] == t2[target]
  {
    var t3 := MkdirAllOn(t2, Parent(abs)).tree;
    MkdirAllSpec(t2, Parent(abs));
    assert !(abs <= target) by {
      if abs < target {
        AncestorsAreDirs(t2, target, abs);
      }
    }
    RemoveAllSpec(t3, abs);
    SymlinkSpec(RemoveAllOn(t3, abs).tree, target, abs);
  }

  /** Once MkdirAll has made `d`, nothing can be copied onto it. */
  lemma CopyOntoDirectoryFails(t: Tree, src: Path, d: Path)
    requires ValidTree(t) && MkdirAllOn(t, d).err.None?
    ensures CopyFileOn(MkdirAllOn(t, d).tree, src, d).err.Some?
  {
    MkdirAllSpec(t, d);
  }

  /**
   * After a successful adoption the file is a link into the store, the copy
   * there holds the bytes the file showed before, and the store lists it.
   */
  lemma AddFileAdopts(t: Tree, c: Config, abs: Path)
    requires ValidTree(t) && Nested(c)
    requires AddFileOn(t, c, abs).err.None?
    requires StoreTarget(c, abs).Some? ==> !(StoreTarget(c, abs).value in t && t[StoreTarget(c, abs).value].Symlink?)
    ensures c.HomeDir <= abs
    ensures var t' := AddFileOn(t, c, abs).tree; var rel := abs[|c.HomeDir|..];
      && ValidTree(t')
      && abs in t' && t'[abs] == Symlink(c.ConfigsDir + rel)
      && ContentAt(t', c.ConfigsDir + rel) == ContentAt(t, abs)
      && ContentAt(t', abs) == ContentAt(t, abs)
      && rel in Tracked(t', c.ConfigsDir)
  {
    var rel := abs[|c.HomeDir|..];
    var target := c.ConfigsDir + rel;
    var targetDir := c.ConfigsDir + Parent(rel);
    assert StoreTarget(c, abs) == Some(target);
    assert AddFileOn(t, c, abs) == AddFileSteps(t, abs, targetDir, target);
    var e1 := MkdirAllOn(t, targetDir);
    if rel == [] {
      CopyOntoDirectoryFails(t, abs, targetDir);
      assert false;
    }
    assert targetDir == Parent(target);
    var t2 := CopyFileOn(e1.tree, abs, target).tree;
    CopyStage(t, abs, targetDir, target);
    assert abs in t;
    LinkStage(t2, abs, target);
    var t' := AddFileOn(t, c, abs).tree;
    assert t'[abs] == Symlink(target);
    assert Resolve(t', target) == Some(target);
    TrackedMember(t', c.ConfigsDir, rel);
  }

  /**
   * Adopts the file at absolute path `abs`: the file-system steps, then, once
   * they have all succeeded, recording the copy in the repository.
   */
  method AddFile(c: Config, fs: Disk, abs: Path, o: Oracle) returns (err: Option<string>)
    modifies fs
    ensures fs.tree == AddFileOn(old(fs.tree), c, abs).tree
    ensures AddFileOn(old(fs.tree), c, abs).err.Some? ==> err == AddFileOn(old(fs.tree), c, abs).err
    ensures AddFileOn(old(fs.tree), c, abs).err.None? ==>
      err == RecordAdd(o, StoreTarget(c, abs).value, abs[|c.HomeDir|..])
  {
    if StatNotExist(fs.tree, abs) {
      return Some(DoesNotExist(abs));
    }
    if !(c.HomeDir <= abs) {
      return Some("error getting relative path: Rel: can't make " + AbsString(abs) + " relative to " + AbsString(c.HomeDir));
    }
    var rel := abs[|c.HomeDir|..];
    var target := c.ConfigsDir + rel;
    assert StoreTarget(c, abs) == Some(target);
    err := AdoptFile(fs, abs, c.ConfigsDir + Parent(rel), target);
    if err.Some? {
      return;
    }
    err := RecordFile(o, target, rel);
  }

  /** The filesystem half of AddFile: copy into the store, then the link in place of the original. */
  method AdoptFile(fs: Disk, abs: Path, targetDir: Path, target: Path) returns (err: Option<string>)
    modifies fs
    ensures Effect(fs.tree, err) == AddFileSteps(old(fs.tree), abs, targetDir, target)
  {
    err := fs.MkdirAll(targetDir);
    if err.Some? {
      return Some("error creating target directory: " + err.value);
    }
    err := CopyFile(fs, abs, target);
    if err.Some? {
      return Some("error copying file: " + err.value);
    }
    err := fs.MkdirAll(Parent(abs));
    if err.Some? {
      return Some("error creating parent directories: " + err.value);
    }
    err := fs.RemoveAll(abs);
    if err.Some? {
      return Some("error removing existing file: " + err.value);
    }
    err := fs.Symlink(target, abs);
    if err.Some? {
      return Some("error creating symbolic link: " + err.value);
    }
  }

  /** The git half of AddFile: force-add the copy, ask for the status, commit if anything changed. */
  method RecordFile(o: Oracle, target: Path, rel: Path) returns (err: Option<string>)
    ensures err == RecordAdd(o, target, rel)
  {
    var added := o.run(AddForce(target));
    if added.Some? {
      return Some("error adding file to git: " + added.value);
    }
    var status := o.run(Status);
    if status.Some? {
      return Some("error checking git status: " + status.value);
    }
    if o.statusOutput == "" {
      return None;
    }
    var committed := o.run(Commit("Add " + RelString(rel)));
    if committed.Some? {
      return Some("error committing file: " + committed.value);
    }
    return None;
  }


  // ---------------------------------------------------------------------------
  // Where AddFile puts a file, as written: through `filepath.Rel` and `filepath.Join`.

  /** Length of the longest common prefix. */
  function CommonPrefix(a: Path, b: Path): (k: nat)
    ensures k <= |a| && k <= |b| && a[..k] == b[..k]
    ensures k < |a| && k < |b| ==> a[k] != b[k]
  {
    if a == [] || b == [] || a[0] != b[0] then 0
    else
      var k := CommonPrefix(a[1..], b[1..]);
      assert a[..k + 1] == [a[0]] + a[1..][..k];
      assert b[..k + 1] == [b[0]] + b[1..][..k];
      1 + k
  }

  function Ups(n: nat): (r: Path)
    ensures |r| == n && forall i | 0 <= i < n :: r[i] == ".."
  {
    seq(n, _ => "..")
  }

  /** `filepath.Rel(base, target)` for clean absolute paths: up to the common prefix, then down. */
  function RelAsWritten(base: Path, target: Path): Path
  {
    var k := CommonPrefix(base, target);
    Ups(|base| - k) + target[k..]
  }

  /** `filepath.Join(base, rel)` followed by cleaning: ".." steps up, never above the root. */
  function JoinClean(base: Path, rel: Path): Path
    decreases |rel|
  {
    if rel == [] then base
    else if rel[0] == ".." then JoinClean(Parent(base), rel[1..])
    else JoinClean(base + [rel[0]], rel[1..])
  }

  /** The names of a clean path. */
  predicate CleanPath(p: Path)
  {
    forall i | 0 <= i < |p| :: p[i] != ".." && p[i] != "." && p[i] != ""
  }

  lemma {:induction false} JoinCleanPlain(base: Path, rel: Path)
    requires forall i | 0 <= i < |rel| :: rel[i] != ".."
    ensures JoinClean(base, rel) == base + rel
    decreases |rel|
  {
    if rel != [] {
      assert forall i | 0 <= i < |rel[1..]| :: rel[1..][i] == rel[i + 1];
      JoinCleanPlain(base + [rel[0]], rel[1..]);
      assert base + [rel[0]] + rel[1..] == base + rel;
    }
  }

  /** AddFile as written: the store path is computed through Rel and Join, whatever `abs` is. */
  function AddFileOnAsWritten(t: Tree, c: Config, abs: Path): Effect
  {
    if StatNotExist(t, abs) then Effect(t, Some(DoesNotExist(abs)))
    else
      var rel := RelAsWritten(c.HomeDir, abs);
      AddFileSteps(t, abs, JoinClean(c.ConfigsDir, Parent(rel)), JoinClean(c.ConfigsDir, rel))
  }

  /** For a clean path inside the home directory, the code as written and the model agree. */
  lemma AsWrittenAgreesInsideHome(t: Tree, c: Config, abs: Path)
    requires c.HomeDir <= abs && CleanPath(abs)
    ensures AddFileOnAsWritten(t, c, abs) == AddFileOn(t, c, abs)
  {
    var k := CommonPrefix(c.HomeDir, abs);
    var rel := RelAsWritten(c.HomeDir, abs);
    assert rel == abs[|c.HomeDir|..];
    JoinCleanPlain(c.ConfigsDir, rel);
    JoinCleanPlain(c.ConfigsDir, Parent(rel));
  }

  /**
   * A file outside the home directory: `/etc/hosts` with home `/home/u` is
   * copied to `/home/u/etc/hosts`, which is not in the store, and the store
   * never lists it; the model refuses it instead.
   */
  lemma AddFileOutsideHomeAsWritten()
    ensures var c := Config(["home", "u"], ["home", "u", ".dotman"], ["home", "u", ".dotman", "configs"]);
      var abs := ["etc", "hosts"];
      && JoinClean(c.ConfigsDir, RelAsWritten(c.HomeDir, abs)) == ["home", "u", "etc", "hosts"]
      && JoinClean(c.ConfigsDir, Parent(RelAsWritten(c.HomeDir, abs))) == ["home", "u", "etc"]
      && !(c.ConfigsDir <= JoinClean(c.ConfigsDir, RelAsWritten(c.HomeDir, abs)))
      && StoreTarget(c, abs).None?
  {
    var c := Config(["home", "u"], ["home", "u", ".dotman"], ["home", "u", ".dotman", "configs"]);
    var abs := ["etc", "hosts"];
    assert CommonPrefix(c.HomeDir, abs) == 0;
    var rel := RelAsWritten(c.HomeDir, abs);
    assert rel == ["..", "..", "etc", "hosts"];
    assert Parent(c.ConfigsDir) == ["home", "u", ".dotman"];
    assert Parent(["home", "u", ".dotman"]) == ["home", "u"];
    assert rel[0] == ".." && rel[1..][0] == ".." && rel[1..][1..] == rel[2..];
    assert JoinClean(c.ConfigsDir, rel) == JoinClean(["home", "u", ".dotman"], rel[1..]);
    assert JoinClean(["home", "u", ".dotman"], rel[1..]) == JoinClean(["home", "u"], rel[2..]);
    JoinCleanPlain(["home", "u"], rel[2..]);
    var up := Parent(rel);
    assert up == ["..", "..", "etc"];
    assert up[0] == ".." && up[1..][0] == ".." && up[1..][1..] == up[2..];
    assert JoinClean(c.ConfigsDir, up) == JoinClean(["home", "u", ".dotman"], up[1..]);
    assert JoinClean(["home", "u", ".dotman"], up[1..]) == JoinClean(["home", "u"], up[2..]);
    JoinCleanPlain(["home", "u"], up[2..]);
    var landed: Path := ["home", "u", "etc", "hosts"];
    assert c.ConfigsDir[2] != landed[2];
  }

  /**
   * What that does to the file system: on a tree where `/etc/hosts` is a
   * readable file and `/home/u/etc` does not exist, the code as written makes
   * `/home/u/etc`, copies the file there and replaces `/etc/hosts` by a link
   * to the copy, outside the store; the model refuses and changes nothing.
   */
  lemma AddFileOutsideHomeLands(t: Tree, data: Bytes, mode: Mode)
    requires ValidTree(t)
    requires ["etc", "hosts"] in t && t[["etc", "hosts"]] == File(data, mode) && OwnerReadable(mode)
    requires ["home", "u"] in t && t[["home", "u"]] == Dir && ["home", "u", "etc"] !in t
    ensures var c := Config(["home", "u"], ["home", "u", ".dotman"], ["home", "u", ".dotman", "configs"]);
      var abs := ["etc", "hosts"];
      var landed := ["home", "u", "etc", "hosts"];
      var e := AddFileOnAsWritten(t, c, abs);
      && e.err.None?
      && landed in e.tree && e.tree[landed] == File(data, CreateMode)
      && abs in e.tree && e.tree[abs] == Symlink(landed)
      && AddFileOn(t, c, abs).tree == t && AddFileOn(t, c, abs).err.Some?
  {
    var c := Config(["home", "u"], ["home", "u", ".dotman"], ["home", "u", ".dotman", "configs"]);
    var abs: Path := ["etc", "hosts"];
    var landed: Path := ["home", "u", "etc", "hosts"];
    var targetDir: Path := ["home", "u", "etc"];
    AddFileOutsideHomeAsWritten();
    assert !StatNotExist(t, abs);
    var rel := RelAsWritten(c.HomeDir, abs);
    assert JoinClean(c.ConfigsDir, rel) == landed && JoinClean(c.ConfigsDir, Parent(rel)) == targetDir;
    assert AddFileOnAsWritten(t, c, abs) == AddFileSteps(t, abs, targetDir, landed);
    assert Parent(landed) == targetDir;
    AncestorsAreDirs(t, ["home", "u"], ["home"]);
    forall k | 0 <= k <= |targetDir|
      ensures targetDir[..k] !in t || t[targetDir[..k]] == Dir
    {
      if k == 0 {
        assert targetDir[..k] == [];
      } else if k == 1 {
        assert targetDir[..k] == ["home"];
      } else if k == 2 {
        assert targetDir[..k] == ["home", "u"];
      } else {
        assert targetDir[..k] == targetDir;
      }
    }
    AdoptStepsSucceed(t, abs, landed);
  }

  /**
   * The adopting steps succeed for a readable regular file and a copy place
   * whose way down holds only directories or nothing: the copy holds the
   * file's bytes and the file becomes a link to it.
   */
  lemma AdoptStepsSucceed(t: Tree, abs: Path, target: Path)
    requires ValidTree(t) && abs in t && t[abs].File? && OwnerReadable(t[abs].mode)
    requires target != [] && Parent(target) !in t
    requires forall k | 0 <= k <= |Parent(target)| :: Parent(target)[..k] !in t || t[Parent(target)[..k]] == Dir
    ensures var e := AddFileSteps(t, abs, Parent(target), target);
      && e.err.None?
      && target in e.tree && e.tree[target] == File(t[abs].data, CreateMode)
      && abs in e.tree && e.tree[abs] == Symlink(target)
  {
    var targetDir := Parent(target);
    assert target !in t by {
      if target in t {
        AncestorsAreDirs(t, target, targetDir);
      }
    }
    MkdirAllSucceeds(t, targetDir);
    MkdirAllSpec(t, targetDir);
    var t1 := MkdirAllOn(t, targetDir).tree;
    assert ReadFileOn(t1, abs) == Ok(t[abs].data);
    assert target !in t1;
    CopyStage(t, abs, targetDir, target);
    var t2 := CopyFileOn(t1, abs, target).tree;
    assert t2[target] == File(t[abs].data, CreateMode);
    assert abs != [];
    AbsSteps(t2, abs, target);
    LinkStage(t2, abs, target);
  }

  /** The second half of adopting a regular file whose parent is a directory: nothing there fails. */
  lemma AbsSteps(t2: Tree, abs: Path, target: Path)
    requires ValidTree(t2) && abs in t2 && t2[abs].File? && abs != []
    ensures MkdirAllOn(t2, Parent(abs)) == Effect(t2, None)
    ensures RemoveAllOn(t2, abs).err.None?
    ensures SymlinkOn(RemoveAllOn(t2, abs).tree, target, abs).err.None?
  {
    RemoveAllSpec(t2, abs);
    SymlinkSpec(RemoveAllOn(t2, abs).tree, target, abs);
  }
}
