/**
 * The abstract filesystem the tool runs against: a map from absolute paths to
 * entries, and the `os` calls it makes, each giving the tree afterwards and the
 * error it returns.
 *
 * Symbolic links are followed once, at the final name of a path (`os.Stat`,
 * `os.ReadFile`, `os.WriteFile`, `os.ReadDir`); a link to a link counts as
 * dangling, and no path is resolved through a linked directory in its middle.
 */
module FileSystem {
  import opened Wrappers
  import opened Paths

  newtype byte = x: int | 0 <= x < 256
  type Bytes = seq<byte>

  /** `os.FileMode` permission bits. */
  type Mode = bv32

  const OwnerRead: Mode := 0x100      // 0400
  const CreateMode: Mode := 0x1A4     // 0644, what `os.WriteFile` creates files with

  datatype Entry = File(data: Bytes, mode: Mode) | Dir | Symlink(target: Path)

  type Tree = map<Path, Entry>

  /** The bytes of an ASCII text. */
  function Ascii(s: string): (b: Bytes)
    ensures |b| == |s|
  {
    seq(|s|, i requires 0 <= i < |s| => (s[i] as int % 256) as byte)
  }

  /** What one filesystem step leaves behind: the tree and the error it returned. */
  datatype Effect = Effect(tree: Tree, err: Option<string>)

  /** Prefixes a step's failure with what the step was for. */
  function Wrap(e: Effect, what: string): (r: Effect)
    ensures r.tree == e.tree && (r.err.None? <==> e.err.None?)
    ensures r.err.Some? ==> what <= r.err.value
  {
    if e.err.Some? then Effect(e.tree, Some(what + e.err.value)) else e
  }

  const ENOENT := "no such file or directory"
  const EEXIST := "file exists"
  const ENOTDIR := "not a directory"
  const EISDIR := "is a directory"
  const EACCES := "permission denied"
  const EINVAL := "invalid argument"
  const ENOTEMPTY := "directory not empty"
  const EBUSY := "device or resource busy"

  /** The root is a directory, and every other entry sits in a directory. */
  predicate ValidTree(t: Tree)
  {
    && [] in t && t[[]] == Dir
    && forall p | p in t && p != [] :: Parent(p) in t && t[Parent(p)] == Dir
  }

  /** Everything on the way down to an entry is a directory. */
  lemma {:induction false} AncestorsAreDirs(t: Tree, p: Path, a: Path)
    requires ValidTree(t) && p in t && a < p
    ensures a in t && t[a] == Dir
    decreases |p|
  {
    if a != Parent(p) {
      assert |a| < |p| - 1;
      assert a == Parent(p)[..|a|];
      AncestorsAreDirs(t, Parent(p), a);
    }
  }

  /** Nothing lives below a file or a link. */
  lemma NothingBelowLeaf(t: Tree, leaf: Path, p: Path)
    requires ValidTree(t) && leaf in t && t[leaf] != Dir && leaf < p
    ensures p !in t
  {
    if p in t {
      AncestorsAreDirs(t, p, leaf);
    }
  }

  lemma ChildListed(t: Tree, q: Path)
    requires q in t && q != []
    ensures [q[|Parent(q)|]] in Children(t, Parent(q))
  {
  }

  // ---------------------------------------------------------------------------
  // Looking at entries.

  /** The path `os.Stat` ends up at: `p` itself, or the target of a link at `p`. */
  function Resolve(t: Tree, p: Path): (r: Option<Path>)
    ensures r.Some? ==> r.value in t && !t[r.value].Symlink?
    ensures p in t && !t[p].Symlink? ==> r == Some(p)
  {
    if p !in t then None
    else if t[p].Symlink? then
      (if t[p].target in t && !t[t[p].target].Symlink? then Some(t[p].target) else None)
    else Some(p)
  }

  /** `os.Stat` succeeds. */
  predicate Exists(t: Tree, p: Path)
  {
    Resolve(t, p).Some?
  }

  /**
   * `os.Lstat` fails with "no such file or directory", the error `os.IsNotExist`
   * accepts: `p` is missing, and so is the first name on the way to it that is
   * not a directory. A file or a link on the way gives "not a directory" instead.
   */
  predicate LstatNotExist(t: Tree, p: Path)
    decreases |p|
  {
    && p !in t
    && (p == [] || if Parent(p) in t then t[Parent(p)] == Dir else LstatNotExist(t, Parent(p)))
  }

  /** `os.Stat` fails with "no such file or directory": `p` is missing, or is a link whose target is. */
  predicate StatNotExist(t: Tree, p: Path)
  {
    || LstatNotExist(t, p)
    || (p in t && t[p].Symlink? &&
        (LstatNotExist(t, t[p].target) || (t[p].target in t && t[t[p].target].Symlink?)))
  }

  /** What a failed `os.Lstat` of a missing `p` reports. */
  function LstatError(t: Tree, p: Path): string
  {
    if LstatNotExist(t, p) then ENOENT else ENOTDIR
  }

  /** The error of an `os.Stat`-like call on a path that does not resolve. */
  function StatError(t: Tree, p: Path): string
  {
    if StatNotExist(t, p) then ENOENT else ENOTDIR
  }

  /** In a valid tree, "no such file" means: missing, with nothing but directories on the way down. */
  lemma {:induction false} LstatNotExistSpec(t: Tree, p: Path)
    requires ValidTree(t)
    ensures LstatNotExist(t, p) <==> p !in t && forall k | 0 <= k < |p| :: p[..k] !in t || t[p[..k]] == Dir
    decreases |p|
  {
    if p != [] {
      var d := Parent(p);
      assert d == p[..|p| - 1];
      LstatNotExistSpec(t, d);
      if LstatNotExist(t, p) && d in t {
        forall k | 0 <= k < |p|
          ensures p[..k] !in t || t[p[..k]] == Dir
        {
          if k < |p| - 1 {
            assert p[..k] < d;
            AncestorsAreDirs(t, d, p[..k]);
          }
        }
      }
      if LstatNotExist(t, p) && d !in t {
        forall k | 0 <= k < |p|
          ensures p[..k] !in t || t[p[..k]] == Dir
        {
          if k < |p| - 1 {
            assert p[..k] == d[..k];
          }
        }
      }
      if p !in t && (forall k | 0 <= k < |p| :: p[..k] !in t || t[p[..k]] == Dir) && d !in t {
        forall k | 0 <= k < |d|
          ensures d[..k] !in t || t[d[..k]] == Dir
        {
          assert d[..k] == p[..k];
        }
      }
    }
  }

  /** Below a regular file nothing exists, and lstat reports "not a directory" there, not "no such file". */
  lemma BlockedIsNotDirectory(t: Tree, p: Path)
    requires ValidTree(t) && p != [] && Parent(p) in t && t[Parent(p)].File?
    ensures p !in t && LstatError(t, p) == ENOTDIR
  {
    NothingBelowLeaf(t, Parent(p), p);
  }

  /** A path that stat reports missing does not resolve. */
  lemma NotExistFails(t: Tree, p: Path)
    ensures LstatNotExist(t, p) ==> StatNotExist(t, p)
    ensures StatNotExist(t, p) ==> !Exists(t, p)
  {
  }

  /** `os.Stat` succeeds and reports a directory. */
  predicate IsDirectory(t: Tree, p: Path)
  {
    Resolve(t, p).Some? && t[Resolve(t, p).value] == Dir
  }

  /** The bytes seen through `p`, permissions aside. */
  function ContentAt(t: Tree, p: Path): Option<Bytes>
  {
    match Resolve(t, p)
    case Some(q) => if t[q].File? then Some(t[q].data) else None
    case None => None
  }

  predicate OwnerReadable(m: Mode)
  {
    m & OwnerRead != 0
  }

  /** `os.ReadFile`; the tool is taken to run as the owner of what it reads. */
  function ReadFileOn(t: Tree, p: Path): (r: Result<Bytes>)
    ensures r.Ok? ==> ContentAt(t, p) == Some(r.value)
    ensures ContentAt(t, p).Some? && r.Err? ==> r.msg == EACCES
  {
    match Resolve(t, p)
    case None => Err(StatError(t, p))
    case Some(q) =>
      match t[q]
      case Dir => Err(EISDIR)
      case File(data, mode) => if OwnerReadable(mode) then Ok(data) else Err(EACCES)
  }

  /** `os.Readlink`. */
  function ReadlinkOn(t: Tree, p: Path): (r: Result<Path>)
    ensures r.Ok? <==> p in t && t[p].Symlink?
  {
    if p !in t then Err(LstatError(t, p))
    else if t[p].Symlink? then Ok(t[p].target)
    else Err(EINVAL)
  }

  /** Names directly inside directory `d`, as one-name paths. */
  function Children(t: Tree, d: Path): set<Path>
  {
    set p | p in t && |p| == |d| + 1 && d < p :: [p[|d|]]
  }

  /** `os.ReadDir`: the names inside `p`, after following a link there. */
  function ReadDirOn(t: Tree, p: Path): (r: Result<set<Path>>)
    ensures r.Ok? <==> IsDirectory(t, p)
  {
    match Resolve(t, p)
    case None => Err(StatError(t, p))
    case Some(q) => if t[q] == Dir then Ok(Children(t, q)) else Err(ENOTDIR)
  }

  // ---------------------------------------------------------------------------
  // Changing entries. Each step that fails leaves the tree as it was.

  /** `os.Mkdir` once the parent exists. */
  function MkdirOn(t: Tree, p: Path): Effect
  {
    if p in t then Effect(t, Some(EEXIST))
    else if p == [] || Parent(p) !in t then Effect(t, Some(ENOENT))
    else if t[Parent(p)] != Dir then Effect(t, Some(ENOTDIR))
    else Effect(t[p := Dir], None)
  }

  /** `os.MkdirAll`: nothing to do at a directory, else make the parent, then `p`. */
  function MkdirAllOn(t: Tree, p: Path): Effect
    decreases |p|
  {
    if IsDirectory(t, p) then Effect(t, None)
    else if Exists(t, p) then Effect(t, Some(ENOTDIR))
    else if p == [] then Effect(t, Some(ENOENT))
    else
      var e := MkdirAllOn(t, Parent(p));
      if e.err.Some? then e else MkdirOn(e.tree, p)
  }

  /** `os.RemoveAll`: `p` and everything below it; the root itself is refused. */
  function RemoveAllOn(t: Tree, p: Path): Effect
  {
    if p == [] then Effect(t, Some(EBUSY))
    else Effect(map q | q in t && !(p <= q) :: t[q], None)
  }

  /** `os.Remove`: one entry, a directory only when empty. */
  function RemoveOn(t: Tree, p: Path): Effect
  {
    if p !in t then Effect(t, Some(LstatError(t, p)))
    else if p == [] then Effect(t, Some(EBUSY))
    else if t[p] == Dir && Children(t, p) != {} then Effect(t, Some(ENOTEMPTY))
    else Effect(map q | q in t && q != p :: t[q], None)
  }

  /** `os.Symlink(target, p)`. */
  function SymlinkOn(t: Tree, target: Path, p: Path): Effect
  {
    if p in t || p == [] then Effect(t, Some(EEXIST))
    else if Parent(p) !in t then Effect(t, Some(ENOENT))
    else if t[Parent(p)] != Dir then Effect(t, Some(ENOTDIR))
    else Effect(t[p := Symlink(target)], None)
  }

  /** The path `os.WriteFile` writes: the target of a link at `p`, else `p`. */
  function WriteTarget(t: Tree, p: Path): Path
  {
    if p in t && t[p].Symlink? then t[p].target else p
  }

  /** `os.WriteFile(p, data, 0644)`: truncates an existing file, keeping its mode. */
  function WriteFileOn(t: Tree, p: Path, data: Bytes): Effect
  {
    var q := WriteTarget(t, p);
    if q in t then
      match t[q]
      case File(_, mode) => Effect(t[q := File(data, mode)], None)
      case Dir => Effect(t, Some(EISDIR))
      case Symlink(_) => Effect(t, Some(ENOENT))
    else if q == [] || Parent(q) !in t then Effect(t, Some(ENOENT))
    else if t[Parent(q)] != Dir then Effect(t, Some(ENOTDIR))
    else Effect(t[q := File(data, CreateMode)], None)
  }

  // ---------------------------------------------------------------------------
  // What the steps promise.

  /** MkdirAll adds directories along `p` and changes nothing that exists. */
  lemma {:induction false} MkdirAllSpec(t: Tree, p: Path)
    requires ValidTree(t)
    ensures var e := MkdirAllOn(t, p);
      && ValidTree(e.tree)
      && (e.err.None? ==> IsDirectory(e.tree, p))
      && (e.err.Some? ==> e.tree == t)
      && (forall q | q in t :: q in e.tree && e.tree[q] == t[q])
      && (forall q | q in e.tree && q !in t :: q <= p && e.tree[q] == Dir)
    decreases |p|
  {
    if !IsDirectory(t, p) && !Exists(t, p) && p != [] {
      MkdirAllSpec(t, Parent(p));
    }
  }

  /** MkdirAll succeeds exactly when no file or link stands on the way to `p`. */
  lemma {:induction false} MkdirAllSucceeds(t: Tree, p: Path)
    requires ValidTree(t)
    requires forall k | 0 <= k <= |p| :: p[..k] !in t || t[p[..k]] == Dir
    ensures MkdirAllOn(t, p).err.None?
    decreases |p|
  {
    if !IsDirectory(t, p) {
      assert p[..|p|] == p;
      if p != [] {
        forall k | 0 <= k <= |Parent(p)|
          ensures Parent(p)[..k] !in t || t[Parent(p)[..k]] == Dir
        {
          assert Parent(p)[..k] == p[..k];
        }
        MkdirAllSucceeds(t, Parent(p));
        MkdirAllSpec(t, Parent(p));
      }
    }
  }

  lemma RemoveAllSpec(t: Tree, p: Path)
    requires ValidTree(t) && p != []
    ensures var e := RemoveAllOn(t, p);
      && e.err.None? && ValidTree(e.tree)
      && (forall q :: q in e.tree <==> q in t && !(p <= q))
      && (forall q | q in e.tree :: e.tree[q] == t[q])
  {
    var t' := RemoveAllOn(t, p).tree;
    forall q | q in t' && q != []
      ensures Parent(q) in t' && t'[Parent(q)] == Dir
    {
    }
  }

  lemma RemoveSpec(t: Tree, p: Path)
    requires ValidTree(t)
    ensures var e := RemoveOn(t, p);
      && ValidTree(e.tree)
      && (e.err.Some? ==> e.tree == t)
      && (e.err.None? ==> p in t && e.tree == map q | q in t && q != p :: t[q])
  {
    var e := RemoveOn(t, p);
    if e.err.None? {
      forall q | q in e.tree && q != []
        ensures Parent(q) in e.tree && e.tree[Parent(q)] == Dir
      {
        ChildListed(t, q);
      }
    }
  }

  lemma SymlinkSpec(t: Tree, target: Path, p: Path)
    requires ValidTree(t)
    ensures var e := SymlinkOn(t, target, p);
      && ValidTree(e.tree)
      && (e.err.None? <==> p !in t && p != [] && Parent(p) in t && t[Parent(p)] == Dir)
      && (e.err.None? ==> e.tree == t[p := Symlink(target)])
      && (e.err.Some? ==> e.tree == t)
  {
  }

  /** WriteFile changes only the path it writes, after which `p` shows the new bytes. */
  lemma WriteFileSpec(t: Tree, p: Path, data: Bytes)
    requires ValidTree(t)
    ensures var e := WriteFileOn(t, p, data);
      && ValidTree(e.tree)
      && (e.err.Some? ==> e.tree == t)
      && (e.err.None? ==> ContentAt(e.tree, p) == Some(data))
      && (forall q | q != WriteTarget(t, p) :: (q in e.tree <==> q in t) && (q in t ==> e.tree[q] == t[q]))
  {
    WriteFileValid(t, p, data);
    if WriteFileOn(t, p, data).err.None? {
      WriteFileContent(t, p, data);
    }
  }

  lemma WriteFileValid(t: Tree, p: Path, data: Bytes)
    requires ValidTree(t)
    ensures ValidTree(WriteFileOn(t, p, data).tree)
  {
    var w := WriteTarget(t, p);
    var e := WriteFileOn(t, p, data);
    if e.err.None? {
      assert e.tree == t[w := e.tree[w]];
      forall r | r in e.tree && r != []
        ensures Parent(r) in e.tree && e.tree[Parent(r)] == Dir
      {
        if r != w {
          assert r in t;
        }
      }
    }
  }

  lemma WriteFileContent(t: Tree, p: Path, data: Bytes)
    requires WriteFileOn(t, p, data).err.None?
    ensures ContentAt(WriteFileOn(t, p, data).tree, p) == Some(data)
  {
    var w := WriteTarget(t, p);
    var e := WriteFileOn(t, p, data);
    assert w in e.tree && e.tree[w].File? && e.tree[w].data == data;
    if p != w {
      assert e.tree[p] == t[p];
    }
  }


  /** A write that succeeds leaves every directory a directory. */
  lemma WriteKeepsDirectories(t: Tree, p: Path, data: Bytes, d: Path)
    requires WriteFileOn(t, p, data).err.None? && IsDirectory(t, d)
    ensures IsDirectory(WriteFileOn(t, p, data).tree, d)
  {
    var w := WriteTarget(t, p);
    var q := Resolve(t, d).value;
    assert w in t ==> t[w].File?;
    assert d in t && q in t && w != d && w != q;
  }

  /** A file keeps its mode when written, so it stays readable. */
  lemma WriteKeepsReadable(t: Tree, p: Path, data: Bytes)
    requires ValidTree(t) && ReadFileOn(t, p).Ok?
    ensures WriteFileOn(t, p, data).err.None?
    ensures ReadFileOn(WriteFileOn(t, p, data).tree, p) == Ok(data)
  {
  }

  // ---------------------------------------------------------------------------
  // The filesystem as the tool sees it: one mutable tree.

  class Disk {
    var tree: Tree

    constructor (t: Tree)
      ensures tree == t
    {
      tree := t;
    }

    method MkdirAll(p: Path) returns (err: Option<string>)
      modifies this
      ensures Effect(tree, err) == MkdirAllOn(old(tree), p)
    {
      var e := MkdirAllOn(tree, p);
      tree, err := e.tree, e.err;
    }

    method RemoveAll(p: Path) returns (err: Option<string>)
      modifies this
      ensures Effect(tree, err) == RemoveAllOn(old(tree), p)
    {
      var e := RemoveAllOn(tree, p);
      tree, err := e.tree, e.err;
    }

    method Remove(p: Path) returns (err: Option<string>)
      modifies this
      ensures Effect(tree, err) == RemoveOn(old(tree), p)
    {
      var e := RemoveOn(tree, p);
      tree, err := e.tree, e.err;
    }

    method Symlink(target: Path, p: Path) returns (err: Option<string>)
      modifies this
      ensures Effect(tree, err) == SymlinkOn(old(tree), target, p)
    {
      var e := SymlinkOn(tree, target, p);
      tree, err := e.tree, e.err;
    }

    method WriteFile(p: Path, data: Bytes) returns (err: Option<string>)
      modifies this
      ensures Effect(tree, err) == WriteFileOn(old(tree), p, data)
    {
      var e := WriteFileOn(tree, p, data);
      tree, err := e.tree, e.err;
    }
  }
}
