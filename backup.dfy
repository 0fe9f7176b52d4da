/**
 * Backups: a copy of one file's bytes plus a metadata record, kept in
 * `.dotman/backups/<id>/`; listing them; and restoring one.
 */
module Backup {
  import opened Wrappers
  import opened Paths
  import opened FileSystem
  import opened Config

  /** The record stored as `metadata.json`; `symlinkPath` is absent when the file was not a link. */
  datatype BackupMetadata = BackupMetadata(id: string, originalPath: Path, symlinkPath: Option<Path>, timestamp: string)

  /** The JSON encoding and decoding of metadata; the decoder may refuse malformed text. */
  datatype Codec = Codec(encode: BackupMetadata -> Bytes, decode: Bytes -> Result<BackupMetadata>)

  ghost predicate RoundTrips(codec: Codec)
  {
    forall m :: codec.decode(codec.encode(m)) == Ok(m)
  }

  function BackupsDir(c: Config): Path
  {
    c.DotmanDir + ["backups"]
  }

  function BackupDir(c: Config, id: string): Path
  {
    BackupsDir(c) + [id]
  }

  /** What is recorded about the file at `p`: where it was and where it linked to, if it was a link. */
  function Snapshot(t: Tree, p: Path, id: string, stamp: string): (m: BackupMetadata)
    ensures m.originalPath == p && m.id == id
    ensures m.symlinkPath.Some? <==> p in t && t[p].Symlink?
    ensures m.symlinkPath.Some? ==> m.symlinkPath.value == t[p].target
  {
    BackupMetadata(id, p, match ReadlinkOn(t, p) case Ok(l) => Some(l) case Err(_) => None, stamp)
  }

  // ---------------------------------------------------------------------------
  // Taking a backup.

  /** Writing the two files of a backup into its directory. */
  function SaveBackupOn(t: Tree, dir: Path, content: Bytes, metadata: Bytes): Effect
  {
    var e1 := MkdirAllOn(t, dir);
    if e1.err.Some? then Wrap(e1, "failed to create backup directory: ")
    else
      var e2 := WriteFileOn(e1.tree, dir + ["content"], content);
      if e2.err.Some? then Wrap(e2, "failed to save backup content: ")
      else Wrap(WriteFileOn(e2.tree, dir + ["metadata.json"], metadata), "failed to save metadata: ")
  }

  /** BackupFile: `id` and `stamp` are the times the backup is named after and stamped with. */
  function BackupOn(t: Tree, c: Config, p: Path, id: string, stamp: string, codec: Codec): Effect
  {
    var e0 := MkdirAllOn(t, BackupsDir(c));
    if e0.err.Some? then Wrap(e0, "failed to create backups directory: ")
    else
      match ReadFileOn(e0.tree, p)
      case Err(m) => Effect(e0.tree, Some("failed to read file: " + m))
      case Ok(content) =>
        SaveBackupOn(e0.tree, BackupDir(c, id), content, codec.encode(Snapshot(e0.tree, p, id, stamp)))
  }

  /** Nothing lives below a path that is absent. */
  lemma NothingBelowAbsent(t: Tree, d: Path, q: Path)
    requires ValidTree(t) && d !in t && d <= q
    ensures q !in t
  {
    if q in t && q != d {
      AncestorsAreDirs(t, q, d);
    }
  }

  /** Saving into a fresh directory adds exactly that directory's way down and its two files. */
  lemma SaveBackupSpec(t: Tree, dir: Path, content: Bytes, metadata: Bytes)
    requires ValidTree(t) && dir !in t
    requires SaveBackupOn(t, dir, content, metadata).err.None?
    ensures var t' := SaveBackupOn(t, dir, content, metadata).tree;
      && ValidTree(t')
      && (forall q | q in t :: q in t' && t'[q] == t[q])
      && (forall q | q in t' && q !in t :: q <= dir || q == dir + ["content"] || q == dir + ["metadata.json"])
      && dir in t' && t'[dir] == Dir
      && dir + ["content"] in t' && t'[dir + ["content"]] == File(content, CreateMode)
      && dir + ["metadata.json"] in t' && t'[dir + ["metadata.json"]] == File(metadata, CreateMode)
  {
    var e1 := MkdirAllOn(t, dir);
    MkdirAllSpec(t, dir);
    NothingBelowAbsent(t, dir, dir + ["content"]);
    NothingBelowAbsent(t, dir, dir + ["metadata.json"]);
    assert Parent(dir + ["content"]) == dir;
    assert Parent(dir + ["metadata.json"]) == dir;
    assert dir in e1.tree;
    assert dir + ["content"] !in e1.tree;
    assert dir + ["metadata.json"] !in e1.tree;
    var e2 := WriteFileOn(e1.tree, dir + ["content"], content);
    WriteFileSpec(e1.tree, dir + ["content"], content);
    WriteFileSpec(e2.tree, dir + ["metadata.json"], metadata);
  }

  /**
   * A backup into a fresh directory keeps every existing entry, adds only the
   * backup's own entries, and stores the file's bytes and its metadata.
   */
  lemma BackupSpec(t: Tree, c: Config, p: Path, id: string, stamp: string, codec: Codec)
    requires ValidTree(t) && BackupDir(c, id) !in t
    requires BackupOn(t, c, p, id, stamp, codec).err.None?
    ensures var t' := BackupOn(t, c, p, id, stamp, codec).tree; var dir := BackupDir(c, id);
      && ValidTree(t')
      && (forall q | q in t :: q in t' && t'[q] == t[q])
      && (forall q | q in t' && q !in t :: q <= dir || q == dir + ["content"] || q == dir + ["metadata.json"])
      && ContentAt(t, p).Some?
      && dir + ["content"] in t' && t'[dir + ["content"]] == File(ContentAt(t, p).value, CreateMode)
      && dir + ["metadata.json"] in t' && t'[dir + ["metadata.json"]] == File(codec.encode(Snapshot(t, p, id, stamp)), CreateMode)
  {
    var e0 := MkdirAllOn(t, BackupsDir(c));
    MkdirAllSpec(t, BackupsDir(c));
    var content := ReadFileOn(e0.tree, p).value;
    ResolveKeptBackup(t, e0.tree, p);
    assert BackupDir(c, id) !in e0.tree;
    assert Snapshot(e0.tree, p, id, stamp) == Snapshot(t, p, id, stamp);
    SaveBackupSpec(e0.tree, BackupDir(c, id), content, codec.encode(Snapshot(t, p, id, stamp)));
  }

  /** Added directories leave a readable file's resolution and bytes alone. */
  lemma ResolveKeptBackup(t: Tree, t': Tree, p: Path)
    requires forall q | q in t :: q in t' && t'[q] == t[q]
    requires forall q | q in t' && q !in t :: t'[q] == Dir
    requires ReadFileOn(t', p).Ok?
    ensures ContentAt(t, p) == ContentAt(t', p)
  {
  }

  /** Takes a backup of the file at `p`. */
  method BackupFile(c: Config, fs: Disk, p: Path, id: string, stamp: string, codec: Codec) returns (err: Option<string>)
    modifies fs
    ensures Effect(fs.tree, err) == BackupOn(old(fs.tree), c, p, id, stamp, codec)
  {
    err := fs.MkdirAll(BackupsDir(c));
    if err.Some? {
      return Some("failed to create backups directory: " + err.value);
    }
    var read := ReadFileOn(fs.tree, p);
    if read.Err? {
      return Some("failed to read file: " + read.msg);
    }
    var backup := Snapshot(fs.tree, p, id, stamp);
    var dir := BackupDir(c, id);
    err := fs.MkdirAll(dir);
    if err.Some? {
      return Some("failed to create backup directory: " + err.value);
    }
    err := fs.WriteFile(dir + ["content"], read.value);
    if err.Some? {
      return Some("failed to save backup content: " + err.value);
    }
    err := fs.WriteFile(dir + ["metadata.json"], codec.encode(backup));
    if err.Some? {
      return Some("failed to save metadata: " + err.value);
    }
  }

  // ---------------------------------------------------------------------------
  // Restoring a backup.

  /** The metadata and bytes a backup holds, or why they cannot be read. */
  function ReadBackup(t: Tree, c: Config, id: string, codec: Codec): Result<(BackupMetadata, Bytes)>
  {
    var dir := BackupDir(c, id);
    match ReadFileOn(t, dir + ["metadata.json"])
    case Err(m) => Err("failed to read backup metadata: " + m)
    case Ok(text) =>
      match codec.decode(text)
      case Err(m) => Err("failed to parse backup metadata: " + m)
      case Ok(meta) =>
        match ReadFileOn(t, dir + ["content"])
        case Err(m) => Err("failed to read backup content: " + m)
        case Ok(content) => Ok((meta, content))
  }

  /** Putting the link back: a missing entry is fine, any other removal failure is not. */
  function RelinkOn(t: Tree, p: Path, target: Path): Effect
  {
    var e := RemoveOn(t, p);
    if e.err.Some? && e.err.value != ENOENT then Wrap(e, "failed to remove existing file: ")
    else Wrap(SymlinkOn(e.tree, target, p), "failed to restore symlink: ")
  }

  /** RestoreBackup: write the bytes back where they came from, then the link if there was one. */
  function RestoreOn(t: Tree, c: Config, id: string, codec: Codec): Effect
  {
    match ReadBackup(t, c, id, codec)
    case Err(m) => Effect(t, Some(m))
    case Ok((meta, content)) =>
      var p := meta.originalPath;
      var e1 := MkdirAllOn(t, Parent(p));
      if e1.err.Some? then Wrap(e1, "failed to create parent directory: ")
      else
        var e2 := WriteFileOn(e1.tree, p, content);
        if e2.err.Some? then Wrap(e2, "failed to restore file: ")
        else if meta.symlinkPath.None? then e2
        else RelinkOn(e2.tree, p, meta.symlinkPath.value)
  }

  /** A restore that succeeds leaves the recorded link, or else the backed-up bytes, at the original path. */
  lemma RestoreSpec(t: Tree, c: Config, id: string, codec: Codec)
    requires ValidTree(t)
    requires RestoreOn(t, c, id, codec).err.None?
    ensures ReadBackup(t, c, id, codec).Ok?
    ensures var (meta, content) := ReadBackup(t, c, id, codec).value;
      var t' := RestoreOn(t, c, id, codec).tree;
      && ValidTree(t')
      && (meta.symlinkPath.None? ==> ContentAt(t', meta.originalPath) == Some(content))
      && (meta.symlinkPath.Some? ==>
            meta.originalPath in t' && t'[meta.originalPath] == Symlink(meta.symlinkPath.value))
  {
    var (meta, content) := ReadBackup(t, c, id, codec).value;
    RestoreWrites(t, meta.originalPath, content, meta.symlinkPath);
  }

  /** The tail of a restore: the parents, the file's content, then the link if there was one. */
  lemma RestoreWrites(t: Tree, p: Path, content: Bytes, link: Option<Path>)
    requires ValidTree(t)
    ensures var e1 := MkdirAllOn(t, Parent(p));
      var e2 := WriteFileOn(e1.tree, p, content);
      e1.err.None? && e2.err.None? ==>
        && ValidTree(e2.tree)
        && (link.None? ==> ContentAt(e2.tree, p) == Some(content))
        && (link.Some? && RelinkOn(e2.tree, p, link.value).err.None? ==>
              var t' := RelinkOn(e2.tree, p, link.value).tree;
              ValidTree(t') && p in t' && t'[p] == Symlink(link.value))
  {
    var e1 := MkdirAllOn(t, Parent(p));
    MkdirAllSpec(t, Parent(p));
    var e2 := WriteFileOn(e1.tree, p, content);
    WriteFileSpec(e1.tree, p, content);
    if link.Some? {
      var e3 := RemoveOn(e2.tree, p);
      RemoveSpec(e2.tree, p);
      SymlinkSpec(e3.tree, link.value, p);
    }
  }


  /** A fresh backup reads back as the snapshot and the content it was made from. */
  lemma BackupReadsBack(t: Tree, c: Config, p: Path, id: string, stamp: string, codec: Codec)
    requires ValidTree(t) && RoundTrips(codec) && BackupDir(c, id) !in t
    requires BackupOn(t, c, p, id, stamp, codec).err.None?
    ensures ContentAt(t, p).Some?
    ensures var t1 := BackupOn(t, c, p, id, stamp, codec).tree;
      ReadBackup(t1, c, id, codec) == Ok((Snapshot(t, p, id, stamp), ContentAt(t, p).value))
  {
    var t1 := BackupOn(t, c, p, id, stamp, codec).tree;
    var dir := BackupDir(c, id);
    BackupSpec(t, c, p, id, stamp, codec);
    assert OwnerReadable(CreateMode);
    assert ReadFileOn(t1, dir + ["metadata.json"]) == Ok(codec.encode(Snapshot(t, p, id, stamp)));
    assert ReadFileOn(t1, dir + ["content"]) == Ok(ContentAt(t, p).value);
  }

  /** Writing a file's own content back, and relinking a link to its own target, change nothing. */
  lemma RewriteChangesNothing(t: Tree, p: Path, content: Bytes, link: Option<Path>)
    requires ValidTree(t) && p in t && p != [] && ContentAt(t, p) == Some(content)
    requires link.Some? <==> t[p].Symlink?
    requires link.Some? ==> link.value == t[p].target
    ensures MkdirAllOn(t, Parent(p)) == Effect(t, None)
    ensures WriteFileOn(t, p, content) == Effect(t, None)
    ensures link.Some? ==> RelinkOn(t, p, link.value) == Effect(t, None)
  {
    assert Parent(p) in t && t[Parent(p)] == Dir;
    var q := WriteTarget(t, p);
    assert t[q] == File(content, t[q].mode);
    assert t[q := File(content, t[q].mode)] == t;
    if link.Some? {
      var removed := map r | r in t && r != p :: t[r];
      assert RemoveOn(t, p) == Effect(removed, None);
      assert removed[p := Symlink(link.value)] == t;
    }
  }

  /**
   * Restoring a backup straight after taking it succeeds and changes nothing:
   * the file's bytes, and its link if it was one, are already what the backup holds.
   */
  lemma RestoreAfterBackup(t: Tree, c: Config, p: Path, id: string, stamp: string, codec: Codec)
    requires ValidTree(t) && RoundTrips(codec) && BackupDir(c, id) !in t
    requires BackupOn(t, c, p, id, stamp, codec).err.None?
    ensures var t1 := BackupOn(t, c, p, id, stamp, codec).tree;
      RestoreOn(t1, c, id, codec) == Effect(t1, None)
  {
    var t1 := BackupOn(t, c, p, id, stamp, codec).tree;
    BackupSpec(t, c, p, id, stamp, codec);
    BackupReadsBack(t, c, p, id, stamp, codec);
    var meta := Snapshot(t, p, id, stamp);
    assert p in t && p != [];
    assert ContentAt(t1, p) == ContentAt(t, p);
    RewriteChangesNothing(t1, p, ContentAt(t, p).value, meta.symlinkPath);
  }


  /**
   * Restoring brings a file back on any later tree that still holds the
   * backup's two files as they were written, where the original place holds
   * nothing or a regular file and only directories lie on the way down to it:
   * the restore succeeds, and the original path shows the backed-up bytes, or
   * the recorded link when the file was one.
   */
  lemma RestoreBringsBack(t: Tree, c: Config, p: Path, id: string, stamp: string, codec: Codec, later: Tree)
    requires ValidTree(t) && RoundTrips(codec) && BackupDir(c, id) !in t
    requires BackupOn(t, c, p, id, stamp, codec).err.None?
    requires ValidTree(later)
    requires var t1 := BackupOn(t, c, p, id, stamp, codec).tree; var dir := BackupDir(c, id);
      && dir + ["content"] in later && later[dir + ["content"]] == t1[dir + ["content"]]
      && dir + ["metadata.json"] in later && later[dir + ["metadata.json"]] == t1[dir + ["metadata.json"]]
    requires p !in later || later[p].File?
    requires forall k | 0 <= k < |p| :: p[..k] !in later || later[p[..k]] == Dir
    ensures p in t
    ensures RestoreOn(later, c, id, codec).err.None?
    ensures var t2 := RestoreOn(later, c, id, codec).tree;
      && ValidTree(t2)
      && (!t[p].Symlink? ==> ContentAt(t2, p) == ContentAt(t, p))
      && (t[p].Symlink? ==> p in t2 && t2[p] == Symlink(t[p].target))
  {
    var t1 := BackupOn(t, c, p, id, stamp, codec).tree;
    var dir := BackupDir(c, id);
    BackupSpec(t, c, p, id, stamp, codec);
    BackupReadsBack(t, c, p, id, stamp, codec);
    var content := ContentAt(t, p).value;
    assert ReadFileOn(later, dir + ["metadata.json"]) == ReadFileOn(t1, dir + ["metadata.json"]);
    assert ReadFileOn(later, dir + ["content"]) == ReadFileOn(t1, dir + ["content"]);
    assert ReadBackup(later, c, id, codec) == Ok((Snapshot(t, p, id, stamp), content));
    var link := Snapshot(t, p, id, stamp).symlinkPath;
    RestoreTailSucceeds(later, p, content, link);
    RestoreWrites(later, p, content, link);
  }

  /**
   * The tail of a restore succeeds where `p` holds nothing or a regular file
   * and only directories lie on the way down to it.
   */
  lemma RestoreTailSucceeds(t: Tree, p: Path, content: Bytes, link: Option<Path>)
    requires ValidTree(t) && p != []
    requires p !in t || t[p].File?
    requires forall k | 0 <= k < |p| :: p[..k] !in t || t[p[..k]] == Dir
    ensures var e1 := MkdirAllOn(t, Parent(p));
      var e2 := WriteFileOn(e1.tree, p, content);
      && e1.err.None? && e2.err.None?
      && (link.Some? ==> RelinkOn(e2.tree, p, link.value).err.None?)
  {
    var up := Parent(p);
    assert up == p[..|p| - 1];
    forall k | 0 <= k <= |up|
      ensures up[..k] !in t || t[up[..k]] == Dir
    {
      assert up[..k] == p[..k];
    }
    MkdirAllSucceeds(t, up);
    MkdirAllSpec(t, up);
    var e1 := MkdirAllOn(t, up);
    assert up in e1.tree && e1.tree[up] == Dir;
    assert p in e1.tree <==> p in t;
    var e2 := WriteFileOn(e1.tree, p, content);
    WriteFileSpec(e1.tree, p, content);
    if link.Some? {
      RemoveSpec(e2.tree, p);
      var e3 := RemoveOn(e2.tree, p);
      SymlinkSpec(e3.tree, link.value, p);
    }
  }

  /** Restores the backup named `id`. */
  method RestoreBackup(c: Config, fs: Disk, id: string, codec: Codec) returns (err: Option<string>)
    modifies fs
    ensures Effect(fs.tree, err) == RestoreOn(old(fs.tree), c, id, codec)
  {
    var dir := BackupDir(c, id);
    var text := ReadFileOn(fs.tree, dir + ["metadata.json"]);
    if text.Err? {
      return Some("failed to read backup metadata: " + text.msg);
    }
    var meta := codec.decode(text.value);
    if meta.Err? {
      return Some("failed to parse backup metadata: " + meta.msg);
    }
    var content := ReadFileOn(fs.tree, dir + ["content"]);
    if content.Err? {
      return Some("failed to read backup content: " + content.msg);
    }
    var p := meta.value.originalPath;
    err := fs.MkdirAll(Parent(p));
    if err.Some? {
      return Some("failed to create parent directory: " + err.value);
    }
    err := fs.WriteFile(p, content.value);
    if err.Some? {
      return Some("failed to restore file: " + err.value);
    }
    if meta.value.symlinkPath.Some? {
      err := fs.Remove(p);
      if err.Some? && err.value != ENOENT {
        return Some("failed to remove existing file: " + err.value);
      }
      err := fs.Symlink(meta.value.symlinkPath.value, p);
      if err.Some? {
        return Some("failed to restore symlink: " + err.value);
      }
    }
  }

  // ---------------------------------------------------------------------------
  // Listing backups.

  /** The metadata of entry `name` of directory `dir`: a directory whose metadata reads and parses. */
  function EntryMetadata(t: Tree, dir: Path, name: Path, codec: Codec): Option<BackupMetadata>
  {
    var d := dir + name;
    if d !in t || t[d] != Dir then None
    else
      match ReadFileOn(t, d + ["metadata.json"])
      case Err(_) => None
      case Ok(text) =>
        match codec.decode(text)
        case Err(_) => None
        case Ok(m) => Some(m)
  }

  /** The metadata of the entries `names`, in order, skipping those without any. */
  function CollectMetadata(t: Tree, dir: Path, names: seq<Path>, codec: Codec): seq<BackupMetadata>
  {
    if names == [] then []
    else
      var rest := CollectMetadata(t, dir, names[1..], codec);
      match EntryMetadata(t, dir, names[0], codec)
      case None => rest
      case Some(m) => [m] + rest
  }

  /** A record is listed exactly when some entry carries it. */
  lemma {:induction false} CollectMetadataMember(t: Tree, dir: Path, names: seq<Path>, codec: Codec, m: BackupMetadata)
    ensures m in CollectMetadata(t, dir, names, codec) <==>
      exists i | 0 <= i < |names| :: EntryMetadata(t, dir, names[i], codec) == Some(m)
  {
    if names != [] {
      CollectMetadataMember(t, dir, names[1..], codec, m);
      if exists i | 0 <= i < |names| :: EntryMetadata(t, dir, names[i], codec) == Some(m) {
        var i :| 0 <= i < |names| && EntryMetadata(t, dir, names[i], codec) == Some(m);
        if i > 0 {
          assert names[1..][i - 1] == names[i];
        }
      }
      if exists i | 0 <= i < |names[1..]| :: EntryMetadata(t, dir, names[1..][i], codec) == Some(m) {
        var i :| 0 <= i < |names[1..]| && EntryMetadata(t, dir, names[1..][i], codec) == Some(m);
        assert names[i + 1] == names[1..][i];
      }
    }
  }

  /** ListBackups: no backups directory means no backups; entries are read in name order. */
  ghost function ListOn(t: Tree, c: Config, codec: Codec): Result<seq<BackupMetadata>>
  {
    if StatNotExist(t, BackupsDir(c)) then Ok([])
    else
      match ReadDirOn(t, BackupsDir(c))
      case Err(m) => Err("failed to read backups directory: " + m)
      case Ok(names) => Ok(CollectMetadata(t, Resolve(t, BackupsDir(c)).value, SortedEnum(names), codec))
  }

  /** Lists the backups whose metadata can be read, skipping the rest. */
  method ListBackups(c: Config, t: Tree, codec: Codec) returns (r: Result<seq<BackupMetadata>>)
    ensures r == ListOn(t, c, codec)
  {
    var dir := BackupsDir(c);
    if StatNotExist(t, dir) {
      return Ok([]);
    }
    var entries := ReadDirOn(t, dir);
    if entries.Err? {
      return Err("failed to read backups directory: " + entries.msg);
    }
    var names := Enumerate(entries.value);
    var at := Resolve(t, dir).value;
    assert ListOn(t, c, codec) == Ok(CollectMetadata(t, at, names, codec));
    var backups := [];
    var i := 0;
    while i < |names|
      invariant 0 <= i <= |names|
      invariant backups + CollectMetadata(t, at, names[i..], codec) == CollectMetadata(t, at, names, codec)
    {
      assert names[i..][1..] == names[i + 1..];
      var d := at + names[i];
      if d in t && t[d] == Dir {
        var text := ReadFileOn(t, d + ["metadata.json"]);
        if text.Ok? {
          var meta := codec.decode(text.value);
          if meta.Ok? {
            backups := backups + [meta.value];
          }
        }
      }
      i := i + 1;
    }
    assert names[i..] == [];
    assert CollectMetadata(t, at, names[i..], codec) == [];
    assert backups == CollectMetadata(t, at, names, codec);
    return Ok(backups);
  }

  /** A backups path that is a regular file is not "missing": listing fails instead of finding none. */
  lemma ListOnFile(t: Tree, c: Config, codec: Codec)
    requires BackupsDir(c) in t && t[BackupsDir(c)].File?
    ensures ListOn(t, c, codec) == Err("failed to read backups directory: " + ENOTDIR)
  {
  }

  /** A backup just taken into a fresh directory is among those listed. */
  lemma ListedAfterBackup(t: Tree, c: Config, p: Path, id: string, stamp: string, codec: Codec)
    requires ValidTree(t) && RoundTrips(codec) && BackupDir(c, id) !in t
    requires BackupOn(t, c, p, id, stamp, codec).err.None?
    ensures var t1 := BackupOn(t, c, p, id, stamp, codec).tree;
      && ListOn(t1, c, codec).Ok?
      && Snapshot(t, p, id, stamp) in ListOn(t1, c, codec).value
  {
    var t1 := BackupOn(t, c, p, id, stamp, codec).tree;
    var dir := BackupDir(c, id);
    BackupSpec(t, c, p, id, stamp, codec);
    assert Parent(dir) == BackupsDir(c);
    assert BackupsDir(c) in t1 && t1[BackupsDir(c)] == Dir;
    ChildListed(t1, dir);
    var names := Children(t1, BackupsDir(c));
    assert ReadDirOn(t1, BackupsDir(c)) == Ok(names);
    SortedEnumSpec(names);
    var sorted := SortedEnum(names);
    assert [id] in sorted;
    var i :| 0 <= i < |sorted| && sorted[i] == [id];
    assert OwnerReadable(CreateMode);
    assert EntryMetadata(t1, BackupsDir(c), sorted[i], codec) == Some(Snapshot(t, p, id, stamp));
    CollectMetadataMember(t1, BackupsDir(c), sorted, codec, Snapshot(t, p, id, stamp));
  }
}
