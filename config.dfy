/**
 * Where the tool keeps its data: the home directory, `.dotman` inside it and
 * the store `.dotman/configs` inside that.
 */
module Config {
  import opened Wrappers
  import opened Paths
  import opened FileSystem

  datatype Config = Config(HomeDir: Path, DotmanDir: Path, ConfigsDir: Path)

  /** The layout every other component relies on. */
  predicate Nested(c: Config)
  {
    c.DotmanDir == c.HomeDir + [".dotman"] && c.ConfigsDir == c.DotmanDir + ["configs"]
  }

  /**
   * Derives the layout from the home directory, given as the outcome of the
   * lookup the runtime performs.
   */
  function NewWithoutDirectories(home: Result<Path>): (r: Result<Config>)
    ensures r.Ok? <==> home.Ok?
    ensures r.Err? ==> r.msg == "error getting home directory: " + home.msg
    ensures r.Ok? ==> r.value.HomeDir == home.value && Nested(r.value)
    ensures r.Ok? ==> r.value.HomeDir < r.value.DotmanDir < r.value.ConfigsDir
  {
    match home
    case Err(msg) => Err("error getting home directory: " + msg)
    case Ok(h) => Ok(Config(h, h + [".dotman"], h + [".dotman"] + ["configs"]))
  }

  function Required(c: Config): seq<Path>
  {
    [c.DotmanDir, c.ConfigsDir]
  }

  /** MkdirAll on each directory in turn, stopping at the first failure. */
  function EnsureOn(t: Tree, dirs: seq<Path>): Effect
    decreases |dirs|
  {
    if dirs == [] then Effect(t, None)
    else
      var e := MkdirAllOn(t, dirs[0]);
      if e.err.Some? then e else EnsureOn(e.tree, dirs[1..])
  }

  /** After success every listed directory exists; nothing that existed is changed. */
  lemma {:induction false} EnsureMakesDirs(t: Tree, dirs: seq<Path>)
    requires ValidTree(t)
    ensures var e := EnsureOn(t, dirs);
      && ValidTree(e.tree)
      && (forall q | q in t :: q in e.tree && e.tree[q] == t[q])
      && (e.err.None? ==> forall i | 0 <= i < |dirs| :: IsDirectory(e.tree, dirs[i]))
    decreases |dirs|
  {
    if dirs != [] {
      var e := MkdirAllOn(t, dirs[0]);
      MkdirAllSpec(t, dirs[0]);
      if e.err.None? {
        EnsureMakesDirs(e.tree, dirs[1..]);
        var r := EnsureOn(e.tree, dirs[1..]);
        forall i | 0 <= i < |dirs|
          ensures r.err.None? ==> IsDirectory(r.tree, dirs[i])
        {
          if r.err.None? {
            if i == 0 {
              KeptEntriesKeepDirectories(e.tree, r.tree, dirs[0]);
            } else {
              assert dirs[i] == dirs[1..][i - 1];
            }
          }
        }
      }
    }
  }

  /** A directory stays a directory while every existing entry is kept. */
  lemma KeptEntriesKeepDirectories(t: Tree, t': Tree, p: Path)
    requires IsDirectory(t, p)
    requires forall q | q in t :: q in t' && t'[q] == t[q]
    ensures IsDirectory(t', p)
  {
  }

  /** Once the directories are there, ensuring them again changes nothing and succeeds. */
  lemma {:induction false} EnsureIdempotent(t: Tree, dirs: seq<Path>)
    requires forall i | 0 <= i < |dirs| :: IsDirectory(t, dirs[i])
    ensures EnsureOn(t, dirs) == Effect(t, None)
    decreases |dirs|
  {
    if dirs != [] {
      assert IsDirectory(t, dirs[0]);
      assert forall i | 0 <= i < |dirs[1..]| :: dirs[1..][i] == dirs[i + 1];
      EnsureIdempotent(t, dirs[1..]);
    }
  }

  /**
   * A failure is the first directory's failure: the ones before it were
   * made, it left the tree as it was, and none after it was tried.
   */
  lemma {:induction false} EnsureStopsAtFirstFailure(t: Tree, dirs: seq<Path>)
    requires ValidTree(t)
    requires EnsureOn(t, dirs).err.Some?
    ensures exists k | 0 <= k < |dirs| ::
      && EnsureOn(t, dirs[..k]).err.None?
      && MkdirAllOn(EnsureOn(t, dirs[..k]).tree, dirs[k]).err.Some?
      && EnsureOn(t, dirs) == Effect(EnsureOn(t, dirs[..k]).tree, MkdirAllOn(EnsureOn(t, dirs[..k]).tree, dirs[k]).err)
    decreases |dirs|
  {
    var e := MkdirAllOn(t, dirs[0]);
    MkdirAllSpec(t, dirs[0]);
    assert dirs[..0] == [];
    if e.err.Some? {
      assert EnsureOn(t, dirs[..0]) == Effect(t, None);
    } else {
      EnsureStopsAtFirstFailure(e.tree, dirs[1..]);
      var k :| 0 <= k < |dirs[1..]|
        && EnsureOn(e.tree, dirs[1..][..k]).err.None?
        && MkdirAllOn(EnsureOn(e.tree, dirs[1..][..k]).tree, dirs[1..][k]).err.Some?
        && EnsureOn(e.tree, dirs[1..]) == Effect(EnsureOn(e.tree, dirs[1..][..k]).tree, MkdirAllOn(EnsureOn(e.tree, dirs[1..][..k]).tree, dirs[1..][k]).err);
      assert dirs[..k + 1][0] == dirs[0];
      assert dirs[..k + 1][1..] == dirs[1..][..k];
      assert EnsureOn(t, dirs[..k + 1]) == EnsureOn(e.tree, dirs[1..][..k]);
      assert dirs[k + 1] == dirs[1..][k];
    }
  }

  /** Creates the tool's directories, stopping at the first that cannot be made. */
  method EnsureDirectories(c: Config, fs: Disk) returns (err: Option<string>)
    modifies fs
    ensures Effect(fs.tree, err) == EnsureOn(old(fs.tree), Required(c))
  {
    var dirs := Required(c);
    var i := 0;
    while i < |dirs|
      invariant 0 <= i <= |dirs|
      invariant EnsureOn(fs.tree, dirs[i..]) == EnsureOn(old(fs.tree), dirs)
    {
      assert dirs[i..][1..] == dirs[i + 1..];
      err := fs.MkdirAll(dirs[i]);
      if err.Some? {
        return;
      }
      i := i + 1;
    }
    err := None;
  }

  /** The layout, with its directories created; on any failure no layout is returned. */
  method New(home: Result<Path>, fs: Disk) returns (r: Result<Config>)
    modifies fs
    ensures home.Err? ==> r == Err("error getting home directory: " + home.msg) && fs.tree == old(fs.tree)
    ensures home.Ok? ==>
      var e := EnsureOn(old(fs.tree), Required(NewWithoutDirectories(home).value));
      && fs.tree == e.tree
      && (r.Ok? <==> e.err.None?)
      && (r.Ok? ==> r == NewWithoutDirectories(home))
      && (r.Err? ==> r.msg == e.err.value)
    ensures ValidTree(old(fs.tree)) && r.Ok? ==>
      IsDirectory(fs.tree, r.value.DotmanDir) && IsDirectory(fs.tree, r.value.ConfigsDir)
  {
    var c := NewWithoutDirectories(home);
    if c.Err? {
      return Err(c.msg);
    }
    ghost var t := fs.tree;
    var err := EnsureDirectories(c.value, fs);
    if err.Some? {
      return Err(err.value);
    }
    if ValidTree(t) {
      EnsureMakesDirs(t, Required(c.value));
      assert Required(c.value)[1] == c.value.ConfigsDir;
    }
    r := c;
  }
}
