/**
 * `filepath.Walk` over a directory, as the tool uses it: every callback skips
 * directories and turns the visited path into one relative to the walk's root.
 */
module Walk {
  import opened Wrappers
  import Text
  import opened Paths
  import opened FileSystem

  /** The non-directories below `root` (or `root` itself when it is not a directory), relative to `root`. */
  function Tracked(t: Tree, root: Path): set<Path>
  {
    set p | p in t && root <= p && t[p] != Dir :: p[|root|..]
  }

  lemma TrackedMember(t: Tree, root: Path, rel: Path)
    ensures rel in Tracked(t, root) <==> root + rel in t && t[root + rel] != Dir
  {
    if root + rel in t && t[root + rel] != Dir {
      assert (root + rel)[|root|..] == rel;
    }
    if rel in Tracked(t, root) {
      var p :| p in t && root <= p && t[p] != Dir && p[|root|..] == rel;
      assert p == root + rel;
    }
  }

  /** Only what lies at or below `root` decides what is tracked there. */
  lemma TrackedFrame(t: Tree, t': Tree, root: Path)
    requires forall q | root <= q :: (q in t <==> q in t') && (q in t ==> t[q] == t'[q])
    ensures Tracked(t, root) == Tracked(t', root)
  {
    forall rel
      ensures rel in Tracked(t, root) <==> rel in Tracked(t', root)
    {
      TrackedMember(t, root, rel);
      TrackedMember(t', root, rel);
      assert root <= root + rel;
    }
  }

  /** Neither of two tracked files lies below the other: only directories have contents. */
  lemma TrackedAntichain(t: Tree, root: Path, a: Path, b: Path)
    requires ValidTree(t) && a in Tracked(t, root) && b in Tracked(t, root) && a != b
    ensures !(a <= b)
  {
    TrackedMember(t, root, a);
    TrackedMember(t, root, b);
    if a <= b {
      assert root + a < root + b;
      NothingBelowLeaf(t, root + a, root + b);
    }
  }

  /**
   * Walks `root`, collecting each non-directory's path relative to `root` in
   * visiting order. The walk fails when the first `Lstat` of `root` does:
   * "no such file" when only directories lie on the way down, else "not a
   * directory".
   */
  method WalkFiles(t: Tree, root: Path) returns (files: seq<Path>, err: Option<string>)
    ensures err.Some? <==> root !in t
    ensures err.Some? ==> files == [] && err.value == LstatError(t, root)
    ensures err.Some? ==> (err.value == ENOENT <==> LstatNotExist(t, root))
    ensures err.None? ==> files == SortedEnum(Tracked(t, root))
  {
    if root !in t {
      return [], Some(LstatError(t, root));
    }
    files := Enumerate(Tracked(t, root));
    err := None;
  }

  /** The elements of `xs` that `keep` accepts, in order. */
  function Filter(xs: seq<Path>, keep: Path -> bool): seq<Path>
  {
    if xs == [] then []
    else (if keep(xs[0]) then [xs[0]] else []) + Filter(xs[1..], keep)
  }

  lemma {:induction false} FilterMember(xs: seq<Path>, keep: Path -> bool, x: Path)
    ensures x in Filter(xs, keep) <==> x in xs && keep(x)
  {
    if xs != [] {
      FilterMember(xs[1..], keep, x);
      assert xs == [xs[0]] + xs[1..];
    }
  }

  lemma {:induction false} FilterEmpty(xs: seq<Path>, keep: Path -> bool)
    ensures Filter(xs, keep) == [] <==> forall i | 0 <= i < |xs| :: !keep(xs[i])
  {
    if xs != [] {
      FilterEmpty(xs[1..], keep);
      assert forall i | 1 <= i < |xs| :: xs[i] == xs[1..][i - 1];
    }
  }

  /** The walk callbacks' `append` into a slice, for the files `keep` flags. */
  method Collect(xs: seq<Path>, keep: Path -> bool) returns (flagged: seq<Path>)
    ensures flagged == Filter(xs, keep)
  {
    flagged := [];
    var i := 0;
    while i < |xs|
      invariant 0 <= i <= |xs|
      invariant flagged + Filter(xs[i..], keep) == Filter(xs, keep)
    {
      assert xs[i..][1..] == xs[i + 1..];
      if keep(xs[i]) {
        assert (flagged + [xs[i]]) + Filter(xs[i + 1..], keep) == flagged + ([xs[i]] + Filter(xs[i + 1..], keep));
        flagged := flagged + [xs[i]];
      }
      i := i + 1;
    }
  }
}
