/**
 * Absolute paths as sequences of names (`filepath.Join` is concatenation, the
 * root "/" is the empty sequence), and the lexical order in which `filepath.Walk`
 * and `os.ReadDir` hand out names.
 */
module Paths {
  import Text

  type Path = seq<string>

  /** `filepath.Dir` of a clean absolute path; the root is its own parent. */
  function Parent(p: Path): (d: Path)
    ensures d <= p
    ensures p != [] ==> |d| == |p| - 1 && d < p
  {
    if p == [] then [] else p[..|p| - 1]
  }

  /** `p` lies at or below `root`. */
  predicate Under(p: Path, root: Path)
  {
    root <= p
  }

  /** Two paths on the way down to the same path lie one below the other. */
  lemma PrefixesComparable(a: Path, b: Path, q: Path)
    requires a <= q && b <= q
    ensures a <= b || b <= a
  {
    if |a| <= |b| {
      assert a == q[..|a|] == b[..|a|];
    } else {
      assert b == q[..|b|] == a[..|b|];
    }
  }

  /** Joining onto a common base keeps prefixes and only them. */
  lemma JoinPrefix(base: Path, x: Path, y: Path)
    ensures base + x <= base + y <==> x <= y
  {
    if base + x <= base + y {
      assert x == (base + x)[|base|..] == (base + y)[|base|..|base| + |x|] == y[..|x|];
    }
    if x <= y {
      assert base + y == (base + x) + y[|x|..];
    }
  }

  /** A path as the operating system prints it. */
  function AbsString(p: Path): string
  {
    "/" + Text.Join(p, "/")
  }

  /** A relative path as `filepath.Rel` prints it: "." for the empty one. */
  function RelString(p: Path): string
  {
    if p == [] then "." else Text.Join(p, "/")
  }

  /** Each of `ps` as `filepath.Rel` prints it, in order. */
  function RelStrings(ps: seq<Path>): (r: seq<string>)
    ensures |r| == |ps|
  {
    seq(|ps|, i requires 0 <= i < |ps| => RelString(ps[i]))
  }

  // ---------------------------------------------------------------------------
  // Lexical order. `sort.Strings` compares names byte by byte; UTF-8 byte order
  // agrees with the order of code points, so characters are compared directly.
  // A walk visits a directory's entries in this order, depth first, which is
  // the lexicographic order of whole paths compared name by name.

  predicate NameLess(a: string, b: string)
    decreases |a|
  {
    |b| > 0 && (|a| == 0 || a[0] < b[0] || (a[0] == b[0] && NameLess(a[1..], b[1..])))
  }

  predicate PathLess(p: Path, q: Path)
    decreases |p|
  {
    |q| > 0 && (|p| == 0 || NameLess(p[0], q[0]) || (p[0] == q[0] && PathLess(p[1..], q[1..])))
  }

  lemma {:induction false} NameLessIrreflexive(a: string)
    ensures !NameLess(a, a)
  {
    if |a| > 0 {
      NameLessIrreflexive(a[1..]);
    }
  }

  lemma {:induction false} NameLessTransitive(a: string, b: string, c: string)
    requires NameLess(a, b) && NameLess(b, c)
    ensures NameLess(a, c)
  {
    if |a| > 0 && a[0] == b[0] && b[0] == c[0] {
      NameLessTransitive(a[1..], b[1..], c[1..]);
    }
  }

  lemma {:induction false} NameLessTotal(a: string, b: string)
    ensures a == b || NameLess(a, b) || NameLess(b, a)
  {
    if |a| > 0 && |b| > 0 && a[0] == b[0] {
      NameLessTotal(a[1..], b[1..]);
      if a[1..] == b[1..] {
        assert a == [a[0]] + a[1..] && b == [b[0]] + b[1..];
      }
    }
  }

  lemma {:induction false} PathLessIrreflexive(p: Path)
    ensures !PathLess(p, p)
  {
    if |p| > 0 {
      NameLessIrreflexive(p[0]);
      PathLessIrreflexive(p[1..]);
    }
  }

  lemma {:induction false} PathLessTransitive(p: Path, q: Path, r: Path)
    requires PathLess(p, q) && PathLess(q, r)
    ensures PathLess(p, r)
  {
    if |p| > 0 {
      if NameLess(p[0], q[0]) && NameLess(q[0], r[0]) {
        NameLessTransitive(p[0], q[0], r[0]);
      } else if p[0] == q[0] && q[0] == r[0] {
        PathLessTransitive(p[1..], q[1..], r[1..]);
      }
    }
  }

  lemma {:induction false} PathLessTotal(p: Path, q: Path)
    ensures p == q || PathLess(p, q) || PathLess(q, p)
  {
    if |p| > 0 && |q| > 0 {
      NameLessTotal(p[0], q[0]);
      if p[0] == q[0] {
        PathLessTotal(p[1..], q[1..]);
        if p[1..] == q[1..] {
          assert p == [p[0]] + p[1..] && q == [q[0]] + q[1..];
        }
      }
    }
  }

  lemma PathLessAsymmetric(p: Path, q: Path)
    requires PathLess(p, q)
    ensures !PathLess(q, p)
  {
    if PathLess(q, p) {
      PathLessTransitive(p, q, p);
      PathLessIrreflexive(p);
    }
  }

  /** A directory is visited before anything below it. */
  lemma {:induction false} PrefixComesFirst(p: Path, q: Path)
    requires p < q
    ensures PathLess(p, q)
  {
    if |p| > 0 {
      assert q[0] == p[0];
      PrefixComesFirst(p[1..], q[1..]);
    }
  }

  // ---------------------------------------------------------------------------
  // Sorted enumeration of a finite set of paths.

  predicate Sorted(ps: seq<Path>)
  {
    forall i, j | 0 <= i < j < |ps| :: PathLess(ps[i], ps[j])
  }

  predicate IsMin(m: Path, s: set<Path>)
  {
    m in s && forall q | q in s && q != m :: PathLess(m, q)
  }

  lemma MinExists(s: set<Path>)
    requires s != {}
    ensures exists m :: IsMin(m, s)
    decreases |s|
  {
    var x :| x in s;
    var rest := s - {x};
    if rest == {} {
      assert s == {x};
      assert IsMin(x, s);
    } else {
      MinExists(rest);
      var m :| IsMin(m, rest);
      PathLessTotal(x, m);
      if PathLess(x, m) {
        forall q | q in s && q != x
          ensures PathLess(x, q)
        {
          if q != m {
            PathLessTransitive(x, m, q);
          }
        }
        assert IsMin(x, s);
      } else {
        assert IsMin(m, s);
      }
    }
  }

  lemma MinUnique(a: Path, b: Path, s: set<Path>)
    requires IsMin(a, s) && IsMin(b, s)
    ensures a == b
  {
    if a != b {
      PathLessAsymmetric(a, b);
    }
  }

  /** The paths of `s` in walk order. */
  ghost function SortedEnum(s: set<Path>): seq<Path>
    decreases |s|
  {
    if s == {} then []
    else
      MinExists(s);
      var m :| IsMin(m, s);
      [m] + SortedEnum(s - {m})
  }

  lemma SortedEnumUnfold(s: set<Path>, m: Path)
    requires IsMin(m, s)
    ensures SortedEnum(s) == [m] + SortedEnum(s - {m})
  {
    var e := SortedEnum(s);
    MinUnique(e[0], m, s);
  }

  /** The walk order lists every path of the set once, in increasing order. */
  lemma {:induction false} SortedEnumSpec(s: set<Path>)
    ensures Sorted(SortedEnum(s))
    ensures |SortedEnum(s)| == |s|
    ensures forall p :: p in SortedEnum(s) <==> p in s
    decreases |s|
  {
    if s != {} {
      MinExists(s);
      var m :| IsMin(m, s);
      SortedEnumUnfold(s, m);
      SortedEnumSpec(s - {m});
      var e := SortedEnum(s);
      assert e[1..] == SortedEnum(s - {m});
      forall i, j | 0 <= i < j < |e|
        ensures PathLess(e[i], e[j])
      {
        if i == 0 {
          assert e[j] in s - {m};
        } else {
          assert e[i] == e[1..][i - 1] && e[j] == e[1..][j - 1];
        }
      }
    }
  }

  lemma SortedDistinct(ps: seq<Path>, i: int, j: int)
    requires Sorted(ps) && 0 <= i < |ps| && 0 <= j < |ps| && i != j
    ensures ps[i] != ps[j]
  {
    if i < j {
      PathLessIrreflexive(ps[i]);
    } else {
      PathLessIrreflexive(ps[j]);
    }
  }

  /** Lists a finite set of paths in walk order, smallest first. */
  method Enumerate(s: set<Path>) returns (ps: seq<Path>)
    ensures ps == SortedEnum(s)
  {
    ps := [];
    var pending := s;
    while pending != {}
      invariant ps + SortedEnum(pending) == SortedEnum(s)
      decreases |pending|
    {
      MinExists(pending);
      var m :| m in pending && IsMin(m, pending);
      SortedEnumUnfold(pending, m);
      ps := ps + [m];
      pending := pending - {m};
    }
  }
}
