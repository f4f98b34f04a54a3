/** The project directory as the archive manager sees it: regular files keyed by
    their path relative to the project root. A directory exists when a file lies
    below it; the root always exists. */
module Tree {
  import opened Paths
  import opened Outcome

  type byte = bv8

  /** A regular file: its bytes and its modification time in whole seconds. */
  datatype FileEntry = FileEntry(data: seq<byte>, mtime: int)

  type FileTree = map<Path, FileEntry>

  /** `p` is `dir` itself or lies below it. */
  predicate Under(dir: Path, p: Path) {
    |dir| <= |p| && p[..|dir|] == dir
  }

  /** `Path.is_dir()`. */
  predicate IsDir(t: FileTree, p: Path) {
    p == [] || exists q :: q in t && |p| < |q| && q[..|p|] == p
  }

  /** `Path.exists()`. */
  predicate Exists(t: FileTree, p: Path) {
    p in t || IsDir(t, p)
  }

  /** Every file has a resolved path below the root, and no file sits where a
      directory is needed: no file lies below another. */
  predicate WellFormed(t: FileTree) {
    && (forall p :: p in t ==> p != [] && Canonical(p))
    && (forall q, k :: q in t && 0 <= k < |q| ==> q[..k] !in t)
  }

  /** Some directory above `p` is a regular file, so `mkdir(parents=True)` for the
      parent of `p` fails. */
  predicate BlockedByFile(t: FileTree, p: Path) {
    exists k :: 0 <= k < |p| && p[..k] in t
  }

  /** `b` agrees with `a` on every path outside `except`: the same files, with the same
      contents. */
  ghost predicate SameOutside(a: FileTree, b: FileTree, except: set<Path>) {
    forall q :: q !in except ==> (q in b <==> q in a) && (q in a ==> b[q] == a[q])
  }

  /** Changes outside two sets of paths add up to changes outside their union. */
  lemma SameOutsideThen(a: FileTree, b: FileTree, c: FileTree, x: set<Path>, y: set<Path>)
    requires SameOutside(a, b, x) && SameOutside(b, c, y)
    ensures SameOutside(a, c, x + y)
  {
  }

  /** `remove_existing_path`: unlinks a file, removes a directory with everything
      below it, and does nothing when `p` does not exist. */
  function RemoveTree(t: FileTree, p: Path): (r: FileTree)
    ensures forall q :: q in r <==> q in t && !Under(p, q)
    ensures forall q :: q in r ==> r[q] == t[q]
  {
    map q | q in t && !Under(p, q) :: t[q]
  }

  /** The names of the entries directly inside directory `dir` (`iterdir`). */
  function Children(t: FileTree, dir: Path): (r: set<string>)
    ensures forall name :: name in r <==> Exists(t, dir + [name]) && dir + [name] != []
  {
    var names := set q | q in t && |dir| < |q| && q[..|dir|] == dir :: q[|dir|];
    assert forall name :: name in names <==> Exists(t, dir + [name]) by {
      forall name
        ensures name in names <==> Exists(t, dir + [name])
      {
        var d := dir + [name];
        if name in names {
          var q :| q in t && |dir| < |q| && q[..|dir|] == dir && q[|dir|] == name;
          assert q[..|d|] == d;
          assert q == d || (|d| < |q| && q[..|d|] == d);
        }
        if Exists(t, d) {
          if d in t {
            assert d[..|dir|] == dir;
          } else {
            var q :| q in t && |d| < |q| && q[..|d|] == d;
            assert q[..|dir|] == dir;
          }
        }
      }
    }
    names
  }

  /** Removing a tree keeps the tree well formed. */
  lemma RemoveTreeWellFormed(t: FileTree, p: Path)
    requires WellFormed(t)
    ensures WellFormed(RemoveTree(t, p))
  {
  }

  /** After `remove_existing_path(p)`, `p` no longer exists. */
  lemma RemoveTreeGone(t: FileTree, p: Path)
    requires p != []
    ensures !Exists(RemoveTree(t, p), p)
  {
    var r := RemoveTree(t, p);
    assert p !in r;
    forall q | q in r
      ensures !(|p| < |q| && q[..|p|] == p)
    {
      assert !Under(p, q);
    }
  }

  /** Writing a file whose directories above are free of files, and which is not
      itself a directory, keeps the tree well formed. */
  lemma WriteWellFormed(t: FileTree, p: Path, e: FileEntry)
    requires WellFormed(t) && p != [] && Canonical(p)
    requires !BlockedByFile(t, p) && !IsDir(t, p)
    ensures WellFormed(t[p := e])
  {
    var r := t[p := e];
    forall a, b | a in r && b in r && |a| < |b|
      ensures b[..|a|] != a
    {
      if a == p {
        assert b in t;
      } else if b == p {
        assert a in t;
        assert p[..|a|] != a;
      }
    }
  }
}
