/** Relative paths as the archive manager writes them into manifests (`as_posix()`)
    and reads them back (`Path(relative)`), on POSIX path semantics. */
module Paths {
  import opened Text
  import opened Outcome

  /** A path relative to the project root, as its sequence of parts. */
  type Path = seq<string>

  predicate IsSlash(c: char) {
    c == '/'
  }

  /** A part that names an entry inside its directory: not empty, no separator,
      and neither the directory itself nor its parent. */
  predicate IsSegment(s: string) {
    s != [] && NoneOf(s, IsSlash) && s != "." && s != ".."
  }

  /** A path that stays inside the directory it is taken from. */
  predicate Canonical(p: Path) {
    forall i :: 0 <= i < |p| ==> IsSegment(p[i])
  }

  /** Drops the empty and `.` pieces, as `PurePosixPath` does when it parses. */
  function DropEmptyAndDot(pieces: seq<string>): (r: Path)
    requires forall k :: 0 <= k < |pieces| ==> NoneOf(pieces[k], IsSlash)
    ensures forall i :: 0 <= i < |r| ==> r[i] != [] && r[i] != "." && NoneOf(r[i], IsSlash)
    ensures forall i :: 0 <= i < |r| ==> r[i] in pieces
    ensures forall x :: x in pieces && x != [] && x != "." ==> x in r
  {
    if pieces == [] then []
    else
      var rest := DropEmptyAndDot(pieces[1..]);
      assert forall x :: x in pieces[1..] ==> x in pieces;
      if pieces[0] == [] || pieces[0] == "." then rest else [pieces[0]] + rest
  }

  /** `PurePosixPath(s).parts` for an `s` that does not start with `/`. */
  function Parts(s: string): (r: Path)
    ensures forall i :: 0 <= i < |r| ==> r[i] != [] && r[i] != "." && NoneOf(r[i], IsSlash)
  {
    DropEmptyAndDot(SplitRuns(s, IsSlash))
  }

  /** `PurePath.as_posix()` of a relative path. */
  function AsPosix(p: Path): string {
    JoinWith(p, "/")
  }

  /** `safe_relative_path` exactly as the source writes it: it refuses an absolute
      path and a path with a `..` part, and lets every other string through,
      including the empty string and `.`, whose parts are empty: both name the
      directory the path is joined to, not an entry inside it. */
  function SafeRelativePathAsWritten(relative: string): (r: Result<Path>)
    ensures StartsWith(relative, "/") ==> r == Err(PathTraversal)
    ensures r.Ok? ==> Canonical(r.value)
    ensures r.Err? ==> r.error == PathTraversal
  {
    if StartsWith(relative, "/") then Err(PathTraversal)
    else
      var parts := Parts(relative);
      if ".." in parts then Err(PathTraversal) else Ok(parts)
  }

  /** The empty path, and `.`, pass the as-written check and name the root itself. */
  lemma AsWrittenAcceptsRoot()
    ensures SafeRelativePathAsWritten("") == Ok([])
    ensures SafeRelativePathAsWritten(".") == Ok([])
  {
    assert SplitRuns("", IsSlash) == [""];
    assert DropEmptyAndDot([""]) == [];
    assert PrefixWithout(".", IsSlash) == ".";
    assert SplitRuns(".", IsSlash) == ["."];
    assert DropEmptyAndDot(["."]) == [];
  }

  /** `safe_relative_path` as its error message intends it: the path must name an
      entry strictly inside the directory it is joined to. */
  function SafeRelativePath(relative: string): (r: Result<Path>)
    ensures r.Ok? ==> Canonical(r.value) && r.value != []
    ensures r.Err? ==> r.error == PathTraversal
    ensures StartsWith(relative, "/") ==> r.Err?
    ensures !StartsWith(relative, "/") ==> (r.Ok? <==> ".." !in Parts(relative) && Parts(relative) != [])
    ensures r.Ok? ==> SafeRelativePathAsWritten(relative) == r
  {
    match SafeRelativePathAsWritten(relative)
    case Err(e) => Err(e)
    case Ok(p) => if p == [] then Err(PathTraversal) else Ok(p)
  }

  /** The corrected check refuses the empty path and `.`, which name the root itself. */
  lemma SafeRelativePathRefusesRoot()
    ensures SafeRelativePath("") == Err(PathTraversal)
    ensures SafeRelativePath(".") == Err(PathTraversal)
  {
    AsWrittenAcceptsRoot();
  }

  /** The two checks differ only on a path that names the root. */
  lemma ChecksAgree(relative: string)
    ensures SafeRelativePathAsWritten(relative) != Ok([]) ==> SafeRelativePath(relative) == SafeRelativePathAsWritten(relative)
    ensures SafeRelativePathAsWritten(relative) == Ok([]) ==> SafeRelativePath(relative) == Err(PathTraversal)
  {
  }

  lemma PrefixWithoutSplit(a: string, c: char, t: string, p: char -> bool)
    requires NoneOf(a, p) && p(c)
    ensures PrefixWithout(a + [c] + t, p) == a
    decreases |a|
  {
    if a != [] {
      assert (a + [c] + t)[1..] == a[1..] + [c] + t;
      PrefixWithoutSplit(a[1..], c, t, p);
    }
  }

  lemma PrefixWithoutWhole(a: string, p: char -> bool)
    requires NoneOf(a, p)
    ensures PrefixWithout(a, p) == a
    decreases |a|
  {
    if a != [] {
      PrefixWithoutWhole(a[1..], p);
    }
  }

  lemma JoinWithCons(p: Path, sep: string)
    requires |p| >= 2
    ensures JoinWith(p, sep) == p[0] + sep + JoinWith(p[1..], sep)
  {
  }

  lemma JoinStartsWithFirst(p: Path)
    requires p != [] && p[0] != []
    ensures AsPosix(p) != [] && AsPosix(p)[0] == p[0][0]
  {
  }

  lemma StripLeftOneSlash(rest: string)
    requires rest != [] && rest[0] != '/'
    ensures StripLeft(['/'] + rest, IsSlash) == rest
  {
    assert (['/'] + rest)[1..] == rest;
  }

  lemma SliceAfter(a: string, c: char, t: string)
    ensures (a + [c] + t)[|a|..] == [c] + t
  {
  }

  /** One step of splitting: the first part, then the split of the rest. */
  lemma SplitJoinStep(a: string, rest: string)
    requires NoneOf(a, IsSlash) && rest != [] && rest[0] != '/'
    ensures SplitRuns(a + ['/'] + rest, IsSlash) == [a] + SplitRuns(rest, IsSlash)
  {
    var s := a + ['/'] + rest;
    PrefixWithoutSplit(a, '/', rest, IsSlash);
    var w := PrefixWithout(s, IsSlash);
    assert w == a;
    SliceAfter(a, '/', rest);
    assert s[|w|..] == ['/'] + rest;
    StripLeftOneSlash(rest);
    assert StripLeft(s[|w|..], IsSlash) == rest;
  }

  /** Splitting a joined canonical path on its slashes gives back its parts. */
  lemma {:induction false} SplitJoin(p: Path)
    requires p != [] && Canonical(p)
    ensures SplitRuns(AsPosix(p), IsSlash) == p
    decreases |p|
  {
    if |p| == 1 {
      PrefixWithoutWhole(p[0], IsSlash);
    } else {
      JoinWithCons(p, "/");
      JoinStartsWithFirst(p[1..]);
      assert AsPosix(p) == p[0] + ['/'] + AsPosix(p[1..]);
      SplitJoinStep(p[0], AsPosix(p[1..]));
      SplitJoin(p[1..]);
      assert p == [p[0]] + p[1..];
    }
  }

  lemma {:induction false} DropEmptyAndDotCanonical(p: Path)
    requires Canonical(p)
    ensures DropEmptyAndDot(p) == p
    decreases |p|
  {
    if p != [] {
      DropEmptyAndDotCanonical(p[1..]);
      assert p == [p[0]] + p[1..];
    }
  }

  /** What the archive writes (`as_posix()` of a path found under the root) the
      restore reads back as the same path. */
  lemma SafeRelativePathOfPosix(p: Path)
    requires p != [] && Canonical(p)
    ensures SafeRelativePath(AsPosix(p)) == Ok(p)
  {
    SplitJoin(p);
    DropEmptyAndDotCanonical(p);
    JoinStartsWithFirst(p);
    assert !StartsWith(AsPosix(p), "/");
    assert Parts(AsPosix(p)) == p;
  }
}
