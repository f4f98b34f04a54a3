/** Choosing the main roles of a session and the suggested save-file name
    (saves/save_manager.py, lines 107-160). */
module Roles {
  import opened Chars
  import opened Text
  import opened Order
  import opened Paths
  import opened Tree
  import opened Identifiers

  /** `DEFAULT_ROLE_LIMIT`. */
  const DefaultRoleLimit: int := 3
  /** `DEAD_SUFFIX`, "_已死亡": the character sheet of a dead character. */
  const DeadSuffix: string := "_\U{5DF2}\U{6B7B}\U{4EA1}"
  /** The one entry of `EXCLUDED_ROLE_PREFIXES`, "示例角色": a sample character sheet. */
  const ExampleRolePrefix: string := "\U{793A}\U{4F8B}\U{89D2}\U{8272}"
  /** "队伍", the label used when there are no main roles. */
  const PartyLabel: string := "\U{961F}\U{4F0D}"
  /** "摘要", the fallback for an annotation that cleans to nothing. */
  const SummaryLabel: string := "\U{6458}\U{8981}"

  /** The directory whose character sheets name the main roles. */
  const ActiveDir: Path := ["characters", "active"]
  const ActivePattern: string := "characters/active/*.md"

  // ---------------------------------------------------------------------------
  // Keeping the first occurrence of each name

  /** The non-empty names of `names`, each once, where it first occurs. This is
      what both `parse_roles_input` and `detect_main_roles` build when they skip
      empty names and names already in their list; it is defined from the right
      end because both build the list by appending. */
  function Distinct(names: seq<string>): (r: seq<string>)
    ensures |r| <= |names|
  {
    if names == [] then []
    else
      var d := Distinct(names[..|names| - 1]);
      var x := names[|names| - 1];
      if x == [] || x in d then d else d + [x]
  }

  predicate AllDistinct(r: seq<string>) {
    forall i, j :: 0 <= i < j < |r| ==> r[i] != r[j]
  }

  predicate NoneEmpty(r: seq<string>) {
    forall i :: 0 <= i < |r| ==> r[i] != []
  }

  /** The position of the first occurrence of `x`. */
  function FirstIndex(xs: seq<string>, x: string): (k: nat)
    requires x in xs
    ensures k < |xs| && xs[k] == x
    ensures forall j :: 0 <= j < k ==> xs[j] != x
  {
    if xs[0] == x then 0 else 1 + FirstIndex(xs[1..], x)
  }

  /** `s[:n]` for a non-negative `n`. */
  function Head(s: seq<string>, n: nat): (r: seq<string>)
    ensures |r| == if n < |s| then n else |s|
    ensures r == s[..|r|]
  {
    if n < |s| then s[..n] else s
  }

  /** `s[:limit]` for any integer `limit`: a negative limit drops that many names
      from the end. */
  function PySlice(s: seq<string>, limit: int): (r: seq<string>)
    ensures limit >= 0 ==> |r| <= limit
    ensures |r| <= |s| && r == s[..|r|]
  {
    if limit >= 0 then Head(s, limit)
    else Head(s, if |s| + limit > 0 then |s| + limit else 0)
  }

  lemma FirstIndexAppend(xs: seq<string>, ys: seq<string>, x: string)
    requires x in xs
    ensures x in xs + ys && FirstIndex(xs + ys, x) == FirstIndex(xs, x)
  {
    var k := FirstIndex(xs, x);
    var k2 := FirstIndex(xs + ys, x);
    assert (xs + ys)[k] == x;
    assert k2 <= k;
    assert xs[k2] == x;
  }

  lemma FirstIndexNew(xs: seq<string>, x: string)
    requires x !in xs
    ensures x in xs + [x] && FirstIndex(xs + [x], x) == |xs|
  {
    assert forall j :: 0 <= j < |xs| ==> (xs + [x])[j] == xs[j];
  }

  /** What `Distinct` keeps: exactly the non-empty names, each once. */
  lemma {:induction false} DistinctMembers(names: seq<string>)
    ensures forall x :: x in Distinct(names) <==> x in names && x != []
    ensures AllDistinct(Distinct(names)) && NoneEmpty(Distinct(names))
    decreases |names|
  {
    if names != [] {
      var init := names[..|names| - 1];
      var x := names[|names| - 1];
      var d := Distinct(init);
      DistinctMembers(init);
      assert names == init + [x];
      if x != [] && x !in d {
        var r := d + [x];
        forall i, j | 0 <= i < j < |r|
          ensures r[i] != r[j]
        {
          if j == |d| {
            assert r[i] in d;
          }
        }
      }
    }
  }

  /** `Distinct` lists names in the order of their first occurrences. */
  lemma {:induction false} DistinctOrder(names: seq<string>)
    ensures forall x :: x in Distinct(names) ==> x in names
    ensures forall i, j :: 0 <= i < j < |Distinct(names)| ==>
      FirstIndex(names, Distinct(names)[i]) < FirstIndex(names, Distinct(names)[j])
    decreases |names|
  {
    DistinctMembers(names);
    if names != [] {
      var init := names[..|names| - 1];
      var x := names[|names| - 1];
      var d := Distinct(init);
      var r := Distinct(names);
      DistinctOrder(init);
      DistinctMembers(init);
      assert names == init + [x];
      forall y | y in d
        ensures FirstIndex(names, y) == FirstIndex(init, y)
      {
        FirstIndexAppend(init, [x], y);
      }
      if x != [] && x !in d {
        assert x !in init;
        FirstIndexNew(init, x);
      }
      forall i, j | 0 <= i < j < |r|
        ensures FirstIndex(names, r[i]) < FirstIndex(names, r[j])
      {
        assert r[i] == d[i] && r[i] in d;
        if j < |d| {
          assert r[j] == d[j] && r[j] in d;
        } else {
          assert r[j] == x;
        }
      }
    }
  }

  predicate IsPrefix<T(==)>(a: seq<T>, b: seq<T>) {
    |a| <= |b| && b[..|a|] == a
  }

  lemma PrefixTransitive<T>(a: seq<T>, b: seq<T>, c: seq<T>)
    requires IsPrefix(a, b) && IsPrefix(b, c)
    ensures IsPrefix(a, c)
  {
    assert c[..|a|] == c[..|b|][..|a|];
  }

  /** One more name either leaves `Distinct` as it is or appends that name. */
  lemma DistinctStep(names: seq<string>, k: nat)
    requires k < |names|
    ensures Distinct(names[..k + 1]) ==
      if names[k] == [] || names[k] in Distinct(names[..k]) then Distinct(names[..k])
      else Distinct(names[..k]) + [names[k]]
  {
    assert names[..k + 1][..k] == names[..k];
  }

  lemma DistinctGrows(names: seq<string>, k: nat)
    requires k < |names|
    ensures IsPrefix(Distinct(names[..k]), Distinct(names[..k + 1]))
  {
    DistinctStep(names, k);
    var d := Distinct(names[..k]);
    assert (d + [names[k]])[..|d|] == d;
  }

  /** The names distinct among the first `k` are a prefix of those among all. */
  lemma {:induction false} DistinctPrefix(names: seq<string>, k: nat)
    requires k <= |names|
    ensures IsPrefix(Distinct(names[..k]), Distinct(names))
    decreases |names| - k
  {
    if k < |names| {
      DistinctPrefix(names, k + 1);
      DistinctGrows(names, k);
      PrefixTransitive(Distinct(names[..k]), Distinct(names[..k + 1]), Distinct(names));
    } else {
      assert names[..k] == names;
    }
  }

  // ---------------------------------------------------------------------------
  // parse_roles_input

  /** The pieces of `re.split(r"[+,，、/;；\s]+", value.strip())`. */
  function RolePieces(value: string): (parts: seq<string>)
    ensures forall k :: 0 <= k < |parts| ==> NoneOf(parts[k], IsRoleSeparator)
  {
    SplitRuns(Strip(value, IsSpace), IsRoleSeparator)
  }

  /** `parse_roles_input`: the role names of free text, each once, in the order
      they first occur, without the separators `+ , ， 、 / ; ；` and whitespace. */
  method ParseRolesInput(value: string) returns (result: seq<string>)
    ensures result == Distinct(RolePieces(value))
  {
    var parts := RolePieces(value);
    result := [];
    for k := 0 to |parts|
      invariant result == Distinct(parts[..k])
    {
      PieceStripsToItself(parts[k]);
      var name := Strip(parts[k], IsSpace);
      DistinctStep(parts, k);
      if name == [] || name in result {
        continue;
      }
      result := result + [name];
    }
    assert parts[..|parts|] == parts;
  }

  lemma PieceStripsToItself(part: string)
    requires NoneOf(part, IsRoleSeparator)
    ensures Strip(part, IsSpace) == part
  {
    StripIdentity(part, IsSpace);
  }

  /** The role names of free text are non-empty, distinct, free of separators,
      complete and in the order they first occur. */
  lemma ParsedRoles(value: string)
    ensures var result := Distinct(RolePieces(value));
      && NoneEmpty(result) && AllDistinct(result)
      && (forall i :: 0 <= i < |result| ==> NoneOf(result[i], IsRoleSeparator))
      && (forall x :: x in RolePieces(value) && x != [] ==> x in result)
      && (forall x :: x in result ==> x in RolePieces(value))
      && (forall i, j :: 0 <= i < j < |result| ==>
            FirstIndex(RolePieces(value), result[i]) < FirstIndex(RolePieces(value), result[j]))
  {
    DistinctPieces(RolePieces(value));
  }

  lemma DistinctPieces(parts: seq<string>)
    requires forall k :: 0 <= k < |parts| ==> NoneOf(parts[k], IsRoleSeparator)
    ensures var result := Distinct(parts);
      && NoneEmpty(result) && AllDistinct(result)
      && (forall i :: 0 <= i < |result| ==> NoneOf(result[i], IsRoleSeparator))
      && (forall x :: x in parts && x != [] ==> x in result)
      && (forall x :: x in result ==> x in parts)
      && (forall i, j :: 0 <= i < j < |result| ==>
            FirstIndex(parts, result[i]) < FirstIndex(parts, result[j]))
  {
    var result := Distinct(parts);
    DistinctMembers(parts);
    DistinctOrder(parts);
    forall i | 0 <= i < |result|
      ensures NoneOf(result[i], IsRoleSeparator)
    {
      assert result[i] in parts;
      var k :| 0 <= k < |parts| && parts[k] == result[i];
    }
  }

  // ---------------------------------------------------------------------------
  // canonical_character_name

  /** `canonical_character_name`: the stripped stem without a trailing dead-character
      suffix, unless nothing else is left, then the stripped stem. */
  function CanonicalCharacterName(stem: string): (r: string)
    ensures r == [] <==> All(stem, IsSpace)
    ensures r == [] || (!IsSpace(r[0]) && !IsSpace(r[|r| - 1]))
  {
    StripEmpty(stem, IsSpace);
    var name := Strip(stem, IsSpace);
    var alive := if EndsWith(name, DeadSuffix) then Strip(name[..|name| - |DeadSuffix|], IsSpace) else name;
    if alive == [] then name else alive
  }

  lemma {:induction false} StripLeftAppend(x: string, y: string, p: char -> bool)
    requires !All(x, p)
    ensures StripLeft(x + y, p) == StripLeft(x, p) + y
    decreases |x|
  {
    assert x != [];
    if p(x[0]) {
      assert (x + y)[1..] == x[1..] + y;
      StripLeftAppend(x[1..], y, p);
    }
  }

  lemma StripLeftTwice(x: string, p: char -> bool)
    ensures StripLeft(StripLeft(x, p), p) == StripLeft(x, p)
  {
  }

  lemma StripRightKeepsEnd(s: string, p: char -> bool)
    requires s != [] && !p(s[|s| - 1])
    ensures StripRight(s, p) == s
  {
  }

  /** The sheet of a dead character maps to the same name as the living one:
      `canonical_character_name(x + "_已死亡") == x.strip()`. */
  lemma DeadSheetName(x: string)
    requires !All(x, IsSpace)
    ensures CanonicalCharacterName(x + DeadSuffix) == Strip(x, IsSpace)
  {
    var left := StripLeft(x, IsSpace);
    var name := Strip(x + DeadSuffix, IsSpace);
    StripOfDead(x);
    assert name[|name| - |DeadSuffix|..] == DeadSuffix;
    assert EndsWith(name, DeadSuffix);
    assert name[..|name| - |DeadSuffix|] == left;
    StripLeftTwice(x, IsSpace);
    var alive := Strip(left, IsSpace);
    assert alive == Strip(x, IsSpace);
    StripEmpty(x, IsSpace);
    assert alive != [];
    SuffixRemoved(x + DeadSuffix);
  }

  lemma SuffixRemoved(stem: string)
    requires EndsWith(Strip(stem, IsSpace), DeadSuffix)
    requires var name := Strip(stem, IsSpace); Strip(name[..|name| - |DeadSuffix|], IsSpace) != []
    ensures var name := Strip(stem, IsSpace);
            CanonicalCharacterName(stem) == Strip(name[..|name| - |DeadSuffix|], IsSpace)
  {
  }

  lemma StripOfDead(x: string)
    requires !All(x, IsSpace)
    ensures Strip(x + DeadSuffix, IsSpace) == StripLeft(x, IsSpace) + DeadSuffix
  {
    StripLeftAppend(x, DeadSuffix, IsSpace);
    var left := StripLeft(x, IsSpace);
    assert !IsSpace((left + DeadSuffix)[|left + DeadSuffix| - 1]);
    StripRightKeepsEnd(left + DeadSuffix, IsSpace);
  }

  /** A stem without the suffix only loses its surrounding whitespace. */
  lemma LivingSheetName(stem: string)
    requires !EndsWith(Strip(stem, IsSpace), DeadSuffix)
    ensures CanonicalCharacterName(stem) == Strip(stem, IsSpace)
  {
  }

  // ---------------------------------------------------------------------------
  // detect_main_roles

  /** The position of the last `.` in `name`. */
  function LastDot(name: string): (i: int)
    ensures -1 <= i < |name|
    ensures i >= 0 ==> name[i] == '.'
    ensures forall j :: i < j < |name| ==> name[j] != '.'
  {
    if name == [] then -1
    else if name[|name| - 1] == '.' then |name| - 1
    else LastDot(name[..|name| - 1])
  }

  /** `PurePath.stem` of a file name: the name without its last suffix. */
  function Stem(name: string): string {
    var i := LastDot(name);
    if 0 < i < |name| - 1 then name[..i] else name
  }

  function StemOf(p: Path): string {
    if p == [] then [] else Stem(p[|p| - 1])
  }

  /** A sheet that may name a main role: not a dead character, not a sample. */
  predicate Eligible(stem: string) {
    !EndsWith(stem, DeadSuffix) && !StartsWith(stem, ExampleRolePrefix)
  }

  function MtimeOf(t: FileTree, p: Path): int {
    if p in t then t[p].mtime else 0
  }

  /** The order of `files.sort(key=mtime, reverse=True)`: newer files first. */
  function NewerFirst(t: FileTree): (Path, Path) -> bool {
    (a: Path, b: Path) => MtimeOf(t, b) <= MtimeOf(t, a)
  }

  lemma NewerFirstOrders(t: FileTree)
    ensures TotalPreorder(NewerFirst(t))
  {
  }

  /** `[p for p in active_dir.glob("*.md") if p.is_file()]`. */
  function ActiveFiles(t: FileTree, found: seq<Path>): (r: seq<Path>)
    ensures forall i :: 0 <= i < |r| ==> r[i] in t && r[i] in found
  {
    if found == [] then []
    else
      var init := ActiveFiles(t, found[..|found| - 1]);
      var p := found[|found| - 1];
      if p in t then init + [p] else init
  }

  /** The active sheets, newest first. */
  function Newest(t: FileTree, found: seq<Path>): seq<Path> {
    SortBy(ActiveFiles(t, found), NewerFirst(t))
  }

  /** A sheet whose stem may name a role: neither a dead character's nor a sample's. */
  predicate IsCandidate(p: Path) {
    Eligible(StemOf(p))
  }

  /** The role a sheet names. */
  function SheetName(p: Path): string {
    CanonicalCharacterName(StemOf(p))
  }

  /** `[x for x in xs if keep(x)]`. */
  function Kept(xs: seq<Path>, keep: Path -> bool): (r: seq<Path>)
    ensures forall i :: 0 <= i < |r| ==> r[i] in xs && keep(r[i])
  {
    if xs == [] then []
    else
      var init := Kept(xs[..|xs| - 1], keep);
      var x := xs[|xs| - 1];
      if keep(x) then init + [x] else init
  }

  /** `[name(x) for x in xs if keep(x)]`. */
  function Picked(xs: seq<Path>, keep: Path -> bool, name: Path -> string): seq<string> {
    if xs == [] then []
    else
      var init := Picked(xs[..|xs| - 1], keep, name);
      var x := xs[|xs| - 1];
      if keep(x) then init + [name(x)] else init
  }

  /** The sheets among `files` that may name a role. */
  function CandidateFiles(files: seq<Path>): seq<Path> {
    Kept(files, IsCandidate)
  }

  /** The names those sheets give, in the same order. */
  function CandidateNames(files: seq<Path>): seq<string> {
    Picked(files, IsCandidate, SheetName)
  }

  /** The picked names are the names of the kept elements, position by position. */
  lemma {:induction false} PickedOfKept(xs: seq<Path>, keep: Path -> bool, name: Path -> string)
    ensures |Picked(xs, keep, name)| == |Kept(xs, keep)|
    ensures forall k :: 0 <= k < |Kept(xs, keep)| ==> Picked(xs, keep, name)[k] == name(Kept(xs, keep)[k])
    decreases |xs|
  {
    if xs != [] {
      PickedOfKept(xs[..|xs| - 1], keep, name);
    }
  }

  /** One more element either adds its name or nothing. */
  lemma PickedStep(xs: seq<Path>, keep: Path -> bool, name: Path -> string, k: nat)
    requires k < |xs|
    ensures Picked(xs[..k + 1], keep, name) ==
      if keep(xs[k]) then Picked(xs[..k], keep, name) + [name(xs[k])] else Picked(xs[..k], keep, name)
  {
    assert xs[..k + 1][..k] == xs[..k];
  }

  lemma {:induction false} PickedPrefix(xs: seq<Path>, keep: Path -> bool, name: Path -> string, k: nat)
    requires k <= |xs|
    ensures IsPrefix(Picked(xs[..k], keep, name), Picked(xs, keep, name))
    decreases |xs| - k
  {
    if k < |xs| {
      PickedPrefix(xs, keep, name, k + 1);
      PickedStep(xs, keep, name, k);
      PrefixTransitive(Picked(xs[..k], keep, name), Picked(xs[..k + 1], keep, name), Picked(xs, keep, name));
    } else {
      assert xs[..k] == xs;
    }
  }

  /** One more element adds its name to the distinct names when it is kept and its
      name is new and non-empty, and adds nothing otherwise. */
  lemma DistinctPickedStep(xs: seq<Path>, keep: Path -> bool, name: Path -> string, i: nat)
    requires i < |xs|
    ensures Distinct(Picked(xs[..i + 1], keep, name)) ==
      (var d := Distinct(Picked(xs[..i], keep, name));
       if keep(xs[i]) && name(xs[i]) != [] && name(xs[i]) !in d then d + [name(xs[i])] else d)
  {
    PickedStep(xs, keep, name, i);
    var ns := Picked(xs[..i + 1], keep, name);
    if keep(xs[i]) {
      DistinctStep(ns, |ns| - 1);
      assert ns[..|ns| - 1] == Picked(xs[..i], keep, name);
      assert ns[..|ns|] == ns;
    }
  }

  /** Once `bound` distinct names come from the first `k` elements, they are the
      first `bound` distinct names of all elements. */
  lemma DistinctPickedEarly(xs: seq<Path>, keep: Path -> bool, name: Path -> string, k: nat, bound: nat)
    requires k <= |xs|
    requires |Distinct(Picked(xs[..k], keep, name))| == bound
    ensures Distinct(Picked(xs[..k], keep, name)) == Head(Distinct(Picked(xs, keep, name)), bound)
  {
    var c := Picked(xs, keep, name);
    PickedPrefix(xs, keep, name, k);
    var ck := Picked(xs[..k], keep, name);
    assert ck == c[..|ck|];
    DistinctPrefix(c, |ck|);
  }

  /** Keeping some elements of a sorted list keeps it sorted. */
  lemma {:induction false} KeptSorted(xs: seq<Path>, keep: Path -> bool, before: (Path, Path) -> bool)
    requires SortedBy(xs, before)
    ensures SortedBy(Kept(xs, keep), before)
    decreases |xs|
  {
    if xs != [] {
      var init := xs[..|xs| - 1];
      var x := xs[|xs| - 1];
      assert SortedBy(init, before);
      KeptSorted(init, keep, before);
      var ki := Kept(init, keep);
      forall k | 0 <= k < |ki|
        ensures before(ki[k], x)
      {
        var m :| 0 <= m < |init| && init[m] == ki[k];
      }
    }
  }

  /** The element that the `i`-th of the first `n` distinct picked names comes from. */
  lemma NameSource(xs: seq<Path>, keep: Path -> bool, name: Path -> string, n: nat, i: nat) returns (x: Path)
    requires i < |Head(Distinct(Picked(xs, keep, name)), n)|
    ensures x in xs && keep(x)
    ensures Head(Distinct(Picked(xs, keep, name)), n)[i] == name(x)
  {
    var names := Picked(xs, keep, name);
    var all := Distinct(names);
    DistinctMembers(names);
    assert all[i] in all;
    var k :| 0 <= k < |names| && names[k] == all[i];
    PickedOfKept(xs, keep, name);
    x := Kept(xs, keep)[k];
  }

  /** What `detect_main_roles(root, limit)` returns: nothing without an active
      directory, otherwise the first `max(1, limit)` distinct names of the eligible
      sheets, newest first. The loop appends before it compares with `limit`, so a
      limit below one still yields one name. */
  function DetectedRoles(t: FileTree, found: seq<Path>, limit: int): seq<string> {
    if !Exists(t, ActiveDir) then []
    else Head(Distinct(CandidateNames(Newest(t, found))), if limit < 1 then 1 else limit)
  }

  /** `detect_main_roles`, given the entries `found` that the active directory's
      `*.md` pattern matches. */
  method DetectMainRoles(t: FileTree, found: seq<Path>, limit: int) returns (names: seq<string>)
    ensures names == DetectedRoles(t, found, limit)
  {
    if !Exists(t, ActiveDir) {
      return [];
    }
    var files := Newest(t, found);
    names := FirstRoleNames(files, IsCandidate, SheetName, limit);
  }

  /** The loop of `detect_main_roles` over the sheets, newest first: it collects
      the new non-empty names of the sheets that `keep` admits and stops once it
      holds `limit` of them. */
  method FirstRoleNames(files: seq<Path>, keep: Path -> bool, name: Path -> string, limit: int)
    returns (names: seq<string>)
    ensures names == Head(Distinct(Picked(files, keep, name)), if limit < 1 then 1 else limit)
  {
    ghost var bound := if limit < 1 then 1 else limit;
    names := [];
    var i := 0;
    assert files[..0] == [];
    while i < |files|
      invariant 0 <= i <= |files|
      invariant names == Distinct(Picked(files[..i], keep, name))
      invariant |names| < bound
    {
      var path := files[i];
      DistinctPickedStep(files, keep, name, i);
      if keep(path) {
        var n := name(path);
        if n != [] && n !in names {
          names := names + [n];
          if |names| >= limit {
            DistinctPickedEarly(files, keep, name, i + 1, bound);
            return;
          }
        }
      }
      i := i + 1;
    }
    assert files[..i] == files;
  }

  /** Auto-detected roles: at most `max(1, limit)`, distinct, non-empty. */
  lemma DetectedRolesShape(t: FileTree, found: seq<Path>, limit: int)
    ensures |DetectedRoles(t, found, limit)| <= if limit < 1 then 1 else limit
    ensures AllDistinct(DetectedRoles(t, found, limit)) && NoneEmpty(DetectedRoles(t, found, limit))
  {
    if Exists(t, ActiveDir) {
      var all := Distinct(CandidateNames(Newest(t, found)));
      DistinctMembers(CandidateNames(Newest(t, found)));
      HeadKeepsDistinct(all, if limit < 1 then 1 else limit);
    }
  }

  lemma HeadKeepsDistinct(all: seq<string>, n: nat)
    requires AllDistinct(all) && NoneEmpty(all)
    ensures AllDistinct(Head(all, n)) && NoneEmpty(Head(all, n))
  {
  }

  lemma SliceKeepsDistinct(all: seq<string>, limit: int)
    requires AllDistinct(all) && NoneEmpty(all)
    ensures AllDistinct(PySlice(all, limit)) && NoneEmpty(PySlice(all, limit))
  {
    var r := PySlice(all, limit);
    assert forall i :: 0 <= i < |r| ==> r[i] == all[i];
  }

  /** Every auto-detected role is the canonical name of an active sheet that is
      neither a dead character's nor a sample's. */
  lemma DetectedRolesSource(t: FileTree, found: seq<Path>, limit: int, i: nat)
    requires i < |DetectedRoles(t, found, limit)|
    ensures exists p :: (p in t && p in found && Eligible(StemOf(p)) &&
                         DetectedRoles(t, found, limit)[i] == CanonicalCharacterName(StemOf(p)))
  {
    var files := Newest(t, found);
    var p := NameSource(files, IsCandidate, SheetName, if limit < 1 then 1 else limit, i);
    assert DetectedRoles(t, found, limit)[i] == SheetName(p);
    assert multiset(files) == multiset(ActiveFiles(t, found));
    assert p in multiset(ActiveFiles(t, found));
  }

  /** Auto-detected roles come in descending-mtime order: the sheet a role first
      comes from is at least as new as the one a later role first comes from. */
  lemma DetectedRolesNewestFirst(t: FileTree, found: seq<Path>, limit: int, i: nat, j: nat)
    requires i < j < |DetectedRoles(t, found, limit)|
    ensures var cf := CandidateFiles(Newest(t, found));
            var cn := CandidateNames(Newest(t, found));
            var r := DetectedRoles(t, found, limit);
            r[i] in cn && r[j] in cn && |cf| == |cn| &&
            MtimeOf(t, cf[FirstIndex(cn, r[i])]) >= MtimeOf(t, cf[FirstIndex(cn, r[j])])
  {
    var files := Newest(t, found);
    var cf := CandidateFiles(files);
    var cn := CandidateNames(files);
    var all := Distinct(cn);
    var r := DetectedRoles(t, found, limit);
    assert r == all[..|r|];
    DistinctOrder(cn);
    PickedOfKept(files, IsCandidate, SheetName);
    assert r[i] == all[i] && r[j] == all[j];
    var a := FirstIndex(cn, r[i]);
    var b := FirstIndex(cn, r[j]);
    assert a < b;
    NewerFirstOrders(t);
    SortBySorted(ActiveFiles(t, found), NewerFirst(t));
    KeptSorted(files, IsCandidate, NewerFirst(t));
    assert NewerFirst(t)(cf[a], cf[b]);
  }

  // ---------------------------------------------------------------------------
  // resolve_main_roles

  /** The roles `resolve_main_roles` settles on. */
  function ResolvedRoles(t: FileTree, found: seq<Path>, explicit: string, limit: int): seq<string> {
    if !All(explicit, IsSpace) && Distinct(RolePieces(explicit)) != [] then PySlice(Distinct(RolePieces(explicit)), limit)
    else DetectedRoles(t, found, limit)
  }

  /** `resolve_main_roles`: explicit text that parses to at least one name wins and
      is cut to `limit`; otherwise the roles are detected from the active sheets. */
  method ResolveMainRoles(t: FileTree, found: seq<Path>, explicit: string, limit: int) returns (roles: seq<string>)
    ensures !All(explicit, IsSpace) && Distinct(RolePieces(explicit)) != [] ==>
      roles == PySlice(Distinct(RolePieces(explicit)), limit)
    ensures All(explicit, IsSpace) || Distinct(RolePieces(explicit)) == [] ==>
      roles == DetectedRoles(t, found, limit)
    ensures limit >= 1 ==> |roles| <= limit
    ensures AllDistinct(roles) && NoneEmpty(roles)
  {
    StripEmpty(explicit, IsSpace);
    if Strip(explicit, IsSpace) != [] {
      var parsed := ParseRolesInput(explicit);
      if parsed != [] {
        roles := PySlice(parsed, limit);
        ParsedRoles(explicit);
        SliceKeepsDistinct(parsed, limit);
        return;
      }
    }
    roles := DetectMainRoles(t, found, limit);
    DetectedRolesShape(t, found, limit);
  }

  // ---------------------------------------------------------------------------
  // build_save_filename_hint

  /** `"+".join(main_roles) if main_roles else "队伍"`. */
  function RolesLabel(roles: seq<string>): string {
    if roles == [] then PartyLabel else JoinWith(roles, "+")
  }

  /** `build_save_filename_hint`: `save_<snapshot>_<roles>.md`, with `_<blip>`
      after the roles when there is an annotation. */
  function BuildSaveFilenameHint(snapshotId: string, roles: seq<string>, blip: string): string {
    var rolePart := NormalizeFilenamePiece(RolesLabel(roles), PartyLabel);
    var tail := if blip != [] then rolePart + "_" + NormalizeFilenamePiece(blip, SummaryLabel) else rolePart;
    "save_" + snapshotId + "_" + tail + ".md"
  }

  lemma LabelsAreClean()
    ensures All(PartyLabel, IsPieceChar) && NoneOf(PartyLabel, IsInvalidWinChar) && PartyLabel != []
    ensures All(SummaryLabel, IsPieceChar) && NoneOf(SummaryLabel, IsInvalidWinChar) && SummaryLabel != []
  {
  }

  lemma NoneOfConcat(a: string, b: string, p: char -> bool)
    ensures NoneOf(a + b, p) <==> NoneOf(a, p) && NoneOf(b, p)
  {
    assert forall i :: 0 <= i < |a| ==> (a + b)[i] == a[i];
    assert forall i :: 0 <= i < |b| ==> (a + b)[|a| + i] == b[i];
  }

  /** The frame of a hint around its snapshot id and its tail. */
  lemma HintFrame(snapshotId: string, tail: string)
    requires tail != []
    ensures var hint := "save_" + snapshotId + "_" + tail + ".md";
            StartsWith(hint, "save_" + snapshotId + "_") && EndsWith(hint, ".md")
            && |hint| > |"save_" + snapshotId + "_" + ".md"|
    ensures NoneOf(snapshotId, IsInvalidWinChar) && NoneOf(tail, IsInvalidWinChar) ==>
            NoneOf("save_" + snapshotId + "_" + tail + ".md", IsInvalidWinChar)
  {
    var head := "save_" + snapshotId + "_";
    assert (head + tail + ".md")[..|head|] == head;
    assert (head + tail + ".md")[|head + tail|..] == ".md";
    NoneOfConcat("save_", snapshotId, IsInvalidWinChar);
    NoneOfConcat("save_" + snapshotId, "_", IsInvalidWinChar);
    NoneOfConcat(head, tail, IsInvalidWinChar);
    NoneOfConcat(head + tail, ".md", IsInvalidWinChar);
  }

  /** The tail of a hint: the role part, then `_` and the annotation part. */
  lemma TailIsClean(rolePart: string, blipPart: string)
    requires NoneOf(rolePart, IsInvalidWinChar) && NoneOf(blipPart, IsInvalidWinChar)
    ensures NoneOf(rolePart + "_" + blipPart, IsInvalidWinChar)
  {
    NoneOfConcat(rolePart, "_", IsInvalidWinChar);
    NoneOfConcat(rolePart + "_", blipPart, IsInvalidWinChar);
  }

  /** A snapshot id of `[A-Za-z0-9_-]` holds no character Windows refuses. */
  lemma SnapshotIdIsClean(snapshotId: string)
    requires ValidSnapshotId(snapshotId)
    ensures NoneOf(snapshotId, IsInvalidWinChar)
  {
  }

  /** A file-name piece with a clean fallback is never empty and never holds a
      character Windows refuses. */
  lemma PieceIsClean(value: string, fallback: string)
    requires fallback != [] && NoneOf(fallback, IsInvalidWinChar)
    ensures NormalizeFilenamePiece(value, fallback) != []
    ensures NoneOf(NormalizeFilenamePiece(value, fallback), IsInvalidWinChar)
  {
  }

  /** The suggested name of a save: `save_<snapshot>_<roles>[_<blip>].md`, where the
      role part is never empty and, for an explicit snapshot id, no part holds a
      character Windows refuses in a file name. */
  lemma SaveFilenameHintShape(snapshotId: string, roles: seq<string>, blip: string)
    ensures var hint := BuildSaveFilenameHint(snapshotId, roles, blip);
            StartsWith(hint, "save_" + snapshotId + "_") && EndsWith(hint, ".md")
            && |hint| > |"save_" + snapshotId + "_" + ".md"|
    ensures ValidSnapshotId(snapshotId) ==> NoneOf(BuildSaveFilenameHint(snapshotId, roles, blip), IsInvalidWinChar)
  {
    LabelsAreClean();
    var rolePart := NormalizeFilenamePiece(RolesLabel(roles), PartyLabel);
    PieceIsClean(RolesLabel(roles), PartyLabel);
    var tail := rolePart;
    if blip != [] {
      var blipPart := NormalizeFilenamePiece(blip, SummaryLabel);
      PieceIsClean(blip, SummaryLabel);
      TailIsClean(rolePart, blipPart);
      tail := rolePart + "_" + blipPart;
    }
    HintFrame(snapshotId, tail);
    if ValidSnapshotId(snapshotId) {
      SnapshotIdIsClean(snapshotId);
    }
  }
}
