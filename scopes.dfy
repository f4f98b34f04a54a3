/** Which runtime files an archive takes (`collect_scope_files`) and how many
    each scope contributes (`runtime_scope_summary`), saves/save_manager.py
    lines 25-42 and 217-249. */
module Scopes {
  import opened Chars
  import opened Text
  import opened Order
  import opened Paths
  import opened Tree
  import opened Outcome
  import opened Environment

  /** The scopes of `RUNTIME_SCOPES`, in declaration order, and `extra`. */
  datatype Scope = Characters | SessionLogs | CombatLogs | ExplorationLogs | SystemLogs | Saves | Extra

  /** The name a scope has in manifests. */
  function ScopeName(s: Scope): string {
    match s
    case Characters => "characters"
    case SessionLogs => "session_logs"
    case CombatLogs => "combat_logs"
    case ExplorationLogs => "exploration_logs"
    case SystemLogs => "system_logs"
    case Saves => "saves"
    case Extra => "extra"
  }

  /** Different scopes have different names, so counting by name is counting by scope. */
  lemma ScopeNamesDiffer(a: Scope, b: Scope)
    ensures ScopeName(a) == ScopeName(b) ==> a == b
  {
    if a != b {
      assert ScopeName(a)[0] != ScopeName(b)[0] || ScopeName(a)[1] != ScopeName(b)[1] || |ScopeName(a)| != |ScopeName(b)|;
    }
  }

  /** The position of a scope in `RUNTIME_SCOPES`; `extra` comes after all of them. */
  function Rank(s: Scope): nat {
    match s
    case Characters => 0
    case SessionLogs => 1
    case CombatLogs => 2
    case ExplorationLogs => 3
    case SystemLogs => 4
    case Saves => 5
    case Extra => 6
  }

  const FixedScopes: seq<Scope> := [Characters, SessionLogs, CombatLogs, ExplorationLogs, SystemLogs, Saves]

  const AllScopes: seq<Scope> := FixedScopes + [Extra]

  lemma FixedScopesInOrder()
    ensures forall i :: 0 <= i < |FixedScopes| ==> Rank(FixedScopes[i]) == i
  {
  }

  /** The glob pattern of a fixed scope. */
  function Pattern(s: Scope): string
    requires s != Extra
  {
    match s
    case Characters => "characters/active/*.md"
    case SessionLogs => "logs/session/*.md"
    case CombatLogs => "logs/combat/*.md"
    case ExplorationLogs => "logs/exploration/*.md"
    case SystemLogs => "logs/system/*.md"
    case Saves => "saves/save_*.md"
  }

  /** `RuntimeFile`: the file, its POSIX path relative to the root, and its scope. */
  datatype RuntimeFile = RuntimeFile(path: Path, relative: string, scope: Scope)

  const ArchivesPrefix: string := "saves/archives/"

  /** `EXCLUDED_BASENAMES_LOWER`. */
  const ExcludedBasenames: set<string> := {"save_initial_template.md", "save_manager.md", "save_manager.py"}

  function AsciiLowerChar(c: char): char {
    if 'A' <= c <= 'Z' then (c as int + 32) as char else c
  }

  /** `str.lower()` on the letters that can occur in an excluded name. */
  function AsciiLower(s: string): (r: string)
    ensures |r| == |s|
  {
    seq(|s|, i requires 0 <= i < |s| => AsciiLowerChar(s[i]))
  }

  /** `path.name.lower() in EXCLUDED_BASENAMES_LOWER`. */
  predicate ExcludedName(p: Path) {
    p != [] && AsciiLower(p[|p| - 1]) in ExcludedBasenames
  }

  /** A glob hit of `scope` that becomes a runtime file: a regular file, outside the
      archive directory, and, for a fixed scope, not one of the excluded names. */
  predicate Admitted(t: FileTree, p: Path, scope: Scope) {
    && p in t
    && (scope != Extra ==> !ExcludedName(p))
    && !StartsWith(AsPosix(p), ArchivesPrefix)
  }

  /** The runtime files that the hits of one pattern claim, in order. */
  function ClaimsOf(t: FileTree, hits: seq<Path>, scope: Scope): seq<RuntimeFile> {
    if hits == [] then []
    else
      var init := ClaimsOf(t, hits[..|hits| - 1], scope);
      var p := hits[|hits| - 1];
      if Admitted(t, p, scope) then init + [RuntimeFile(p, AsPosix(p), scope)] else init
  }

  /** The claims of the first `n` fixed scopes, in declaration order. */
  function FixedClaims(t: FileTree, env: Env, n: nat): seq<RuntimeFile>
    requires n <= |FixedScopes|
  {
    if n == 0 then []
    else
      var s := FixedScopes[n - 1];
      FixedClaims(t, env, n - 1) + ClaimsOf(t, env.glob(Pattern(s)), s)
  }

  /** The claims of the `--extra` patterns, each stripped, blank ones skipped. */
  function ExtraClaims(t: FileTree, env: Env, extras: seq<string>): seq<RuntimeFile> {
    if extras == [] then []
    else
      var init := ExtraClaims(t, env, extras[..|extras| - 1]);
      var pattern := Strip(extras[|extras| - 1], IsSpace);
      if pattern == [] then init else init + ClaimsOf(t, env.glob(pattern), Extra)
  }

  /** Every claim, fixed scopes first. */
  function AllClaims(t: FileTree, env: Env, extras: seq<string>): seq<RuntimeFile> {
    FixedClaims(t, env, |FixedScopes|) + ExtraClaims(t, env, extras)
  }

  /** `seen.setdefault(rel, item)` over a sequence of claims: each relative path
      keeps the first file that claims it. */
  function FirstWins(claims: seq<RuntimeFile>): map<string, RuntimeFile> {
    if claims == [] then map[]
    else
      var m := FirstWins(claims[..|claims| - 1]);
      var x := claims[|claims| - 1];
      if x.relative in m then m else m[x.relative := x]
  }

  /** The first claim of `key`, reading from the left: an independent statement of
      what `setdefault` keeps. */
  function FirstClaim(claims: seq<RuntimeFile>, key: string): Option<RuntimeFile> {
    if claims == [] then None
    else if claims[0].relative == key then Some(claims[0])
    else FirstClaim(claims[1..], key)
  }

  /** `sorted(seen.values(), key=lambda item: item.relative)`. */
  function Ordered(m: map<string, RuntimeFile>): (r: seq<RuntimeFile>)
    ensures |r| == |m.Keys|
  {
    var keys := SortedStrings(m.Keys);
    seq(|keys|, i requires 0 <= i < |keys| => m[keys[i]])
  }

  /** What `collect_scope_files` returns. */
  function Collected(t: FileTree, env: Env, extras: seq<string>): seq<RuntimeFile> {
    Ordered(FirstWins(AllClaims(t, env, extras)))
  }

  // ---------------------------------------------------------------------------
  // collect_scope_files

  /** `collect_scope_files(root, extras)`, with `env.glob` answering each pattern. */
  method CollectScopeFiles(t: FileTree, env: Env, extras: seq<string>) returns (files: seq<RuntimeFile>)
    ensures files == Collected(t, env, extras)
  {
    var seen := ClaimFixedScopes(t, env);
    seen := ClaimExtraPatterns(t, env, extras, seen, FixedClaims(t, env, |FixedScopes|));
    files := Ordered(seen);
  }

  /** The loop over `RUNTIME_SCOPES`. */
  method ClaimFixedScopes(t: FileTree, env: Env) returns (seen: map<string, RuntimeFile>)
    ensures seen == FirstWins(FixedClaims(t, env, |FixedScopes|))
  {
    seen := map[];
    for n := 0 to |FixedScopes|
      invariant seen == FirstWins(FixedClaims(t, env, n))
    {
      var scope := FixedScopes[n];
      seen := ClaimHits(t, env.glob(Pattern(scope)), scope, seen, FixedClaims(t, env, n));
    }
  }

  /** The loop over the `--extra` patterns, after the claims in `base` (those of
      the fixed scopes) have been made. */
  method ClaimExtraPatterns(t: FileTree, env: Env, extras: seq<string>, fixed: map<string, RuntimeFile>,
                            ghost base: seq<RuntimeFile>) returns (seen: map<string, RuntimeFile>)
    requires fixed == FirstWins(base)
    ensures seen == FirstWins(base + ExtraClaims(t, env, extras))
  {
    seen := fixed;
    ghost var claims := base;
    assert ExtraClaims(t, env, extras[..0]) == [];
    assert claims == base + ExtraClaims(t, env, extras[..0]);
    for m := 0 to |extras|
      invariant claims == base + ExtraClaims(t, env, extras[..m])
      invariant seen == FirstWins(claims)
    {
      var pattern := Strip(extras[m], IsSpace);
      ExtraStep(t, env, extras, m);
      if pattern == [] {
        continue;
      }
      var hits := env.glob(pattern);
      seen := ClaimHits(t, hits, Extra, seen, claims);
      AppendAssoc(base, ExtraClaims(t, env, extras[..m]), ClaimsOf(t, hits, Extra));
      claims := claims + ClaimsOf(t, hits, Extra);
    }
    assert extras[..|extras|] == extras;
  }

  lemma AppendAssoc(a: seq<RuntimeFile>, b: seq<RuntimeFile>, c: seq<RuntimeFile>)
    ensures a + b + c == a + (b + c)
  {
  }

  /** The loop over the hits of one pattern: each admitted hit is offered to
      `seen.setdefault`. */
  method ClaimHits(t: FileTree, hits: seq<Path>, scope: Scope, seen: map<string, RuntimeFile>,
                   ghost before: seq<RuntimeFile>) returns (after: map<string, RuntimeFile>)
    requires seen == FirstWins(before)
    ensures after == FirstWins(before + ClaimsOf(t, hits, scope))
  {
    after := seen;
    ghost var claims := before;
    for k := 0 to |hits|
      invariant claims == before + ClaimsOf(t, hits[..k], scope)
      invariant after == FirstWins(claims)
    {
      var path := hits[k];
      ClaimsStep(t, hits, scope, k);
      if path !in t {
        continue;
      }
      if scope != Extra && ExcludedName(path) {
        continue;
      }
      var rel := AsPosix(path);
      if StartsWith(rel, ArchivesPrefix) {
        continue;
      }
      var item := RuntimeFile(path, rel, scope);
      FirstWinsStep(claims, item);
      AppendAssoc(before, ClaimsOf(t, hits[..k], scope), [item]);
      if rel !in after {
        after := after[rel := item];
      }
      claims := claims + [item];
    }
    assert hits[..|hits|] == hits;
  }

  lemma ClaimsStep(t: FileTree, hits: seq<Path>, scope: Scope, k: nat)
    requires k < |hits|
    ensures ClaimsOf(t, hits[..k + 1], scope) ==
      if Admitted(t, hits[k], scope) then ClaimsOf(t, hits[..k], scope) + [RuntimeFile(hits[k], AsPosix(hits[k]), scope)]
      else ClaimsOf(t, hits[..k], scope)
  {
    assert hits[..k + 1][..k] == hits[..k];
  }

  lemma ExtraStep(t: FileTree, env: Env, extras: seq<string>, m: nat)
    requires m < |extras|
    ensures ExtraClaims(t, env, extras[..m + 1]) ==
      if Strip(extras[m], IsSpace) == [] then ExtraClaims(t, env, extras[..m])
      else ExtraClaims(t, env, extras[..m]) + ClaimsOf(t, env.glob(Strip(extras[m], IsSpace)), Extra)
  {
    assert extras[..m + 1][..m] == extras[..m];
  }

  lemma FirstWinsStep(claims: seq<RuntimeFile>, x: RuntimeFile)
    ensures FirstWins(claims + [x]) ==
      if x.relative in FirstWins(claims) then FirstWins(claims) else FirstWins(claims)[x.relative := x]
  {
    assert (claims + [x])[..|claims|] == claims;
  }

  /** Claims of admitted hits, each named by its POSIX path. */
  predicate ClaimsAdmitted(t: FileTree, c: seq<RuntimeFile>) {
    forall x :: x in c ==> Admitted(t, x.path, x.scope) && x.relative == AsPosix(x.path)
  }

  predicate OfScope(c: seq<RuntimeFile>, scope: Scope) {
    forall x :: x in c ==> x.scope == scope
  }

  predicate RanksBelow(c: seq<RuntimeFile>, n: nat) {
    forall x :: x in c ==> Rank(x.scope) < n
  }

  /** Each claim of a pattern comes from a hit its scope admits. */
  lemma {:induction false} ClaimsOfAdmitted(t: FileTree, hits: seq<Path>, scope: Scope)
    ensures ClaimsAdmitted(t, ClaimsOf(t, hits, scope)) && OfScope(ClaimsOf(t, hits, scope), scope)
    decreases |hits|
  {
    if hits != [] {
      ClaimsOfAdmitted(t, hits[..|hits| - 1], scope);
    }
  }

  lemma {:induction false} FixedClaimsAdmitted(t: FileTree, env: Env, n: nat)
    requires n <= |FixedScopes|
    ensures ClaimsAdmitted(t, FixedClaims(t, env, n)) && RanksBelow(FixedClaims(t, env, n), n)
  {
    if n > 0 {
      FixedClaimsAdmitted(t, env, n - 1);
      FixedScopesInOrder();
      var s := FixedScopes[n - 1];
      ClaimsOfAdmitted(t, env.glob(Pattern(s)), s);
    }
  }

  lemma {:induction false} ExtraClaimsAdmitted(t: FileTree, env: Env, extras: seq<string>)
    ensures ClaimsAdmitted(t, ExtraClaims(t, env, extras)) && OfScope(ExtraClaims(t, env, extras), Extra)
    decreases |extras|
  {
    if extras != [] {
      ExtraClaimsAdmitted(t, env, extras[..|extras| - 1]);
      var pattern := Strip(extras[|extras| - 1], IsSpace);
      if pattern != [] {
        ClaimsOfAdmitted(t, env.glob(pattern), Extra);
      }
    }
  }

  lemma AllClaimsAdmitted(t: FileTree, env: Env, extras: seq<string>)
    ensures ClaimsAdmitted(t, AllClaims(t, env, extras))
  {
    FixedClaimsAdmitted(t, env, |FixedScopes|);
    ExtraClaimsAdmitted(t, env, extras);
  }

  /** `seen` maps each relative path to a file with that path. */
  predicate KeyedByRelative(m: map<string, RuntimeFile>) {
    forall k :: k in m ==> m[k].relative == k
  }

  lemma {:induction false} FirstWinsKeyed(claims: seq<RuntimeFile>)
    ensures KeyedByRelative(FirstWins(claims))
    decreases |claims|
  {
    if claims != [] {
      FirstWinsKeyed(claims[..|claims| - 1]);
    }
  }

  // ---------------------------------------------------------------------------
  // What setdefault keeps

  /** The right-to-left `setdefault` fold and the left-to-right first claim agree. */
  lemma {:induction false} FirstWinsIsFirstClaim(claims: seq<RuntimeFile>, key: string)
    ensures key in FirstWins(claims) <==> FirstClaim(claims, key).Some?
    ensures key in FirstWins(claims) ==> FirstWins(claims)[key] == FirstClaim(claims, key).value
    decreases |claims|
  {
    if claims != [] {
      var init := claims[..|claims| - 1];
      var x := claims[|claims| - 1];
      assert claims == init + [x];
      FirstWinsIsFirstClaim(init, key);
      FirstClaimAppend(init, x, key);
    }
  }

  lemma {:induction false} FirstClaimAppend(claims: seq<RuntimeFile>, x: RuntimeFile, key: string)
    ensures FirstClaim(claims + [x], key) ==
      if FirstClaim(claims, key).Some? then FirstClaim(claims, key)
      else if x.relative == key then Some(x) else None
    decreases |claims|
  {
    if claims != [] {
      assert (claims + [x])[1..] == claims[1..] + [x];
      FirstClaimAppend(claims[1..], x, key);
    }
  }

  /** The first claim of a key is a claim of that key, and no earlier claim has it. */
  lemma {:induction false} FirstClaimIsFirst(claims: seq<RuntimeFile>, key: string) returns (k: nat)
    requires FirstClaim(claims, key).Some?
    ensures k < |claims| && claims[k] == FirstClaim(claims, key).value && claims[k].relative == key
    ensures forall j :: 0 <= j < k ==> claims[j].relative != key
    decreases |claims|
  {
    if claims[0].relative == key {
      k := 0;
    } else {
      var k1 := FirstClaimIsFirst(claims[1..], key);
      k := k1 + 1;
    }
  }

  lemma {:induction false} FirstClaimExists(claims: seq<RuntimeFile>, i: nat)
    requires i < |claims|
    ensures FirstClaim(claims, claims[i].relative).Some?
    decreases |claims|
  {
    if claims[0].relative != claims[i].relative {
      FirstClaimExists(claims[1..], i - 1);
    }
  }

  // ---------------------------------------------------------------------------
  // Properties of the collected files

  predicate StrictlyByRelative(files: seq<RuntimeFile>) {
    forall i, j :: 0 <= i < j < |files| ==> StrLess(files[i].relative, files[j].relative)
  }

  /** Listing the values of `seen` by key lists them in key order. */
  lemma OrderedSorted(m: map<string, RuntimeFile>)
    requires KeyedByRelative(m)
    ensures StrictlyByRelative(Ordered(m))
  {
    var keys := SortedStrings(m.Keys);
    assert forall i :: 0 <= i < |Ordered(m)| ==> Ordered(m)[i].relative == keys[i];
  }

  /** Each listed file is the value of its own key. */
  lemma OrderedFromMap(m: map<string, RuntimeFile>)
    requires KeyedByRelative(m)
    ensures forall i :: 0 <= i < |Ordered(m)| ==>
      Ordered(m)[i].relative in m && m[Ordered(m)[i].relative] == Ordered(m)[i]
  {
    var keys := SortedStrings(m.Keys);
    assert forall i :: 0 <= i < |Ordered(m)| ==> Ordered(m)[i] == m[keys[i]];
  }

  /** Each value of the map is listed. */
  lemma OrderedListsAll(m: map<string, RuntimeFile>, k: string) returns (i: nat)
    requires k in m
    ensures i < |Ordered(m)| && Ordered(m)[i] == m[k]
  {
    var keys := SortedStrings(m.Keys);
    i :| 0 <= i < |keys| && keys[i] == k;
  }

  /** The collected files are strictly sorted by relative path, so no path occurs twice. */
  lemma CollectedSorted(t: FileTree, env: Env, extras: seq<string>)
    ensures StrictlyByRelative(Collected(t, env, extras))
  {
    FirstWinsKeyed(AllClaims(t, env, extras));
    OrderedSorted(FirstWins(AllClaims(t, env, extras)));
  }

  /** Each file is the first claim of its relative path. */
  predicate FirstClaimants(files: seq<RuntimeFile>, claims: seq<RuntimeFile>) {
    forall i :: 0 <= i < |files| ==> FirstClaim(claims, files[i].relative) == Some(files[i])
  }

  /** Every claimed path is among the files. */
  predicate CoversClaims(files: seq<RuntimeFile>, claims: seq<RuntimeFile>) {
    forall c :: c in claims ==> exists i :: 0 <= i < |files| && files[i].relative == c.relative
  }

  /** Each collected file is the first claim of its relative path, and every claimed
      path is collected. */
  lemma CollectedFirstClaimant(t: FileTree, env: Env, extras: seq<string>)
    ensures FirstClaimants(Collected(t, env, extras), AllClaims(t, env, extras))
    ensures CoversClaims(Collected(t, env, extras), AllClaims(t, env, extras))
  {
    var claims := AllClaims(t, env, extras);
    var m := FirstWins(claims);
    FirstWinsKeyed(claims);
    OrderedFromMap(m);
    var files := Ordered(m);
    forall i | 0 <= i < |files|
      ensures FirstClaim(claims, files[i].relative) == Some(files[i])
    {
      FirstWinsIsFirstClaim(claims, files[i].relative);
    }
    forall c | c in claims
      ensures exists i :: 0 <= i < |files| && files[i].relative == c.relative
    {
      var j :| 0 <= j < |claims| && claims[j] == c;
      FirstClaimExists(claims, j);
      FirstWinsIsFirstClaim(claims, c.relative);
      var i := OrderedListsAll(m, c.relative);
    }
  }

  /** Every collected file is a regular file outside the archive directory, named by
      its own POSIX path, and a fixed scope's file does not have an excluded name. */
  lemma CollectedAdmitted(t: FileTree, env: Env, extras: seq<string>)
    ensures ClaimsAdmitted(t, Collected(t, env, extras))
  {
    var claims := AllClaims(t, env, extras);
    var files := Collected(t, env, extras);
    CollectedFirstClaimant(t, env, extras);
    AllClaimsAdmitted(t, env, extras);
    forall x | x in files
      ensures Admitted(t, x.path, x.scope) && x.relative == AsPosix(x.path)
    {
      var i :| 0 <= i < |files| && files[i] == x;
      var k := FirstClaimIsFirst(claims, x.relative);
      assert claims[k] in claims;
    }
  }

  /** Claims listed in the declaration order of their scopes. */
  predicate RankOrdered(c: seq<RuntimeFile>) {
    forall i, j :: 0 <= i < j < |c| ==> Rank(c[i].scope) <= Rank(c[j].scope)
  }

  /** The claims of one scope after the claims of the scopes before it keep the order. */
  lemma RankOrderedAppend(a: seq<RuntimeFile>, b: seq<RuntimeFile>, n: nat)
    requires RankOrdered(a) && RanksBelow(a, n)
    requires forall x :: x in b ==> Rank(x.scope) == n
    ensures RankOrdered(a + b)
  {
    var c := a + b;
    forall i, j | 0 <= i < j < |c|
      ensures Rank(c[i].scope) <= Rank(c[j].scope)
    {
      if j < |a| {
        assert c[i] == a[i] && c[j] == a[j];
      } else if i >= |a| {
        assert c[i] == b[i - |a|] && c[j] == b[j - |a|];
        assert b[i - |a|] in b && b[j - |a|] in b;
      } else {
        assert c[i] == a[i] && c[j] == b[j - |a|];
        assert a[i] in a && b[j - |a|] in b;
      }
    }
  }

  /** The claims come in declaration order of their scopes, `extra` last. */
  lemma {:induction false} FixedClaimsRanked(t: FileTree, env: Env, n: nat)
    requires n <= |FixedScopes|
    ensures RankOrdered(FixedClaims(t, env, n))
  {
    if n > 0 {
      FixedClaimsRanked(t, env, n - 1);
      FixedClaimsAdmitted(t, env, n - 1);
      FixedScopesInOrder();
      var s := FixedScopes[n - 1];
      ClaimsOfAdmitted(t, env.glob(Pattern(s)), s);
      RankOrderedAppend(FixedClaims(t, env, n - 1), ClaimsOf(t, env.glob(Pattern(s)), s), n - 1);
    }
  }

  lemma AllClaimsRanked(t: FileTree, env: Env, extras: seq<string>)
    ensures RankOrdered(AllClaims(t, env, extras))
  {
    FixedClaimsRanked(t, env, |FixedScopes|);
    FixedClaimsAdmitted(t, env, |FixedScopes|);
    ExtraClaimsAdmitted(t, env, extras);
    RankOrderedAppend(FixedClaims(t, env, |FixedScopes|), ExtraClaims(t, env, extras), |FixedScopes|);
  }

  /** First scope wins: a collected file carries the earliest scope, in declaration
      order with `extra` last, among all the scopes that claim its path. */
  lemma CollectedScopeIsFirst(t: FileTree, env: Env, extras: seq<string>, i: nat, c: RuntimeFile)
    requires i < |Collected(t, env, extras)|
    requires c in AllClaims(t, env, extras) && c.relative == Collected(t, env, extras)[i].relative
    ensures Rank(Collected(t, env, extras)[i].scope) <= Rank(c.scope)
  {
    var claims := AllClaims(t, env, extras);
    var f := Collected(t, env, extras)[i];
    CollectedFirstClaimant(t, env, extras);
    var k := FirstClaimIsFirst(claims, f.relative);
    var j :| 0 <= j < |claims| && claims[j] == c;
    AllClaimsRanked(t, env, extras);
    if k < j {
      assert Rank(claims[k].scope) <= Rank(claims[j].scope);
    }
  }

  /** A path is collected as `extra` only if no fixed scope claims it. */
  lemma CollectedExtraUnclaimed(t: FileTree, env: Env, extras: seq<string>, i: nat)
    requires i < |Collected(t, env, extras)|
    requires Collected(t, env, extras)[i].scope == Extra
    ensures forall c :: c in FixedClaims(t, env, |FixedScopes|) ==> c.relative != Collected(t, env, extras)[i].relative
  {
    FixedClaimsAdmitted(t, env, |FixedScopes|);
    forall c | c in FixedClaims(t, env, |FixedScopes|)
      ensures c.relative != Collected(t, env, extras)[i].relative
    {
      if c.relative == Collected(t, env, extras)[i].relative {
        CollectedScopeIsFirst(t, env, extras, i, c);
      }
    }
  }

  /** The excluded names are excluded from the fixed scopes only: an `--extra`
      pattern still collects such a file when no fixed scope claims its path. */
  lemma ExtraKeepsExcludedNames(t: FileTree, env: Env, extras: seq<string>, m: nat, p: Path)
    requires m < |extras| && Strip(extras[m], IsSpace) != []
    requires p in env.glob(Strip(extras[m], IsSpace))
    requires p in t && !StartsWith(AsPosix(p), ArchivesPrefix)
    requires forall c :: c in FixedClaims(t, env, |FixedScopes|) ==> c.relative != AsPosix(p)
    ensures exists i :: (0 <= i < |Collected(t, env, extras)| &&
      Collected(t, env, extras)[i].relative == AsPosix(p) && Collected(t, env, extras)[i].scope == Extra)
  {
    var files := Collected(t, env, extras);
    var claims := AllClaims(t, env, extras);
    var x := RuntimeFile(p, AsPosix(p), Extra);
    ClaimedByExtra(t, env.glob(Strip(extras[m], IsSpace)), p);
    ExtraClaimsInclude(t, env, extras, m);
    assert x in claims;
    CollectedFirstClaimant(t, env, extras);
    var i :| 0 <= i < |files| && files[i].relative == x.relative;
    var k := FirstClaimIsFirst(claims, files[i].relative);
    assert claims[k] in claims;
    assert files[i] !in FixedClaims(t, env, |FixedScopes|);
    ExtraClaimsAdmitted(t, env, extras);
    assert files[i] in ExtraClaims(t, env, extras);
  }

  lemma {:induction false} ClaimedByExtra(t: FileTree, hits: seq<Path>, p: Path)
    requires p in hits && Admitted(t, p, Extra)
    ensures RuntimeFile(p, AsPosix(p), Extra) in ClaimsOf(t, hits, Extra)
    decreases |hits|
  {
    if hits[|hits| - 1] != p {
      assert p in hits[..|hits| - 1] by {
        var j :| 0 <= j < |hits| && hits[j] == p;
        assert hits[..|hits| - 1][j] == p;
      }
      ClaimedByExtra(t, hits[..|hits| - 1], p);
    }
  }

  lemma {:induction false} ExtraClaimsInclude(t: FileTree, env: Env, extras: seq<string>, m: nat)
    requires m < |extras| && Strip(extras[m], IsSpace) != []
    ensures forall c :: c in ClaimsOf(t, env.glob(Strip(extras[m], IsSpace)), Extra) ==> c in ExtraClaims(t, env, extras)
    decreases |extras|
  {
    var init := extras[..|extras| - 1];
    if m < |extras| - 1 {
      assert init[m] == extras[m];
      ExtraClaimsInclude(t, env, init, m);
    }
  }

  // ---------------------------------------------------------------------------
  // runtime_scope_summary

  /** How many of `files` belong to `scope`. */
  function Count(files: seq<RuntimeFile>, scope: Scope): nat {
    if files == [] then 0
    else Count(files[..|files| - 1], scope) + (if files[|files| - 1].scope == scope then 1 else 0)
  }

  /** The summary as a map: the count of every scope that occurs. */
  function ScopeSummary(files: seq<RuntimeFile>): map<Scope, nat> {
    map s | s in AllScopes && Count(files, s) > 0 :: Count(files, s)
  }

  lemma EveryScopeListed(s: Scope)
    ensures s in AllScopes
  {
    assert AllScopes[Rank(s)] == s;
  }

  /** A map with the summary's counts is the summary. */
  lemma SummaryIsScopeSummary(files: seq<RuntimeFile>, summary: map<Scope, nat>)
    requires forall s :: s in summary <==> Count(files, s) > 0
    requires forall s :: s in summary ==> summary[s] == Count(files, s)
    ensures summary == ScopeSummary(files)
  {
    forall s
      ensures s in summary <==> s in ScopeSummary(files)
    {
      EveryScopeListed(s);
    }
  }

  /** `runtime_scope_summary(files)`: a count for every scope that occurs, and no
      entry for a scope that does not. */
  method RuntimeScopeSummary(files: seq<RuntimeFile>) returns (summary: map<Scope, nat>)
    ensures forall s :: s in summary <==> Count(files, s) > 0
    ensures forall s :: s in summary ==> summary[s] == Count(files, s)
  {
    summary := map[];
    for i := 0 to |files|
      invariant forall s :: s in summary <==> Count(files[..i], s) > 0
      invariant forall s :: s in summary ==> summary[s] == Count(files[..i], s)
    {
      var item := files[i];
      assert files[..i + 1][..i] == files[..i];
      summary := summary[item.scope := (if item.scope in summary then summary[item.scope] else 0) + 1];
    }
    assert files[..|files|] == files;
  }

  /** The per-scope counts add up to the number of files. */
  lemma {:induction false} CountsAddUp(files: seq<RuntimeFile>)
    ensures Count(files, Characters) + Count(files, SessionLogs) + Count(files, CombatLogs)
          + Count(files, ExplorationLogs) + Count(files, SystemLogs) + Count(files, Saves)
          + Count(files, Extra) == |files|
    decreases |files|
  {
    if files != [] {
      CountsAddUp(files[..|files| - 1]);
    }
  }
}
