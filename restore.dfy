/** Restoring a snapshot into the project: `cmd_restore` (saves/save_manager.py
    lines 547-636), with `safe_relative_path` and `remove_existing_path`. The plan
    is built and checked in full before the first file is touched. */
module Restore {
  import opened Outcome
  import opened Text
  import opened Chars
  import opened Paths
  import opened Tree
  import opened Json
  import opened Environment
  import opened Identifiers
  import opened ArchiveIndex
  import opened Manifests
  import opened Runs

  /** The options of `restore`. */
  datatype RestoreArgs = RestoreArgs(
    campaign: string,
    snapshot: Option<string>,
    force: bool,             // --force
    move: bool,              // --move-from-archive
    skipHashCheck: bool,     // --skip-hash-check
    dryRun: bool)            // --dry-run

  /** One entry of `restore_plan`: the path as recorded, the payload in the snapshot,
      the place in the project, and the digest the record promises (its `sha256`,
      as `str(...).strip()` reads it; empty when it promises none). */
  datatype Step = Step(relative: string, source: Path, target: Path, expected: string)

  /** `manifest_path.parent / "data"`. */
  function DataDirOf(manifestPath: Path): Path {
    if manifestPath == [] then ["data"] else manifestPath[..|manifestPath| - 1] + ["data"]
  }

  /** `str(record.get(key, "")).strip()`. */
  function TextField(env: Env, record: Fields, key: string): string {
    Strip(StrOf(env, Get(record, key, JStr(""))), IsSpace)
  }

  /** The digest a record promises; empty when it promises none. */
  function ExpectedHash(env: Env, record: Fields): string {
    TextField(env, record, "sha256")
  }

  /** `list(manifest.get("files", []))` for a manifest that must be a `dict`. A list
      gives its items; an empty string or object gives nothing; a non-empty string or
      object gives strings, on which the planning loop's first `record.get` raises;
      `None`, booleans and numbers cannot be listed. */
  function ManifestRecords(manifest: Json): (r: Result<seq<Json>>)
    ensures r.Err? ==> r.error == Uncaught
    ensures r.Ok? ==> manifest.JObj?
    ensures manifest.JObj? && Get(manifest.fields, "files", JArr([])).JArr? ==>
      r == Ok(Get(manifest.fields, "files", JArr([])).items)
    ensures manifest.JObj? ==> var files := Get(manifest.fields, "files", JArr([]));
      && (files == JStr("") || files == JObj(map[]) ==> r == Ok([]))
      && (!files.JArr? && files != JStr("") && files != JObj(map[]) ==> r == Err(Uncaught))
  {
    if !manifest.JObj? then Err(Uncaught)
    else
      match Get(manifest.fields, "files", JArr([]))
      case JArr(items) => Ok(items)
      case JStr(s) => if s == [] then Ok([]) else Err(Uncaught)
      case JObj(f) => if f == map[] then Ok([]) else Err(Uncaught)
      case _ => Err(Uncaught)
  }

  /** One turn of the planning loop: the record must be a `dict`, and its
      `relative_path`, stripped, must pass `safe_relative_path`; the payload lies at
      that path below the data directory and the target at that path below the root. */
  function PlanStep(env: Env, dataDir: Path, record: Json): (r: Result<Step>)
    ensures r.Err? ==> r.error == PathTraversal || r.error == Uncaught
  {
    if !record.JObj? then Err(Uncaught)
    else
      var relative := TextField(env, record.fields, "relative_path");
      var rel :- SafeRelativePath(relative);
      Ok(Step(relative, dataDir + rel, rel, ExpectedHash(env, record.fields)))
  }

  /** A record is planned exactly when it is a `dict` whose path is neither absolute
      nor holds a `..` part (nor names the root itself); its target is that path
      below the root, and its payload that path below the data directory. */
  lemma PlanStepShape(env: Env, dataDir: Path, record: Json)
    ensures var r := PlanStep(env, dataDir, record);
      && (r.Ok? <==> record.JObj? && SafeRelativePath(TextField(env, record.fields, "relative_path")).Ok?)
      && (r.Err? ==> r.error == if record.JObj? then PathTraversal else Uncaught)
    ensures var r := PlanStep(env, dataDir, record);
      r.Ok? ==>
        && r.value.relative == TextField(env, record.fields, "relative_path")
        && !StartsWith(r.value.relative, "/") && ".." !in Parts(r.value.relative)
        && r.value.target != [] && Canonical(r.value.target)
        && r.value.source == dataDir + r.value.target
        && r.value.expected == ExpectedHash(env, record.fields)
  {
  }

  /** `PlanStep` for one data directory, as a function of the record. */
  function Planner(env: Env, dataDir: Path): Json -> Result<Step> {
    (record: Json) => PlanStep(env, dataDir, record)
  }

  /** The planning loop over all records; it stops at the first record it cannot plan. */
  function PlanOf(env: Env, dataDir: Path, records: seq<Json>): (r: Result<seq<Step>>)
    ensures r.Ok? ==> |r.value| == |records|
  {
    MapAll(Planner(env, dataDir), records)
  }

  /** The plan holds one step per record, planned from that record, and it exists
      exactly when every record can be planned. */
  lemma PlanOfSteps(env: Env, dataDir: Path, records: seq<Json>)
    ensures PlanOf(env, dataDir, records).Ok? <==>
      forall i :: 0 <= i < |records| ==> PlanStep(env, dataDir, records[i]).Ok?
    ensures PlanOf(env, dataDir, records).Ok? ==>
      forall i :: 0 <= i < |records| ==> PlanStep(env, dataDir, records[i]) == Ok(PlanOf(env, dataDir, records).value[i])
  {
    MapAllOk(Planner(env, dataDir), records);
  }

  /** The first record that cannot be planned decides the error. */
  lemma PlanOfFirstError(env: Env, dataDir: Path, records: seq<Json>, i: nat)
    requires i < |records|
    requires forall j :: 0 <= j < i ==> PlanStep(env, dataDir, records[j]).Ok?
    requires PlanStep(env, dataDir, records[i]).Err?
    ensures PlanOf(env, dataDir, records) == Err(PlanStep(env, dataDir, records[i]).error)
  {
    MapAllFirstError(Planner(env, dataDir), records, i);
  }

  /** `missing_sources`: the recorded paths whose payload does not exist, in plan order. */
  function MissingSources(t: FileTree, plan: seq<Step>): (r: seq<string>)
    ensures r == [] <==> forall i :: 0 <= i < |plan| ==> Exists(t, plan[i].source)
    ensures |r| <= |plan|
    decreases |plan|
  {
    if plan == [] then []
    else
      var last := plan[|plan| - 1];
      assert forall i :: 0 <= i < |plan| - 1 ==> plan[..|plan| - 1][i] == plan[i];
      MissingSources(t, plan[..|plan| - 1]) + (if Exists(t, last.source) then [] else [last.relative])
  }

  /** `collisions`: the recorded paths whose target already exists, in plan order. */
  function Collisions(t: FileTree, plan: seq<Step>): (r: seq<string>)
    ensures r == [] <==> forall i :: 0 <= i < |plan| ==> !Exists(t, plan[i].target)
    ensures |r| <= |plan|
    decreases |plan|
  {
    if plan == [] then []
    else
      var last := plan[|plan| - 1];
      assert forall i :: 0 <= i < |plan| - 1 ==> plan[..|plan| - 1][i] == plan[i];
      Collisions(t, plan[..|plan| - 1]) + (if Exists(t, last.target) then [last.relative] else [])
  }

  /** `os.path.basename`. */
  function Basename(p: Path): string {
    if p == [] then "" else p[|p| - 1]
  }

  /** Where `shutil.move` and `shutil.copy2` put the file: into an existing directory
      under its own name, and otherwise at the target itself. */
  function Destination(t: FileTree, source: Path, target: Path): Path {
    if IsDir(t, target) then target + [Basename(source)] else target
  }

  /** `shutil.move(source, target)` or `shutil.copy2(source, target)` for a payload
      that is a regular file. A move into a directory refuses to replace an entry of
      it; a copy cannot open a directory for writing, nor copy a file onto itself.
      Both keep the bytes and the modification time. */
  function Relocate(t: FileTree, source: Path, target: Path, move: bool): (r: Result<FileTree>)
    ensures r.Err? ==> r.error == Uncaught
    ensures r.Ok? ==> source in t
    ensures r.Ok? ==> var dest := Destination(t, source, target);
      && dest in r.value && r.value[dest] == t[source]
      && (dest != source ==> (source in r.value <==> !move))
      && (forall q :: q != dest && q != source ==> (q in r.value <==> q in t) && (q in t ==> r.value[q] == t[q]))
  {
    if source !in t then Err(Uncaught)
    else
      var dest := Destination(t, source, target);
      if move then
        if IsDir(t, target) && Exists(t, dest) then Err(Uncaught)
        else Ok((t - {source})[dest := t[source]])
      else if IsDir(t, dest) || dest == source then Err(Uncaught)
      else Ok(t[dest := t[source]])
  }

  /** `remove_existing_path(target)` under `--force`, when the target exists. */
  function Cleared(t: FileTree, target: Path, force: bool): (r: FileTree)
    ensures target != [] && force ==> !Exists(r, target)
    ensures forall q :: !Under(target, q) ==> (q in r <==> q in t) && (q in r ==> r[q] == t[q])
    ensures forall q :: q in r ==> q in t
  {
    if force && Exists(t, target) then
      assert target != [] ==> !Exists(RemoveTree(t, target), target) by {
        if target != [] {
          RemoveTreeGone(t, target);
        }
      }
      RemoveTree(t, target)
    else t
  }

  /** One turn of the restore loop: make the target's parent directories, clear the
      target under `--force`, move or copy the payload, and compare the digest of the
      target with the record's `sha256` unless `--skip-hash-check` is given or the
      record has none. A failure leaves the tree as far as the turn got. */
  function RestoreStep(cur: FileTree, env: Env, step: Step, args: RestoreArgs): (r: Progress<()>)
    ensures r.out.Err? ==> r.out.error == Uncaught || r.out.error == IntegrityViolation
    ensures r.out.Ok? && !args.skipHashCheck && step.expected != [] ==>
      step.target in r.tree && env.digest(r.tree[step.target].data) == step.expected
    ensures r.out == Err(IntegrityViolation) ==>
      && !args.skipHashCheck && step.expected != []
      && step.target in r.tree && env.digest(r.tree[step.target].data) != step.expected
  {
    if BlockedByFile(cur, step.target) then Progress(cur, Err(Uncaught))
    else
      var cleared := Cleared(cur, step.target, args.force);
      match Relocate(cleared, step.source, step.target, args.move)
      case Err(e) => Progress(cleared, Err(e))
      case Ok(moved) =>
        var expected := step.expected;
        if args.skipHashCheck || expected == [] then Progress(moved, Ok(()))
        else if step.target !in moved then Progress(moved, Err(Uncaught))
        else if env.digest(moved[step.target].data) != expected then Progress(moved, Err(IntegrityViolation))
        else Progress(moved, Ok(()))
  }

  /** The restore loop over the plan, counting `restored`; it stops at the first
      turn that raises. */
  function RestoreAll(t: FileTree, env: Env, steps: seq<Step>, args: RestoreArgs): (r: Progress<nat>)
    ensures r.out.Ok? ==> r.out.value == |steps|
    ensures r.out.Err? ==> r.out.error == Uncaught || r.out.error == IntegrityViolation
    decreases |steps|
  {
    if steps == [] then Progress(t, Ok(0))
    else
      var done := RestoreAll(t, env, steps[..|steps| - 1], args);
      if done.out.Err? then done
      else
        var last := RestoreStep(done.tree, env, steps[|steps| - 1], args);
        match last.out
        case Err(e) => Progress(last.tree, Err(e))
        case Ok(_) => Progress(last.tree, Ok(done.out.value + 1))
  }

  /** Once a turn has raised, the later turns do not run. */
  lemma {:induction false} RestoreAllStops(t: FileTree, env: Env, steps: seq<Step>, args: RestoreArgs, k: nat)
    requires k <= |steps|
    requires RestoreAll(t, env, steps[..k], args).out.Err?
    ensures RestoreAll(t, env, steps, args) == RestoreAll(t, env, steps[..k], args)
    decreases |steps| - k
  {
    if k < |steps| {
      var next := steps[..k + 1];
      assert next[..|next| - 1] == steps[..k];
      RestoreAllStops(t, env, steps, args, k + 1);
    } else {
      assert steps[..k] == steps;
    }
  }

  /** The targets of a plan. */
  function Targets(steps: seq<Step>): (r: seq<Path>)
    ensures |r| == |steps| && forall i :: 0 <= i < |steps| ==> r[i] == steps[i].target
  {
    seq(|steps|, i requires 0 <= i < |steps| => steps[i].target)
  }

  /** The plan's payloads are distinct files of the project, its targets are not the
      root, no target lies below another, and no target is a payload or lies above
      one. */
  ghost predicate Separate(t: FileTree, steps: seq<Step>) {
    && (forall i :: 0 <= i < |steps| ==> steps[i].source in t && steps[i].target != [])
    && (forall i, j :: 0 <= i < |steps| && 0 <= j < |steps| && i != j ==>
          steps[i].source != steps[j].source && !Under(steps[i].target, steps[j].target))
    && (forall i, j :: 0 <= i < |steps| && 0 <= j < |steps| ==> !Under(steps[i].target, steps[j].source))
  }

  /** Without `--force`, no target exists yet. */
  predicate Vacant(t: FileTree, steps: seq<Step>, force: bool) {
    forall i :: 0 <= i < |steps| ==> force || !Exists(t, steps[i].target)
  }

  /** `q` lies below no target and, when moving, is no payload. */
  predicate Untouched(steps: seq<Step>, q: Path, move: bool) {
    forall i :: 0 <= i < |steps| ==> !Under(steps[i].target, q) && (move ==> q != steps[i].source)
  }

  /** What one successful turn does: the target holds the payload's file, a move
      takes the payload away and a copy leaves it, and nothing outside the target and
      the payload changes. */
  ghost predicate Effect(cur: FileTree, r: FileTree, source: Path, target: Path, move: bool) {
    && source in cur && target in r && r[target] == cur[source]
    && (source in r <==> !move)
    && (source in r ==> r[source] == cur[source])
    && (forall q :: !Under(target, q) && q != source ==> (q in r <==> q in cur) && (q in r ==> r[q] == cur[q]))
    && (forall q :: q in r ==> q in cur || q == target)
  }

  /** A turn whose payload is a file, whose target is not above the payload, and whose
      target is free unless `--force` clears it, ends with the payload at the target. */
  lemma StepEffect(cur: FileTree, env: Env, step: Step, args: RestoreArgs)
    requires step.source in cur && step.target != [] && !Under(step.target, step.source)
    requires args.force || !Exists(cur, step.target)
    requires RestoreStep(cur, env, step, args).out.Ok?
    ensures Effect(cur, RestoreStep(cur, env, step, args).tree, step.source, step.target, args.move)
  {
    var cleared := Cleared(cur, step.target, args.force);
    assert !IsDir(cleared, step.target);
    assert Destination(cleared, step.source, step.target) == step.target;
    var moved := Relocate(cleared, step.source, step.target, args.move);
    assert moved.Ok?;
    assert RestoreStep(cur, env, step, args).tree == moved.value;
  }

  /** The first `k` targets hold their payloads' files. */
  ghost predicate Landed(t: FileTree, cur: FileTree, steps: seq<Step>, k: nat) {
    forall i :: 0 <= i < k && i < |steps| ==>
      steps[i].source in t && steps[i].target in cur && cur[steps[i].target] == t[steps[i].source]
  }

  /** When moving, the first `k` payloads are gone. */
  ghost predicate Taken(cur: FileTree, steps: seq<Step>, k: nat, move: bool) {
    move ==> forall i :: 0 <= i < k && i < |steps| ==> steps[i].source !in cur
  }

  /** The payloads from the `k`-th on are still in place and unchanged. */
  ghost predicate Waiting(t: FileTree, cur: FileTree, steps: seq<Step>, k: nat) {
    forall j :: k <= j < |steps| ==>
      steps[j].source in t && steps[j].source in cur && cur[steps[j].source] == t[steps[j].source]
  }

  /** Without `--force`, the targets from the `k`-th on do not exist yet. */
  ghost predicate Free(cur: FileTree, steps: seq<Step>, k: nat, force: bool) {
    forall j :: k <= j < |steps| ==> force || !Exists(cur, steps[j].target)
  }

  /** Every file the plan does not touch is as it was. */
  ghost predicate Kept(t: FileTree, cur: FileTree, steps: seq<Step>, move: bool) {
    forall q :: q in t && Untouched(steps, q, move) ==> q in cur && cur[q] == t[q]
  }

  /** Every file is an original one or a target. */
  ghost predicate Confined(t: FileTree, cur: FileTree, steps: seq<Step>) {
    forall q :: q in cur ==> q in t || q in Targets(steps)
  }

  /** Unless the check is skipped, the first `k` targets that promise a digest have it. */
  ghost predicate Checked(env: Env, cur: FileTree, steps: seq<Step>, k: nat, skip: bool) {
    !skip ==> forall i :: 0 <= i < k && i < |steps| && steps[i].expected != [] ==>
      steps[i].target in cur && env.digest(cur[steps[i].target].data) == steps[i].expected
  }

  /** The state after the first `k` turns. */
  ghost predicate Progressed(t: FileTree, cur: FileTree, env: Env, steps: seq<Step>, k: nat, args: RestoreArgs) {
    && k <= |steps|
    && Landed(t, cur, steps, k) && Taken(cur, steps, k, args.move) && Waiting(t, cur, steps, k)
    && Free(cur, steps, k, args.force) && Kept(t, cur, steps, args.move) && Confined(t, cur, steps)
    && Checked(env, cur, steps, k, args.skipHashCheck)
  }

  lemma LandedStep(t: FileTree, cur: FileTree, r: FileTree, steps: seq<Step>, k: nat, move: bool)
    requires k < |steps| && Separate(t, steps)
    requires Landed(t, cur, steps, k) && Waiting(t, cur, steps, k)
    requires Effect(cur, r, steps[k].source, steps[k].target, move)
    ensures Landed(t, r, steps, k + 1)
  {
    forall i | 0 <= i < k
      ensures steps[i].target in r && r[steps[i].target] == cur[steps[i].target]
    {
      assert !Under(steps[k].target, steps[i].target);
      assert !Under(steps[i].target, steps[k].source);
    }
  }

  lemma TakenStep(t: FileTree, cur: FileTree, r: FileTree, steps: seq<Step>, k: nat, move: bool)
    requires k < |steps| && Separate(t, steps)
    requires Taken(cur, steps, k, move)
    requires Effect(cur, r, steps[k].source, steps[k].target, move)
    ensures Taken(r, steps, k + 1, move)
  {
    if move {
      forall i | 0 <= i < k
        ensures steps[i].source !in r
      {
        assert !Under(steps[k].target, steps[i].source);
        assert steps[i].source != steps[k].source;
      }
    }
  }

  lemma WaitingStep(t: FileTree, cur: FileTree, r: FileTree, steps: seq<Step>, k: nat, move: bool)
    requires k < |steps| && Separate(t, steps)
    requires Waiting(t, cur, steps, k)
    requires Effect(cur, r, steps[k].source, steps[k].target, move)
    ensures Waiting(t, r, steps, k + 1)
  {
    forall j | k + 1 <= j < |steps|
      ensures steps[j].source in r && r[steps[j].source] == cur[steps[j].source]
    {
      assert !Under(steps[k].target, steps[j].source);
      assert steps[j].source != steps[k].source;
    }
  }

  lemma FreeStep(t: FileTree, cur: FileTree, r: FileTree, steps: seq<Step>, k: nat, args: RestoreArgs)
    requires k < |steps| && Separate(t, steps)
    requires Free(cur, steps, k, args.force)
    requires Effect(cur, r, steps[k].source, steps[k].target, args.move)
    ensures Free(r, steps, k + 1, args.force)
  {
    if !args.force {
      forall j | k + 1 <= j < |steps|
        ensures !Exists(r, steps[j].target)
      {
        var target := steps[j].target;
        assert !Exists(cur, target);
        assert !Under(steps[k].target, target) && !Under(target, steps[k].target);
        forall q | q in r
          ensures q != target && !(|target| < |q| && q[..|target|] == target)
        {
          assert q in cur || q == steps[k].target;
        }
      }
    }
  }

  lemma KeptStep(t: FileTree, cur: FileTree, r: FileTree, steps: seq<Step>, k: nat, move: bool)
    requires k < |steps|
    requires Kept(t, cur, steps, move)
    requires Effect(cur, r, steps[k].source, steps[k].target, move)
    ensures Kept(t, r, steps, move)
  {
    forall q | q in t && Untouched(steps, q, move)
      ensures q in r && r[q] == t[q]
    {
      assert !Under(steps[k].target, q) && (move ==> q != steps[k].source);
    }
  }

  lemma ConfinedStep(t: FileTree, cur: FileTree, r: FileTree, steps: seq<Step>, k: nat, move: bool)
    requires k < |steps|
    requires Confined(t, cur, steps)
    requires Effect(cur, r, steps[k].source, steps[k].target, move)
    ensures Confined(t, r, steps)
  {
    assert Targets(steps)[k] == steps[k].target;
  }

  lemma CheckedStep(t: FileTree, env: Env, cur: FileTree, r: FileTree, steps: seq<Step>, k: nat, args: RestoreArgs)
    requires k < |steps| && Separate(t, steps)
    requires Checked(env, cur, steps, k, args.skipHashCheck)
    requires Effect(cur, r, steps[k].source, steps[k].target, args.move)
    requires !args.skipHashCheck && steps[k].expected != [] ==>
      steps[k].target in r && env.digest(r[steps[k].target].data) == steps[k].expected
    ensures Checked(env, r, steps, k + 1, args.skipHashCheck)
  {
    forall i | 0 <= i < k
      ensures steps[i].target in cur ==> steps[i].target in r && r[steps[i].target] == cur[steps[i].target]
    {
      assert !Under(steps[k].target, steps[i].target);
      assert !Under(steps[i].target, steps[k].source);
    }
  }

  /** One more successful turn keeps the state described. */
  lemma ProgressStep(t: FileTree, cur: FileTree, env: Env, steps: seq<Step>, k: nat, args: RestoreArgs)
    requires k < |steps| && Separate(t, steps)
    requires Progressed(t, cur, env, steps, k, args)
    requires RestoreStep(cur, env, steps[k], args).out.Ok?
    ensures Progressed(t, RestoreStep(cur, env, steps[k], args).tree, env, steps, k + 1, args)
  {
    var step := steps[k];
    var r := RestoreStep(cur, env, step, args).tree;
    assert step.source in cur;
    assert !Under(step.target, step.source);
    StepEffect(cur, env, step, args);
    LandedStep(t, cur, r, steps, k, args.move);
    TakenStep(t, cur, r, steps, k, args.move);
    WaitingStep(t, cur, r, steps, k, args.move);
    FreeStep(t, cur, r, steps, k, args);
    KeptStep(t, cur, r, steps, k, args.move);
    ConfinedStep(t, cur, r, steps, k, args.move);
    CheckedStep(t, env, cur, r, steps, k, args);
  }

  /** After the first `k` turns of a plan that keeps apart, the state is described. */
  lemma {:induction false} RestorePrefix(t: FileTree, env: Env, steps: seq<Step>, args: RestoreArgs, k: nat)
    requires k <= |steps| && Separate(t, steps) && Vacant(t, steps, args.force)
    requires RestoreAll(t, env, steps[..k], args).out.Ok?
    ensures Progressed(t, RestoreAll(t, env, steps[..k], args).tree, env, steps, k, args)
  {
    if k == 0 {
      assert RestoreAll(t, env, steps[..k], args).tree == t;
    } else {
      var prefix := steps[..k];
      assert prefix[..k - 1] == steps[..k - 1];
      var done := RestoreAll(t, env, steps[..k - 1], args);
      RestorePrefix(t, env, steps, args, k - 1);
      ProgressStep(t, done.tree, env, steps, k - 1, args);
    }
  }

  /** The outcome of a restore that succeeded. */
  ghost predicate RestoredState(t: FileTree, r: FileTree, env: Env, steps: seq<Step>, args: RestoreArgs) {
    && (forall i :: 0 <= i < |steps| ==>
          steps[i].source in t && steps[i].target in r && r[steps[i].target] == t[steps[i].source])
    && (args.move ==> forall i :: 0 <= i < |steps| ==> steps[i].source !in r)
    && (!args.move ==> forall i :: 0 <= i < |steps| ==>
          steps[i].source in t && steps[i].source in r && r[steps[i].source] == t[steps[i].source])
    && (forall q :: q in t && Untouched(steps, q, args.move) ==> q in r && r[q] == t[q])
    && (forall q :: q in r ==> q in t || q in Targets(steps))
    && (!args.skipHashCheck ==> forall i :: 0 <= i < |steps| && steps[i].expected != [] ==>
          steps[i].target in r && env.digest(r[steps[i].target].data) == steps[i].expected)
  }

  /** A restore loop that runs to the end over a plan that keeps apart puts every
      payload's file at its target, removes the payloads when moving and keeps them
      when copying, changes no other file, adds no file but the targets, and leaves
      every target with the digest its record promises. */
  lemma RestoreAllPlaces(t: FileTree, env: Env, steps: seq<Step>, args: RestoreArgs)
    requires Separate(t, steps) && Vacant(t, steps, args.force)
    requires RestoreAll(t, env, steps, args).out.Ok?
    ensures RestoredState(t, RestoreAll(t, env, steps, args).tree, env, steps, args)
  {
    assert steps[..|steps|] == steps;
    RestorePrefix(t, env, steps, args, |steps|);
    var r := RestoreAll(t, env, steps, args).tree;
    if !args.move {
      forall i | 0 <= i < |steps|
        ensures steps[i].source in r && r[steps[i].source] == t[steps[i].source]
      {
        var q := steps[i].source;
        assert Untouched(steps, q, false);
      }
    }
  }

  /** Everything after planning: refuse when a payload is missing, refuse on
      collisions without `--force`, stop after the report on `--dry-run`, and
      otherwise restore. An empty snapshot ends at once. */
  function Carried(t: FileTree, env: Env, args: RestoreArgs, plan: seq<Step>): (r: Run)
    ensures r.status == Exited(1) <==>
      plan != [] && (MissingSources(t, plan) != [] || (!args.force && Collisions(t, plan) != []))
    ensures r.status.Exited? ==> r.status.code == 0 || r.status.code == 1
    ensures r.status.Raised? ==> r.status.error == Uncaught || r.status.error == IntegrityViolation
    ensures r.tree != t ==>
      && MissingSources(t, plan) == [] && (args.force || Collisions(t, plan) == [])
      && !args.dryRun && plan != []
    ensures r.status == Exited(1) || args.dryRun ==> r.tree == t
  {
    if plan == [] then Run(Exited(0), t)
    else if MissingSources(t, plan) != [] then Run(Exited(1), t)
    else if Collisions(t, plan) != [] && !args.force then Run(Exited(1), t)
    else if args.dryRun then Run(Exited(0), t)
    else
      var done := RestoreAll(t, env, plan, args);
      match done.out
      case Err(e) => Run(Raised(e), done.tree)
      case Ok(_) => Run(Exited(0), done.tree)
  }

  /** Read the manifest, check the data directory, list the records and plan them. */
  function Planned(t: FileTree, env: Env, manifestPath: Path): (r: Result<seq<Step>>)
    ensures r.Ok? ==> Exists(t, DataDirOf(manifestPath))
    ensures r.Ok? ==> forall i :: 0 <= i < |r.value| ==>
      && r.value[i].target != [] && Canonical(r.value[i].target)
      && r.value[i].source == DataDirOf(manifestPath) + r.value[i].target
  {
    var manifest :- ReadManifest(t, env, manifestPath);
    var dataDir := DataDirOf(manifestPath);
    if !Exists(t, dataDir) then Err(DataDirMissing)
    else
      var records :- ManifestRecords(manifest);
      PlanOfSteps(env, dataDir, records);
      PlanOf(env, dataDir, records)
  }

  /** `cmd_restore` from the resolved manifest on. */
  function RestoredFrom(t: FileTree, env: Env, args: RestoreArgs, manifestPath: Path): (r: Run)
    ensures Planned(t, env, manifestPath).Err? ==> r == Run(Raised(Planned(t, env, manifestPath).error), t)
    ensures Planned(t, env, manifestPath).Ok? ==> r == Carried(t, env, args, Planned(t, env, manifestPath).value)
    ensures r.status.Raised? && r.status.error != Uncaught && r.status.error != IntegrityViolation ==> r.tree == t
    ensures r.status == Exited(1) || args.dryRun ==> r.tree == t
  {
    match Planned(t, env, manifestPath)
    case Err(e) => Run(Raised(e), t)
    case Ok(plan) => Carried(t, env, args, plan)
  }

  /** `normalize_snapshot_id(args.snapshot) if args.snapshot else None`. */
  function SnapshotArg(env: Env, snapshot: Option<string>): (r: Result<Option<string>>)
    ensures snapshot == None || snapshot == Some("") ==> r == Ok(None)
    ensures r.Ok? && r.value.Some? ==> ValidSnapshotId(r.value.value)
    ensures r.Err? ==> r.error == EmptyIdentifier
  {
    if snapshot == None || snapshot == Some("") then Ok(None)
    else
      var id :- NormalizeSnapshotId(snapshot, env.clock.stamp);
      Ok(Some(id))
  }

  /** `cmd_restore(args)`. Every failure other than one raised while files are being
      moved or copied leaves the project as it was: bad identifiers, an unknown
      campaign or snapshot, an unreadable manifest, a missing data directory and a
      path that escapes the project are all detected before anything changes; so
      are a missing payload and a collision without `--force`, and a dry run
      changes nothing. */
  function Restored(t: FileTree, env: Env, args: RestoreArgs): (r: Run)
    ensures r.status.Raised? && r.status.error != Uncaught && r.status.error != IntegrityViolation ==> r.tree == t
    ensures r.status == Exited(1) || args.dryRun ==> r.tree == t
  {
    match NormalizeCampaignId(args.campaign)
    case Err(e) => Run(Raised(e), t)
    case Ok(campaign) =>
      match SnapshotArg(env, args.snapshot)
      case Err(e) => Run(Raised(e), t)
      case Ok(snapshot) =>
        match Resolved(t, env, campaign, snapshot)
        case Err(e) => Run(Raised(e), t)
        case Ok(path) => RestoredFrom(t, env, args, path)
  }

  /** A restore of a plan that keeps apart, reported as a success, has done what the
      restore loop promises (see `RestoreAllPlaces`): the checks before the loop rule
      out missing payloads, and collisions without `--force`. */
  lemma RestorePlaces(t: FileTree, env: Env, args: RestoreArgs, manifestPath: Path)
    requires !args.dryRun
    requires Planned(t, env, manifestPath).Ok? && Separate(t, Planned(t, env, manifestPath).value)
    requires RestoredFrom(t, env, args, manifestPath).status == Exited(0)
    ensures RestoredState(t, RestoredFrom(t, env, args, manifestPath).tree, env, Planned(t, env, manifestPath).value, args)
  {
    var plan := Planned(t, env, manifestPath).value;
    if plan != [] {
      assert MissingSources(t, plan) == [];
      assert args.force || Collisions(t, plan) == [];
      assert Vacant(t, plan, args.force);
      RestoreAllPlaces(t, env, plan, args);
    }
  }

  /** A record whose path is absolute or climbs out with `..` stops the restore with
      `ValueError`, before any file changes, once the records before it are planned. */
  lemma TraversalRefused(t: FileTree, env: Env, args: RestoreArgs, manifestPath: Path, records: seq<Json>, i: nat)
    requires ReadManifest(t, env, manifestPath).Ok? && Exists(t, DataDirOf(manifestPath))
    requires ManifestRecords(ReadManifest(t, env, manifestPath).value) == Ok(records)
    requires i < |records| && records[i].JObj?
    requires var relative := TextField(env, records[i].fields, "relative_path");
      StartsWith(relative, "/") || ".." in Parts(relative)
    requires forall j :: 0 <= j < i ==> PlanStep(env, DataDirOf(manifestPath), records[j]).Ok?
    ensures RestoredFrom(t, env, args, manifestPath) == Run(Raised(PathTraversal), t)
  {
    PlanStepShape(env, DataDirOf(manifestPath), records[i]);
    PlanOfFirstError(env, DataDirOf(manifestPath), records, i);
  }

  /** A restore that raises `IntegrityViolation` does so for a target whose digest
      differs from the one its record promises, and that target stays as restored. */
  lemma {:induction false} IntegrityRaised(t: FileTree, env: Env, steps: seq<Step>, args: RestoreArgs)
    requires RestoreAll(t, env, steps, args).out == Err(IntegrityViolation)
    ensures !args.skipHashCheck
    ensures var r := RestoreAll(t, env, steps, args).tree;
      exists i :: 0 <= i < |steps| && steps[i].expected != [] &&
        steps[i].target in r && env.digest(r[steps[i].target].data) != steps[i].expected
    decreases |steps|
  {
    var n := |steps| - 1;
    var init := steps[..n];
    var done := RestoreAll(t, env, init, args);
    if done.out.Err? {
      IntegrityRaised(t, env, init, args);
      var i :| 0 <= i < n && init[i].expected != [] &&
        init[i].target in done.tree && env.digest(done.tree[init[i].target].data) != init[i].expected;
      assert steps[i] == init[i];
    } else {
      assert steps[n].expected != [];
    }
  }

  /** `safe_relative_path` as written, in the planning loop. */
  function PlanStepAsWritten(env: Env, dataDir: Path, record: Json): (r: Result<Step>)
    ensures r.Ok? ==> r.value.source == dataDir + r.value.target
  {
    if !record.JObj? then Err(Uncaught)
    else
      var relative := TextField(env, record.fields, "relative_path");
      var rel :- SafeRelativePathAsWritten(relative);
      Ok(Step(relative, dataDir + rel, rel, ExpectedHash(env, record.fields)))
  }

  /** As written, a record without `relative_path` plans the project root itself as
      its target: the root always exists, so without `--force` the restore refuses,
      and with `--force` the first turn removes every file of the project, the
      snapshot included, and then fails to find its payload. */
  lemma RestoreAsWrittenWipes(t: FileTree, env: Env, dataDir: Path, args: RestoreArgs)
    requires args.force
    ensures var r := PlanStepAsWritten(env, dataDir, JObj(map[]));
      r.Ok? && r.value.relative == "" && r.value.target == [] && r.value.source == dataDir
    ensures Exists(t, [])
    ensures forall expected :: RestoreStep(t, env, Step("", dataDir, [], expected), args) == Progress(map[], Err(Uncaught))
  {
    PlanRootAsWritten(env, dataDir);
    forall expected
      ensures RestoreStep(t, env, Step("", dataDir, [], expected), args) == Progress(map[], Err(Uncaught))
    {
      RootTurnWipes(t, env, Step("", dataDir, [], expected), args);
    }
  }

  lemma PlanRootAsWritten(env: Env, dataDir: Path)
    ensures var r := PlanStepAsWritten(env, dataDir, JObj(map[]));
      r.Ok? && r.value.relative == "" && r.value.target == [] && r.value.source == dataDir
  {
    AsWrittenPlans(env, dataDir, map[]);
    RelativeAbsent(env);
    AsWrittenAcceptsRoot();
    assert dataDir + [] == dataDir;
  }

  /** A record whose path passes the as-written check is planned from that path. */
  lemma AsWrittenPlans(env: Env, dataDir: Path, fields: Fields)
    ensures var relative := TextField(env, fields, "relative_path");
      var checked := SafeRelativePathAsWritten(relative);
      checked.Ok? ==>
        PlanStepAsWritten(env, dataDir, JObj(fields))
        == Ok(Step(relative, dataDir + checked.value, checked.value, ExpectedHash(env, fields)))
  {
  }

  /** A record without `relative_path` reads as the empty path. */
  lemma RelativeAbsent(env: Env)
    ensures TextField(env, map[], "relative_path") == ""
  {
    assert Get(map[], "relative_path", JStr("")) == JStr("");
  }

  /** A turn whose target is the root, under `--force`, removes every file first. */
  lemma RootTurnWipes(t: FileTree, env: Env, step: Step, args: RestoreArgs)
    requires args.force && step.target == []
    ensures RestoreStep(t, env, step, args) == Progress(map[], Err(Uncaught))
  {
    assert !BlockedByFile(t, []);
    assert Exists(t, []);
    var cleared := RemoveTree(t, []);
    assert forall q :: q !in cleared by {
      forall q ensures q !in cleared {
        assert Under([], q);
      }
    }
    assert cleared == map[];
  }

  /** `PlanStepAsWritten` for one data directory, as a function of the record. */
  function PlannerAsWritten(env: Env, dataDir: Path): Json -> Result<Step> {
    (record: Json) => PlanStepAsWritten(env, dataDir, record)
  }

  /** The planning loop as written. */
  function PlanOfAsWritten(env: Env, dataDir: Path, records: seq<Json>): (r: Result<seq<Step>>)
    ensures r.Ok? ==> |r.value| == |records|
  {
    MapAll(PlannerAsWritten(env, dataDir), records)
  }

  /** The record is a `dict` whose path, stripped, names the root. */
  predicate NamesRoot(env: Env, record: Json) {
    record.JObj? && SafeRelativePathAsWritten(TextField(env, record.fields, "relative_path")) == Ok([])
  }

  /** The two checks plan a record differently exactly when it names the root: as
      written it is planned with the root as its target, as intended it is refused. */
  lemma PlanStepAgrees(env: Env, dataDir: Path, record: Json)
    ensures !NamesRoot(env, record) ==> PlanStep(env, dataDir, record) == PlanStepAsWritten(env, dataDir, record)
    ensures NamesRoot(env, record) ==>
      && PlanStep(env, dataDir, record) == Err(PathTraversal)
      && PlanStepAsWritten(env, dataDir, record).Ok?
      && PlanStepAsWritten(env, dataDir, record).value.target == []
      && PlanStepAsWritten(env, dataDir, record).value.source == dataDir
  {
    if record.JObj? {
      FieldsAgree(env, dataDir, record.fields);
    }
  }

  /** `PlanStepAgrees` for a record that is a `dict`. */
  lemma FieldsAgree(env: Env, dataDir: Path, fields: Fields)
    ensures var checked := SafeRelativePathAsWritten(TextField(env, fields, "relative_path"));
      && (checked != Ok([]) ==> PlanStep(env, dataDir, JObj(fields)) == PlanStepAsWritten(env, dataDir, JObj(fields)))
      && (checked == Ok([]) ==>
            && PlanStep(env, dataDir, JObj(fields)) == Err(PathTraversal)
            && PlanStepAsWritten(env, dataDir, JObj(fields))
               == Ok(Step(TextField(env, fields, "relative_path"), dataDir, [], ExpectedHash(env, fields))))
  {
    var relative := TextField(env, fields, "relative_path");
    ChecksAgree(relative);
    AsWrittenPlans(env, dataDir, fields);
    assert dataDir + [] == dataDir;
  }

  /** Records none of which names the root are planned alike by both checks. */
  lemma {:induction false} PlanOfAgrees(env: Env, dataDir: Path, records: seq<Json>)
    requires forall i :: 0 <= i < |records| ==> !NamesRoot(env, records[i])
    ensures PlanOf(env, dataDir, records) == PlanOfAsWritten(env, dataDir, records)
    decreases |records|
  {
    if records != [] {
      var n := |records| - 1;
      PlanOfAgrees(env, dataDir, records[..n]);
      PlanStepAgrees(env, dataDir, records[n]);
    }
  }

  /** As written, a plan with a step for the root collides with the root, which
      always exists: without `--force` the restore returns 1 and changes nothing.
      With `--force`, when the root's step comes first and no payload is missing,
      the first turn removes every file of the project and then raises. */
  lemma RootStepAsWritten(t: FileTree, env: Env, args: RestoreArgs, plan: seq<Step>, k: nat)
    requires k < |plan| && plan[k].target == []
    ensures !args.force ==> Carried(t, env, args, plan) == Run(Exited(1), t)
    ensures args.force && !args.dryRun && k == 0 && MissingSources(t, plan) == [] ==>
      Carried(t, env, args, plan) == Run(Raised(Uncaught), map[])
  {
    assert Exists(t, plan[k].target);
    if args.force && k == 0 {
      var first := plan[..1];
      assert first[..0] == [];
      RootTurnWipes(t, env, plan[0], args);
      assert RestoreAll(t, env, first, args) == Progress(map[], Err(Uncaught));
      RestoreAllStops(t, env, plan, args, 1);
    }
  }

  /** As written, a manifest whose first record has no `relative_path` restores
      nothing: without `--force` it returns 1, and with `--force` it removes every
      file of the project, the snapshot included, and raises. */
  lemma RootRecordAsWritten(t: FileTree, env: Env, args: RestoreArgs, dataDir: Path, records: seq<Json>)
    requires records != [] && records[0] == JObj(map[])
    requires PlanOfAsWritten(env, dataDir, records).Ok?
    ensures var plan := PlanOfAsWritten(env, dataDir, records).value;
      && plan[0].target == [] && plan[0].source == dataDir
      && (!args.force ==> Carried(t, env, args, plan) == Run(Exited(1), t))
      && (args.force && !args.dryRun && MissingSources(t, plan) == [] ==>
            Carried(t, env, args, plan) == Run(Raised(Uncaught), map[]))
  {
    var plan := PlanOfAsWritten(env, dataDir, records).value;
    MapAllOk(PlannerAsWritten(env, dataDir), records);
    PlanRootAsWritten(env, dataDir);
    assert plan[0] == PlanStepAsWritten(env, dataDir, JObj(map[])).value;
    RootStepAsWritten(t, env, args, plan, 0);
  }

  /** `cmd_restore`'s planning as written: the manifest, the data directory, then
      every record with the check that lets the root through. */
  function PlannedAsWritten(t: FileTree, env: Env, manifestPath: Path): (r: Result<seq<Step>>)
    ensures r.Ok? ==> Exists(t, DataDirOf(manifestPath))
    ensures r.Ok? ==> forall i :: 0 <= i < |r.value| ==>
      r.value[i].source == DataDirOf(manifestPath) + r.value[i].target
  {
    var manifest :- ReadManifest(t, env, manifestPath);
    var dataDir := DataDirOf(manifestPath);
    if !Exists(t, dataDir) then Err(DataDirMissing)
    else
      var records :- ManifestRecords(manifest);
      MapAllOk(PlannerAsWritten(env, dataDir), records);
      PlanOfAsWritten(env, dataDir, records)
  }

  /** `cmd_restore` from the resolved manifest on, as written. */
  function RestoredFromAsWritten(t: FileTree, env: Env, args: RestoreArgs, manifestPath: Path): (r: Run)
    ensures r.status == Exited(1) || args.dryRun ==> r.tree == t
  {
    match PlannedAsWritten(t, env, manifestPath)
    case Err(e) => Run(Raised(e), t)
    case Ok(plan) => Carried(t, env, args, plan)
  }

  /** A manifest none of whose records names the root restores as written exactly as
      with the corrected check. */
  lemma RestoredFromAgrees(t: FileTree, env: Env, args: RestoreArgs, manifestPath: Path, records: seq<Json>)
    requires ReadManifest(t, env, manifestPath).Ok?
    requires ManifestRecords(ReadManifest(t, env, manifestPath).value) == Ok(records)
    requires forall i :: 0 <= i < |records| ==> !NamesRoot(env, records[i])
    ensures PlannedAsWritten(t, env, manifestPath) == Planned(t, env, manifestPath)
    ensures RestoredFromAsWritten(t, env, args, manifestPath) == RestoredFrom(t, env, args, manifestPath)
  {
    PlanOfAgrees(env, DataDirOf(manifestPath), records);
  }

  /** A manifest whose first record has no `relative_path`: as written, the restore
      returns 1 without `--force`, and with `--force` (payloads present) wipes the
      project; with the corrected check it raises a traversal error and changes
      nothing. */
  lemma RootManifestAsWritten(t: FileTree, env: Env, args: RestoreArgs, manifestPath: Path, records: seq<Json>)
    requires ReadManifest(t, env, manifestPath).Ok? && Exists(t, DataDirOf(manifestPath))
    requires ManifestRecords(ReadManifest(t, env, manifestPath).value) == Ok(records)
    requires records != [] && records[0] == JObj(map[])
    requires PlanOfAsWritten(env, DataDirOf(manifestPath), records).Ok?
    ensures RestoredFrom(t, env, args, manifestPath) == Run(Raised(PathTraversal), t)
    ensures !args.force ==> RestoredFromAsWritten(t, env, args, manifestPath) == Run(Exited(1), t)
    ensures args.force && !args.dryRun && MissingSources(t, PlannedAsWritten(t, env, manifestPath).value) == [] ==>
      RestoredFromAsWritten(t, env, args, manifestPath) == Run(Raised(Uncaught), map[])
  {
    var dataDir := DataDirOf(manifestPath);
    RootRecordAsWritten(t, env, args, dataDir, records);
    RestoreRefusesRoot(env, dataDir);
    assert records[..0] == [];
    PlanStopsAt(env, dataDir, records, 0);
  }

  /** With the check as intended, that record stops the restore before any change. */
  lemma RestoreRefusesRoot(env: Env, dataDir: Path)
    ensures PlanStep(env, dataDir, JObj(map[])) == Err(PathTraversal)
  {
    RelativeAbsent(env);
    SafeRelativePathRefusesRoot();
  }

  /** The plan of the records up to one that cannot be planned is that record's error. */
  lemma PlanStopsAt(env: Env, dataDir: Path, records: seq<Json>, i: nat)
    requires i < |records| && PlanOf(env, dataDir, records[..i]).Ok?
    requires PlanStep(env, dataDir, records[i]).Err?
    ensures PlanOf(env, dataDir, records) == Err(PlanStep(env, dataDir, records[i]).error)
  {
    var init := records[..i];
    PlanOfSteps(env, dataDir, init);
    assert forall j :: 0 <= j < i ==> init[j] == records[j];
    PlanOfFirstError(env, dataDir, records, i);
  }

  /** The plan of the records up to one more that can be planned grows by its step. */
  lemma PlanGrows(env: Env, dataDir: Path, records: seq<Json>, i: nat, steps: seq<Step>, s: Step)
    requires i < |records| && PlanOf(env, dataDir, records[..i]) == Ok(steps)
    requires PlanStep(env, dataDir, records[i]) == Ok(s)
    ensures PlanOf(env, dataDir, records[..i + 1]) == Ok(steps + [s])
  {
    MapAllSnoc(Planner(env, dataDir), records, i);
  }

  /** One more step adds its path to the lists it belongs to. */
  lemma FoundSnoc(t: FileTree, steps: seq<Step>, s: Step)
    ensures MissingSources(t, steps + [s]) == MissingSources(t, steps) + (if Exists(t, s.source) then [] else [s.relative])
    ensures Collisions(t, steps + [s]) == Collisions(t, steps) + (if Exists(t, s.target) then [s.relative] else [])
  {
    assert (steps + [s])[..|steps|] == steps;
  }

  /** One turn of the planning loop: the plan grows by the record's step, and the
      lists of missing payloads and collisions by its path where it belongs to them. */
  lemma PlanAdvance(t: FileTree, env: Env, dataDir: Path, records: seq<Json>, i: nat, steps: seq<Step>, s: Step)
    requires i < |records| && PlanOf(env, dataDir, records[..i]) == Ok(steps)
    requires PlanStep(env, dataDir, records[i]) == Ok(s)
    ensures PlanOf(env, dataDir, records[..i + 1]) == Ok(steps + [s])
    ensures MissingSources(t, steps + [s]) == MissingSources(t, steps) + (if Exists(t, s.source) then [] else [s.relative])
    ensures Collisions(t, steps + [s]) == Collisions(t, steps) + (if Exists(t, s.target) then [s.relative] else [])
  {
    PlanGrows(env, dataDir, records, i, steps, s);
    FoundSnoc(t, steps, s);
  }

  /** The planning loop of `cmd_restore`: the plan, with the missing payloads and the
      collisions it notes on the way. */
  method PlanRestore(t: FileTree, env: Env, dataDir: Path, records: seq<Json>)
    returns (plan: Result<seq<Step>>, missing: seq<string>, collisions: seq<string>)
    ensures plan == PlanOf(env, dataDir, records)
    ensures plan.Ok? ==> missing == MissingSources(t, plan.value) && collisions == Collisions(t, plan.value)
  {
    var steps: seq<Step> := [];
    missing, collisions := [], [];
    var i := 0;
    while i < |records|
      invariant 0 <= i <= |records|
      invariant PlanOf(env, dataDir, records[..i]) == Ok(steps)
      invariant missing == MissingSources(t, steps) && collisions == Collisions(t, steps)
    {
      var step := PlanStep(env, dataDir, records[i]);
      if step.Err? {
        PlanStopsAt(env, dataDir, records, i);
        return Err(step.error), missing, collisions;
      }
      var s := step.value;
      PlanAdvance(t, env, dataDir, records, i, steps, s);
      missing := missing + (if Exists(t, s.source) then [] else [s.relative]);
      collisions := collisions + (if Exists(t, s.target) then [s.relative] else []);
      steps := steps + [s];
      i := i + 1;
    }
    assert records[..i] == records;
    return Ok(steps), missing, collisions;
  }

  /** One more turn of the restore loop after `k` completed ones. */
  lemma RestoreAllSnoc(t: FileTree, env: Env, steps: seq<Step>, args: RestoreArgs, k: nat, cur: FileTree, n: nat)
    requires k < |steps| && RestoreAll(t, env, steps[..k], args) == Progress(cur, Ok(n))
    ensures var last := RestoreStep(cur, env, steps[k], args);
      RestoreAll(t, env, steps[..k + 1], args)
      == if last.out.Err? then Progress(last.tree, Err(last.out.error)) else Progress(last.tree, Ok(n + 1))
  {
    var next := steps[..k + 1];
    assert next[..|next| - 1] == steps[..k];
  }

  /** One turn of the restore loop of `cmd_restore`: create the target's directories,
      clear it under `--force`, move or copy the payload, and check its digest. */
  method RestoreTurn(cur: FileTree, env: Env, step: Step, args: RestoreArgs) returns (q: Progress<()>)
    ensures q == RestoreStep(cur, env, step, args)
  {
    if BlockedByFile(cur, step.target) {
      return Progress(cur, Err(Uncaught));
    }
    var tree := Cleared(cur, step.target, args.force);
    var moved := Relocate(tree, step.source, step.target, args.move);
    if moved.Err? {
      return Progress(tree, Err(moved.error));
    }
    tree := moved.value;
    if !args.skipHashCheck && step.expected != [] {
      if step.target !in tree {
        return Progress(tree, Err(Uncaught));
      }
      if env.digest(tree[step.target].data) != step.expected {
        return Progress(tree, Err(IntegrityViolation));
      }
    }
    return Progress(tree, Ok(()));
  }

  /** The restore loop of `cmd_restore`, counting `restored`. */
  method ExecutePlan(t: FileTree, env: Env, plan: seq<Step>, args: RestoreArgs) returns (p: Progress<nat>)
    ensures p == RestoreAll(t, env, plan, args)
  {
    var cur := t;
    var restored: nat := 0;
    var i := 0;
    while i < |plan|
      invariant 0 <= i <= |plan|
      invariant RestoreAll(t, env, plan[..i], args) == Progress(cur, Ok(restored))
    {
      var turn := RestoreTurn(cur, env, plan[i], args);
      RestoreAllSnoc(t, env, plan, args, i, cur, restored);
      if turn.out.Err? {
        RestoreAllStops(t, env, plan, args, i + 1);
        return Progress(turn.tree, Err(turn.out.error));
      }
      cur := turn.tree;
      restored := restored + 1;
      i := i + 1;
    }
    assert plan[..i] == plan;
    return Progress(cur, Ok(restored));
  }

  /** `cmd_restore` from the resolved manifest on. */
  method RestoreSnapshot(t: FileTree, env: Env, args: RestoreArgs, manifestPath: Path) returns (run: Run)
    ensures run == RestoredFrom(t, env, args, manifestPath)
  {
    var manifest := ReadManifest(t, env, manifestPath);
    if manifest.Err? {
      return Run(Raised(manifest.error), t);
    }
    var dataDir := DataDirOf(manifestPath);
    if !Exists(t, dataDir) {
      return Run(Raised(DataDirMissing), t);
    }
    var records := ManifestRecords(manifest.value);
    if records.Err? {
      return Run(Raised(records.error), t);
    }
    if records.value == [] {
      return Run(Exited(0), t);
    }
    var plan, missing, collisions := PlanRestore(t, env, dataDir, records.value);
    if plan.Err? {
      return Run(Raised(plan.error), t);
    }
    if missing != [] {
      return Run(Exited(1), t);
    }
    if collisions != [] && !args.force {
      return Run(Exited(1), t);
    }
    if args.dryRun {
      return Run(Exited(0), t);
    }
    var done := ExecutePlan(t, env, plan.value, args);
    if done.out.Err? {
      return Run(Raised(done.out.error), done.tree);
    }
    return Run(Exited(0), done.tree);
  }

  /** `cmd_restore(args)`. */
  method CmdRestore(t: FileTree, env: Env, args: RestoreArgs) returns (run: Run)
    ensures run == Restored(t, env, args)
  {
    var campaign := NormalizeCampaignId(args.campaign);
    if campaign.Err? {
      return Run(Raised(campaign.error), t);
    }
    var snapshot := SnapshotArg(env, args.snapshot);
    if snapshot.Err? {
      return Run(Raised(snapshot.error), t);
    }
    var path := ResolveManifest(t, env, campaign.value, snapshot.value);
    if path.Err? {
      return Run(Raised(path.error), t);
    }
    run := RestoreSnapshot(t, env, args, path.value);
  }
}
