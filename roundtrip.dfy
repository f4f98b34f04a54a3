/** Archiving and then restoring the snapshot just made: `cmd_archive` followed by
    `cmd_restore` of the manifest it wrote (saves/save_manager.py lines 405-488 and
    547-636). The restore plans every record back to the path it was archived from,
    with its payload below the snapshot's data directory, and a restore that succeeds
    puts back the content every collected file had before the archive. */
module RoundTrip {
  import opened Outcome
  import opened Text
  import opened Chars
  import opened Paths
  import opened Tree
  import opened Json
  import opened Environment
  import opened Scopes
  import opened ArchiveIndex
  import opened Manifests
  import opened Runs
  import opened Store
  import Archive
  import Restore

  /** What a real archive that ends with 0 has found before it wrote anything: files
      to archive, no snapshot directory yet, and no file where the data directory's
      parents must go. */
  lemma ArchiveGuards(t: FileTree, env: Env, args: Archive.ArchiveArgs, campaignId: string, snapshotId: string)
    requires !args.dryRun && Archive.ArchivedAs(t, env, args, campaignId, snapshotId).status == Exited(0)
    ensures Collected(t, env, args.extras) != []
    ensures !Exists(t, Archive.SnapshotDir(campaignId, snapshotId))
    ensures !BlockedByFile(t, Archive.DataDir(campaignId, snapshotId))
  {
    Archive.ArchiveRefusals(t, env, args, campaignId, snapshotId);
    var files := Collected(t, env, args.extras);
    var s := Archive.SnapshotOf(t, env, args, campaignId, snapshotId);
    assert Archive.ArchivedAs(t, env, args, campaignId, snapshotId) == Archive.ArchiveFiles(t, env, s, files, false);
  }

  /** A record whose path reads back as a safe relative path plans the step from
      that path below the data directory to the path itself. */
  lemma FieldsPlan(env: Env, dataDir: Path, fields: Fields)
    ensures var relative := Restore.TextField(env, fields, "relative_path");
      var checked := SafeRelativePath(relative);
      checked.Ok? ==>
        Restore.PlanStep(env, dataDir, JObj(fields))
        == Ok(Restore.Step(relative, dataDir + checked.value, checked.value, Restore.ExpectedHash(env, fields)))
  {
  }

  /** A text field that holds a string without surrounding whitespace reads back as
      that string. */
  lemma TextFieldReadsBack(env: Env, fields: Fields, key: string, value: string)
    requires key in fields && fields[key] == JStr(value) && Strip(value, IsSpace) == value
    ensures Restore.TextField(env, fields, key) == value
  {
    assert Get(fields, key, JStr("")) == JStr(value);
  }

  /** A record naming, without surrounding whitespace, the POSIX form of a canonical
      path plans, on restore, the step from the path's copy below the data directory
      back to the path. */
  lemma RecordPlans(env: Env, dataDir: Path, fields: Fields, p: Path)
    requires p != [] && Canonical(p)
    requires "relative_path" in fields && fields["relative_path"] == JStr(AsPosix(p))
    requires Strip(AsPosix(p), IsSpace) == AsPosix(p)
    ensures Restore.PlanStep(env, dataDir, JObj(fields))
         == Ok(Restore.Step(AsPosix(p), dataDir + p, p, Restore.ExpectedHash(env, fields)))
  {
    TextFieldReadsBack(env, fields, "relative_path", AsPosix(p));
    SafeRelativePathOfPosix(p);
    FieldsPlan(env, dataDir, fields);
  }

  /** The record the archive writes for a file names the file's relative path. */
  lemma FileRecordNames(env: Env, relative: string, scope: Scope, e: FileEntry)
    ensures var record := Archive.FileRecord(env, relative, scope, e);
      "relative_path" in record && record["relative_path"] == JStr(relative)
  {
  }

  /** The records of the archived files plan one step per file, in order, each from
      the file's copy below the data directory back to the file's path. */
  lemma RecordsPlan(t: FileTree, env: Env, dataDir: Path, files: seq<RuntimeFile>)
    requires WellFormed(t)
    requires forall f :: f in files ==> f.path in t && f.relative == AsPosix(f.path)
    requires forall f :: f in files ==> Strip(f.relative, IsSpace) == f.relative
    ensures var plan := Restore.PlanOf(env, dataDir, AsObjects(Archive.RecordsOf(env, t, files)));
      && plan.Ok? && |plan.value| == |files|
      && forall i :: 0 <= i < |files| ==>
           plan.value[i].target == files[i].path && plan.value[i].source == dataDir + files[i].path
  {
    var records := AsObjects(Archive.RecordsOf(env, t, files));
    Archive.RecordsOfDescribe(env, t, files);
    forall i | 0 <= i < |files|
      ensures var step := Restore.PlanStep(env, dataDir, records[i]);
        step.Ok? && step.value.target == files[i].path && step.value.source == dataDir + files[i].path
    {
      var f := files[i];
      assert f in files;
      var record := Archive.FileRecord(env, f.relative, f.scope, t[f.path]);
      assert records[i] == JObj(record);
      FileRecordNames(env, f.relative, f.scope, t[f.path]);
      RecordPlans(env, dataDir, record, f.path);
    }
    Restore.PlanOfSteps(env, dataDir, records);
  }

  /** Two distinct files of a well-formed tree lie neither at nor below each other. */
  lemma FilesApart(t: FileTree, p: Path, q: Path)
    requires WellFormed(t) && p in t && q in t && p != q
    ensures !Under(p, q)
  {
    assert q[..|q|] == q;
    if |p| < |q| {
      assert q[..|p|] !in t;
    }
  }

  /** No file of the tree lies at or above a path below the data directory of a
      snapshot directory that does not exist and whose data directory no file blocks. */
  lemma FileNotAbovePayload(t: FileTree, snapshotDir: Path, p: Path, q: Path)
    requires Archive.Fresh(t, snapshotDir) && !BlockedByFile(t, snapshotDir + ["data"]) && p in t
    ensures !Under(p, snapshotDir + ["data"] + q)
  {
    var dataDir := snapshotDir + ["data"];
    if |p| < |dataDir| {
      assert dataDir[..|p|] !in t;
      assert (dataDir + q)[..|p|] == dataDir[..|p|];
    } else if |p| <= |dataDir + q| {
      assert !Under(snapshotDir, p);
      assert (dataDir + q)[..|p|][..|snapshotDir|] == snapshotDir;
    }
  }

  /** The plan the records give keeps apart in the archived tree: the copies are
      distinct files there, and no original path lies at or below another or at or
      above a copy. */
  lemma PlanKeptApart(t: FileTree, r: FileTree, snapshotDir: Path, files: seq<RuntimeFile>, plan: seq<Restore.Step>)
    requires WellFormed(t) && Archive.Fresh(t, snapshotDir) && !BlockedByFile(t, snapshotDir + ["data"])
    requires forall i :: 0 <= i < |files| ==> files[i].path in t
    requires forall i, j :: 0 <= i < j < |files| ==> files[i].path != files[j].path
    requires Archive.Copied(t, r, snapshotDir + ["data"], Archive.Sources(files))
    requires |plan| == |files|
    requires forall i :: 0 <= i < |files| ==>
      plan[i].target == files[i].path && plan[i].source == snapshotDir + ["data"] + files[i].path
    ensures Restore.Separate(r, plan)
  {
    var dataDir := snapshotDir + ["data"];
    forall i | 0 <= i < |plan|
      ensures plan[i].source in r && plan[i].target != []
    {
      assert Archive.Sources(files)[i] == files[i].path;
    }
    forall i, j | 0 <= i < |plan| && 0 <= j < |plan| && i != j
      ensures plan[i].source != plan[j].source && !Under(plan[i].target, plan[j].target)
    {
      assert files[i].path != files[j].path;
      assert (dataDir + files[i].path)[|dataDir|..] == files[i].path;
      assert (dataDir + files[j].path)[|dataDir|..] == files[j].path;
      FilesApart(t, files[i].path, files[j].path);
    }
    forall i, j | 0 <= i < |plan| && 0 <= j < |plan|
      ensures !Under(plan[i].target, plan[j].source)
    {
      FileNotAbovePayload(t, snapshotDir, files[i].path, files[j].path);
    }
  }

  /** A manifest that loads as an object with the three keys `read_manifest` looks
      for is read as it was loaded. */
  lemma ManifestReadsBack(r: FileTree, env: Env, path: Path, fields: Fields)
    requires LoadJson(r, env, path, JObj(map[])) == Ok(JObj(fields))
    requires "files" in fields && "campaign_id" in fields && "snapshot_id" in fields
    ensures ReadManifest(r, env, path) == Ok(JObj(fields))
  {
    assert fields != map[];
  }

  /** A manifest that is read, beside a data directory, with a list of records plans
      exactly the steps of those records. */
  lemma PlannedRecords(r: FileTree, env: Env, path: Path, manifest: Json, records: seq<Json>)
    requires ReadManifest(r, env, path) == Ok(manifest) && Exists(r, Restore.DataDirOf(path))
    requires Restore.ManifestRecords(manifest) == Ok(records)
    ensures Restore.Planned(r, env, path) == Restore.PlanOf(env, Restore.DataDirOf(path), records)
  {
  }

  /** The manifest of an archive carries the keys a restore reads. */
  lemma ArchiveManifestKeys(env: Env, s: Archive.Snapshot, summary: map<Scope, nat>, records: seq<Fields>)
    ensures var m := Archive.ArchiveManifest(env, s, summary, records);
      "files" in m && "campaign_id" in m && "snapshot_id" in m && m["files"] == JArr(AsObjects(records))
  {
  }

  /** The restore looks for the payloads in the directory the archive copied them to. */
  lemma DataDirFound(campaignId: string, snapshotId: string)
    ensures Restore.DataDirOf(Archive.ManifestFile(campaignId, snapshotId)) == Archive.DataDir(campaignId, snapshotId)
  {
    var m := Archive.ManifestFile(campaignId, snapshotId);
    assert m[..|m| - 1] == Archive.SnapshotDir(campaignId, snapshotId);
  }

  /** A data directory into which at least one file was copied exists. */
  lemma CopiedExists(t: FileTree, r: FileTree, dataDir: Path, ps: seq<Path>)
    requires ps != [] && ps[0] != [] && Archive.Copied(t, r, dataDir, ps)
    ensures Exists(r, dataDir)
  {
    assert (dataDir + ps[0])[..|dataDir|] == dataDir;
  }

  /** The manifest the archive stored plans, on restore, exactly the steps of its
      records. */
  lemma StoredPlans(t: FileTree, r: FileTree, env: Env, s: Archive.Snapshot, files: seq<RuntimeFile>)
    requires Sound(env) && WellFormed(t) && files != []
    requires forall f :: f in files ==> f.path in t && f.relative == AsPosix(f.path)
    requires var manifest := Archive.ArchiveManifest(env, s, ScopeSummary(files), Archive.RecordsOf(env, t, files));
      Archive.Stored(t, r, s, files, manifest, env)
    ensures Restore.Planned(r, env, Archive.ManifestFile(s.campaignId, s.snapshotId))
         == Restore.PlanOf(env, Archive.DataDir(s.campaignId, s.snapshotId), AsObjects(Archive.RecordsOf(env, t, files)))
  {
    var records := Archive.RecordsOf(env, t, files);
    var manifest := Archive.ArchiveManifest(env, s, ScopeSummary(files), records);
    var path := Archive.ManifestFile(s.campaignId, s.snapshotId);
    var dataDir := Archive.DataDir(s.campaignId, s.snapshotId);
    Archive.StoredManifestLoads(t, r, s, files, manifest, env);
    ArchiveManifestKeys(env, s, ScopeSummary(files), records);
    ManifestReadsBack(r, env, path, manifest);
    DataDirFound(s.campaignId, s.snapshotId);
    assert Archive.Sources(files)[0] == files[0].path;
    CopiedExists(t, r, dataDir, Archive.Sources(files));
    PlannedRecords(r, env, path, JObj(manifest), AsObjects(records));
  }

  /** What a real archive leaves behind for a restore: the files it collected from a
      well-formed tree, each once and at its POSIX relative path, copied below a data
      directory that did not exist before, and the manifest describing them. */
  ghost predicate Snapshotted(t: FileTree, r: FileTree, env: Env, s: Archive.Snapshot, files: seq<RuntimeFile>) {
    && WellFormed(t) && files != []
    && (forall f :: f in files ==> f.path in t && f.relative == AsPosix(f.path))
    && (forall i, j :: 0 <= i < j < |files| ==> files[i].path != files[j].path)
    && Archive.Fresh(t, Archive.SnapshotDir(s.campaignId, s.snapshotId))
    && !BlockedByFile(t, Archive.DataDir(s.campaignId, s.snapshotId))
    && Archive.Stored(t, r, s, files, Archive.ArchiveManifest(env, s, ScopeSummary(files), Archive.RecordsOf(env, t, files)), env)
  }

  /** A real archive of a well-formed project that ends with 0 leaves a snapshot of
      the files it collected. */
  lemma ArchiveSnapshots(t: FileTree, env: Env, args: Archive.ArchiveArgs, campaignId: string, snapshotId: string)
    requires WellFormed(t) && !args.dryRun
    requires Archive.ArchivedAs(t, env, args, campaignId, snapshotId).status == Exited(0)
    ensures Snapshotted(t, Archive.ArchivedAs(t, env, args, campaignId, snapshotId).tree, env,
                        Archive.SnapshotOf(t, env, args, campaignId, snapshotId), Collected(t, env, args.extras))
  {
    ArchiveGuards(t, env, args, campaignId, snapshotId);
    Archive.ArchiveStores(t, env, args, campaignId, snapshotId);
    CollectedAdmitted(t, env, args.extras);
    Archive.CollectedDistinct(t, env, args.extras);
    Archive.MissingIsFresh(t, Archive.SnapshotDir(campaignId, snapshotId));
  }

  /** A snapshot plans, on restore, one step per archived file, from the file's copy
      back to its path, and the plan keeps apart. */
  lemma SnapshotPlans(t: FileTree, r: FileTree, env: Env, s: Archive.Snapshot, files: seq<RuntimeFile>)
    requires Sound(env) && Snapshotted(t, r, env, s, files)
    requires forall f :: f in files ==> Strip(f.relative, IsSpace) == f.relative
    ensures Archive.Copied(t, r, Archive.DataDir(s.campaignId, s.snapshotId), Archive.Sources(files))
    ensures Restore.Planned(r, env, Archive.ManifestFile(s.campaignId, s.snapshotId)).Ok?
    ensures var planned := Restore.Planned(r, env, Archive.ManifestFile(s.campaignId, s.snapshotId));
      && planned.Ok? && Restore.Separate(r, planned.value) && |planned.value| == |files|
      && forall i :: 0 <= i < |files| ==>
           planned.value[i].target == files[i].path
           && planned.value[i].source == Archive.DataDir(s.campaignId, s.snapshotId) + files[i].path
  {
    var snapshotDir := Archive.SnapshotDir(s.campaignId, s.snapshotId);
    var dataDir := Archive.DataDir(s.campaignId, s.snapshotId);
    StoredPlans(t, r, env, s, files);
    RecordsPlan(t, env, dataDir, files);
    var plan := Restore.PlanOf(env, dataDir, AsObjects(Archive.RecordsOf(env, t, files))).value;
    forall i | 0 <= i < |files|
      ensures files[i].path in t
    {
      assert files[i] in files;
    }
    PlanKeptApart(t, r, snapshotDir, files, plan);
  }

  /** A restore that carried out a plan from the files' copies gives every file back
      the content that was copied. */
  lemma PlanGivesBack(t: FileTree, r: FileTree, restored: FileTree, env: Env, dataDir: Path, files: seq<RuntimeFile>,
                      plan: seq<Restore.Step>, restoreArgs: Restore.RestoreArgs)
    requires Archive.Copied(t, r, dataDir, Archive.Sources(files))
    requires |plan| == |files|
    requires forall i :: 0 <= i < |files| ==> plan[i].target == files[i].path && plan[i].source == dataDir + files[i].path
    requires Restore.RestoredState(r, restored, env, plan, restoreArgs)
    ensures forall f :: f in files ==> f.path in t && f.path in restored && restored[f.path] == t[f.path]
  {
    forall f | f in files
      ensures f.path in t && f.path in restored && restored[f.path] == t[f.path]
    {
      var i :| 0 <= i < |files| && files[i] == f;
      assert Archive.Sources(files)[i] == f.path;
    }
  }

  /** A restore that ends with 0, of a manifest that plans the files back from their
      copies and keeps apart, gives every file back the content that was copied. */
  lemma PlannedRestores(t: FileTree, r: FileTree, env: Env, path: Path, dataDir: Path, files: seq<RuntimeFile>,
                        restoreArgs: Restore.RestoreArgs)
    requires Archive.Copied(t, r, dataDir, Archive.Sources(files))
    requires Restore.Planned(r, env, path).Ok?
    requires var plan := Restore.Planned(r, env, path).value;
      && Restore.Separate(r, plan) && |plan| == |files|
      && forall i :: 0 <= i < |files| ==> plan[i].target == files[i].path && plan[i].source == dataDir + files[i].path
    requires !restoreArgs.dryRun && Restore.RestoredFrom(r, env, restoreArgs, path).status == Exited(0)
    ensures var restored := Restore.RestoredFrom(r, env, restoreArgs, path).tree;
      forall f :: f in files ==> f.path in t && f.path in restored && restored[f.path] == t[f.path]
  {
    Restore.RestorePlaces(r, env, restoreArgs, path);
    PlanGivesBack(t, r, Restore.RestoredFrom(r, env, restoreArgs, path).tree, env, dataDir, files,
                  Restore.Planned(r, env, path).value, restoreArgs);
  }

  /** A restore of a snapshot that ends with 0 gives every archived file back the
      content it had when it was archived. */
  lemma SnapshotRestores(t: FileTree, r: FileTree, env: Env, s: Archive.Snapshot, files: seq<RuntimeFile>,
                         restoreArgs: Restore.RestoreArgs)
    requires Sound(env) && Snapshotted(t, r, env, s, files) && !restoreArgs.dryRun
    requires forall f :: f in files ==> Strip(f.relative, IsSpace) == f.relative
    requires Restore.RestoredFrom(r, env, restoreArgs, Archive.ManifestFile(s.campaignId, s.snapshotId)).status == Exited(0)
    ensures var restored := Restore.RestoredFrom(r, env, restoreArgs, Archive.ManifestFile(s.campaignId, s.snapshotId)).tree;
      forall f :: f in files ==> f.path in t && f.path in restored && restored[f.path] == t[f.path]
  {
    SnapshotPlans(t, r, env, s, files);
    PlannedRestores(t, r, env, Archive.ManifestFile(s.campaignId, s.snapshotId), Archive.DataDir(s.campaignId, s.snapshotId),
                    files, restoreArgs);
  }

  /** Archiving a well-formed project and then restoring the snapshot just made,
      with a restore that reports success, gives every collected file back its
      content as it was before the archive, whichever archive and restore modes are
      used. The paths must be recorded without surrounding whitespace, which the
      restore strips when it reads them. */
  lemma ArchiveThenRestore(t: FileTree, env: Env, args: Archive.ArchiveArgs, campaignId: string, snapshotId: string,
                           restoreArgs: Restore.RestoreArgs)
    requires WellFormed(t) && Sound(env) && !args.dryRun && !restoreArgs.dryRun
    requires Archive.ArchivedAs(t, env, args, campaignId, snapshotId).status == Exited(0)
    requires forall f :: f in Collected(t, env, args.extras) ==> Strip(f.relative, IsSpace) == f.relative
    requires Restore.RestoredFrom(Archive.ArchivedAs(t, env, args, campaignId, snapshotId).tree, env, restoreArgs,
                                  Archive.ManifestFile(campaignId, snapshotId)).status == Exited(0)
    ensures var archived := Archive.ArchivedAs(t, env, args, campaignId, snapshotId).tree;
      var restored := Restore.RestoredFrom(archived, env, restoreArgs, Archive.ManifestFile(campaignId, snapshotId)).tree;
      forall f :: f in Collected(t, env, args.extras) ==>
        f.path in t && f.path in restored && restored[f.path] == t[f.path]
  {
    var s := Archive.SnapshotOf(t, env, args, campaignId, snapshotId);
    ArchiveSnapshots(t, env, args, campaignId, snapshotId);
    SnapshotRestores(t, Archive.ArchivedAs(t, env, args, campaignId, snapshotId).tree, env, s,
                     Collected(t, env, args.extras), restoreArgs);
  }
}
