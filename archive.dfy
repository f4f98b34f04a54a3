/** Archiving the current session: `cmd_archive` (saves/save_manager.py lines
    405-520) moves or copies the runtime files into
    `saves/archives/<campaign>/<snapshot>/data/`, writes the manifest and the
    summary beside them and adds the snapshot to the archive index. */
module Archive {
  import opened Outcome
  import opened Paths
  import opened Tree
  import opened Json
  import opened Environment
  import opened Store
  import opened Identifiers
  import opened Roles
  import opened Scopes
  import opened ArchiveIndex
  import opened Runs
  import opened Order

  /** `--mode`: `move` empties the session, `copy` leaves it as it is. */
  datatype Mode = Move | Copy

  function ModeName(mode: Mode): string {
    match mode
    case Move => "move"
    case Copy => "copy"
  }

  /** The options of the `archive` command. */
  datatype ArchiveArgs = ArchiveArgs(
    campaign: string,            // -c/--campaign
    snapshot: Option<string>,    // --snapshot
    mainRoles: string,           // --main-roles
    roleLimit: int,              // --role-limit
    aiBlip: string,              // --ai-blip
    mode: Mode,                  // --mode
    note: string,                // --note
    extras: seq<string>,         // --extra, in the order given
    dryRun: bool)                // --dry-run

  const ArchiveType: string := "trpg_runtime_archive"

  function SnapshotDir(campaignId: string, snapshotId: string): Path {
    ArchivesDir + [campaignId, snapshotId]
  }

  function DataDir(campaignId: string, snapshotId: string): Path {
    SnapshotDir(campaignId, snapshotId) + ["data"]
  }

  function ManifestFile(campaignId: string, snapshotId: string): Path {
    SnapshotDir(campaignId, snapshotId) + ["manifest.json"]
  }

  function SummaryFile(campaignId: string, snapshotId: string): Path {
    SnapshotDir(campaignId, snapshotId) + ["summary.md"]
  }

  /** `build_file_record`: what the manifest says about one archived file. */
  function FileRecord(env: Env, relative: string, scope: Scope, e: FileEntry): Fields {
    map[
      "relative_path" := JStr(relative),
      "scope" := JStr(ScopeName(scope)),
      "size_bytes" := JNum(|e.data|),
      "mtime" := JStr(env.isoTime(e.mtime)),
      "sha256" := JStr(env.digest(e.data))]
  }

  /** The tree after `shutil.move` or `shutil.copy2` of the file `source` to
      `destination`; both keep the bytes and the modification time. */
  function Transfer(t: FileTree, source: Path, destination: Path, mode: Mode): FileTree
    requires source in t
  {
    if mode == Move then (t - {source})[destination := t[source]] else t[destination := t[source]]
  }

  /** One turn of the loop of `cmd_archive`: the destination below `dataDir`, then in
      a dry run the record of the source, otherwise the parent directories, the
      transfer and the record of the destination. Creating the parents fails below a
      file; the transfer fails when the source has gone or the destination is a
      directory. */
  function Place(t: FileTree, env: Env, dataDir: Path, item: RuntimeFile, mode: Mode, dryRun: bool)
    : Result<(FileTree, Fields)>
  {
    var rel :- SafeRelativePathAsWritten(item.relative);
    var destination := dataDir + rel;
    if dryRun then
      if item.path in t then Ok((t, FileRecord(env, item.relative, item.scope, t[item.path]))) else Err(Uncaught)
    else if BlockedByFile(t, destination) || item.path !in t || IsDir(t, destination) then Err(Uncaught)
    else
      var after := Transfer(t, item.path, destination, mode);
      Ok((after, FileRecord(env, item.relative, item.scope, after[destination])))
  }

  /** The loop of `cmd_archive` over `files`, in order; the first failure stops it. */
  function PlaceAll(t: FileTree, env: Env, dataDir: Path, files: seq<RuntimeFile>, mode: Mode, dryRun: bool)
    : Progress<seq<Fields>>
  {
    if files == [] then Progress(t, Ok([]))
    else
      var prev := PlaceAll(t, env, dataDir, files[..|files| - 1], mode, dryRun);
      if prev.out.Err? then prev
      else
        match Place(prev.tree, env, dataDir, files[|files| - 1], mode, dryRun)
        case Err(e) => Progress(prev.tree, Err(e))
        case Ok((after, record)) => Progress(after, Ok(prev.out.value + [record]))
  }

  /** `int(item["size_bytes"])` of a record this command built. */
  function SizeOf(record: Fields): int {
    match Get(record, "size_bytes", JNum(0))
    case JNum(n) => n
    case _ => 0
  }

  /** `sum(int(item["size_bytes"]) for item in records)`. */
  function TotalBytes(records: seq<Fields>): int {
    if records == [] then 0 else TotalBytes(records[..|records| - 1]) + SizeOf(records[|records| - 1])
  }

  function Strings(items: seq<string>): seq<Json> {
    seq(|items|, i requires 0 <= i < |items| => JStr(items[i]))
  }

  /** `runtime_scope_summary(files)` as the JSON object the manifest holds. */
  function ScopeCounts(summary: map<Scope, nat>): Fields {
    map s | s in summary :: ScopeName(s) := JNum(summary[s])
  }

  /** The values the manifest and the index entry share. */
  datatype Snapshot = Snapshot(
    campaignId: string,
    snapshotId: string,
    mode: Mode,
    roles: seq<string>,
    blip: string,
    hint: string,
    note: string)

  /** The manifest `cmd_archive` writes. */
  function ArchiveManifest(env: Env, s: Snapshot, summary: map<Scope, nat>, records: seq<Fields>): Fields {
    var bytes := TotalBytes(records);
    map[
      "schema_version" := JNum(SchemaVersion),
      "type" := JStr(ArchiveType),
      "campaign_id" := JStr(s.campaignId),
      "snapshot_id" := JStr(s.snapshotId),
      "created_at" := JStr(env.clock.iso),
      "archive_mode" := JStr(ModeName(s.mode)),
      "main_roles" := JArr(Strings(s.roles)),
      "main_roles_label" := JStr(RolesLabel(s.roles)),
      "ai_blip" := JStr(s.blip),
      "save_filename_hint" := JStr(s.hint),
      "note" := JStr(s.note),
      "source_root" := JStr(env.root),
      "scope_counts" := JObj(ScopeCounts(summary)),
      "counts" := JObj(map[
        "files" := JNum(|records|),
        "bytes" := JNum(bytes),
        "bytes_human" := JStr(HumanSize(env, bytes))]),
      "files" := JArr(AsObjects(records))]
  }

  /** The entry `cmd_archive` adds to the archive index. */
  function ArchiveIndexEntry(env: Env, s: Snapshot, records: seq<Fields>): Fields {
    map[
      "campaign_id" := JStr(s.campaignId),
      "snapshot_id" := JStr(s.snapshotId),
      "created_at" := JStr(env.clock.iso),
      "archive_mode" := JStr(ModeName(s.mode)),
      "main_roles_label" := JStr(RolesLabel(s.roles)),
      "ai_blip" := JStr(s.blip),
      "save_filename_hint" := JStr(s.hint),
      "file_count" := JNum(|records|),
      "total_bytes" := JNum(TotalBytes(records)),
      "note" := JStr(s.note)]
  }

  /** The three writes that end a real archive: the manifest, the summary and the
      index; a failing write leaves the earlier ones in place. */
  function Publish(t: FileTree, env: Env, s: Snapshot, manifest: Fields, entry: Fields): Run {
    match WriteJson(t, env, ManifestFile(s.campaignId, s.snapshotId), JObj(manifest))
    case Err(e) => Run(Raised(e), t)
    case Ok(t1) =>
      match WriteFile(t1, SummaryFile(s.campaignId, s.snapshotId), FileEntry(env.summary(JObj(manifest)), env.clock.seconds))
      case Err(e) => Run(Raised(e), t1)
      case Ok(t2) =>
        match UpdateArchiveIndex(t2, env, entry)
        case Err(e) => Run(Raised(e), t2)
        case Ok(t3) => Run(Exited(0), t3)
  }

  /** The roles, the annotation and the suggested save name `cmd_archive` settles on. */
  function SnapshotOf(t: FileTree, env: Env, args: ArchiveArgs, campaignId: string, snapshotId: string): Snapshot {
    var limit := if args.roleLimit < 1 then 1 else args.roleLimit;
    var roles := ResolvedRoles(t, env.glob(ActivePattern), args.mainRoles, limit);
    var blip := NormalizeAiBlip(args.aiBlip);
    Snapshot(campaignId, snapshotId, args.mode, roles, blip, BuildSaveFilenameHint(snapshotId, roles, blip), args.note)
  }

  /** `cmd_archive` once the identifiers are normalised: it refuses without files or
      when the snapshot exists. */
  function ArchivedAs(t: FileTree, env: Env, args: ArchiveArgs, campaignId: string, snapshotId: string): Run {
    var files := Collected(t, env, args.extras);
    if files == [] then Run(Exited(1), t)
    else if Exists(t, SnapshotDir(campaignId, snapshotId)) then Run(Exited(1), t)
    else ArchiveFiles(t, env, SnapshotOf(t, env, args, campaignId, snapshotId), files, args.dryRun)
  }

  /** The rest of `cmd_archive`: create the data directory, place the files, and
      unless it is a dry run write the manifest, the summary and the index entry. */
  function ArchiveFiles(t: FileTree, env: Env, s: Snapshot, files: seq<RuntimeFile>, dryRun: bool): Run {
    var dataDir := DataDir(s.campaignId, s.snapshotId);
    if !dryRun && BlockedByFile(t, dataDir) then Run(Raised(Uncaught), t)
    else
      var placed := PlaceAll(t, env, dataDir, files, s.mode, dryRun);
      match placed.out
      case Err(e) => Run(Raised(e), placed.tree)
      case Ok(records) =>
        if dryRun then Run(Exited(0), placed.tree)
        else Publish(placed.tree, env, s, ArchiveManifest(env, s, ScopeSummary(files), records),
                     ArchiveIndexEntry(env, s, records))
  }

  /** What `cmd_archive(args)` does to the project tree `t`. */
  function Archived(t: FileTree, env: Env, args: ArchiveArgs): Run {
    match NormalizeCampaignId(args.campaign)
    case Err(e) => Run(Raised(e), t)
    case Ok(campaignId) =>
      match NormalizeSnapshotId(args.snapshot, env.clock.stamp)
      case Err(e) => Run(Raised(e), t)
      case Ok(snapshotId) => ArchivedAs(t, env, args, campaignId, snapshotId)
  }

  // ---------------------------------------------------------------------------
  // cmd_archive

  /** `cmd_archive(args)`. */
  method CmdArchive(t: FileTree, env: Env, args: ArchiveArgs) returns (run: Run)
    ensures run == Archived(t, env, args)
  {
    var campaign := NormalizeCampaignId(args.campaign);
    if campaign.Err? {
      return Run(Raised(campaign.error), t);
    }
    var snapshot := NormalizeSnapshotId(args.snapshot, env.clock.stamp);
    if snapshot.Err? {
      return Run(Raised(snapshot.error), t);
    }
    run := ArchiveAs(t, env, args, campaign.value, snapshot.value);
  }

  method ArchiveAs(t: FileTree, env: Env, args: ArchiveArgs, campaignId: string, snapshotId: string)
    returns (run: Run)
    ensures run == ArchivedAs(t, env, args, campaignId, snapshotId)
  {
    var limit := if args.roleLimit < 1 then 1 else args.roleLimit;
    var files := CollectScopeFiles(t, env, args.extras);
    if files == [] {
      return Run(Exited(1), t);
    }
    var roles := ResolveMainRoles(t, env.glob(ActivePattern), args.mainRoles, limit);
    var blip := NormalizeAiBlip(args.aiBlip);
    var hint := BuildSaveFilenameHint(snapshotId, roles, blip);
    var s := Snapshot(campaignId, snapshotId, args.mode, roles, blip, hint, args.note);
    assert s == SnapshotOf(t, env, args, campaignId, snapshotId);
    if Exists(t, SnapshotDir(campaignId, snapshotId)) {
      return Run(Exited(1), t);
    }
    run := StoreFiles(t, env, s, files, args.dryRun);
  }

  method StoreFiles(t: FileTree, env: Env, s: Snapshot, files: seq<RuntimeFile>, dryRun: bool) returns (run: Run)
    ensures run == ArchiveFiles(t, env, s, files, dryRun)
  {
    var dataDir := DataDir(s.campaignId, s.snapshotId);
    if !dryRun && BlockedByFile(t, dataDir) {
      return Run(Raised(Uncaught), t);
    }
    var placed := PlaceFiles(t, env, dataDir, files, s.mode, dryRun);
    if placed.out.Err? {
      return Run(Raised(placed.out.error), placed.tree);
    }
    var records := placed.out.value;
    var summary := RuntimeScopeSummary(files);
    SummaryIsScopeSummary(files, summary);
    if dryRun {
      return Run(Exited(0), placed.tree);
    }
    run := Publish(placed.tree, env, s, ArchiveManifest(env, s, summary, records), ArchiveIndexEntry(env, s, records));
  }

  /** The loop of `cmd_archive`. */
  method PlaceFiles(t: FileTree, env: Env, dataDir: Path, files: seq<RuntimeFile>, mode: Mode, dryRun: bool)
    returns (p: Progress<seq<Fields>>)
    ensures p == PlaceAll(t, env, dataDir, files, mode, dryRun)
  {
    var tree := t;
    var records: seq<Fields> := [];
    for i := 0 to |files|
      invariant PlaceAll(t, env, dataDir, files[..i], mode, dryRun) == Progress(tree, Ok(records))
    {
      PlaceAllStep(t, env, dataDir, files, mode, dryRun, i);
      var item := files[i];
      var rel := SafeRelativePathAsWritten(item.relative);
      if rel.Err? {
        PlaceAllStops(t, env, dataDir, files, mode, dryRun, i + 1);
        return Progress(tree, Err(rel.error));
      }
      var destination := dataDir + rel.value;
      if dryRun {
        if item.path !in tree {
          PlaceAllStops(t, env, dataDir, files, mode, dryRun, i + 1);
          return Progress(tree, Err(Uncaught));
        }
        records := records + [FileRecord(env, item.relative, item.scope, tree[item.path])];
        continue;
      }
      if BlockedByFile(tree, destination) || item.path !in tree || IsDir(tree, destination) {
        PlaceAllStops(t, env, dataDir, files, mode, dryRun, i + 1);
        return Progress(tree, Err(Uncaught));
      }
      if mode == Move {
        tree := (tree - {item.path})[destination := tree[item.path]];
      } else {
        tree := tree[destination := tree[item.path]];
      }
      records := records + [FileRecord(env, item.relative, item.scope, tree[destination])];
    }
    assert files[..|files|] == files;
    return Progress(tree, Ok(records));
  }

  lemma PlaceAllStep(t: FileTree, env: Env, dataDir: Path, files: seq<RuntimeFile>, mode: Mode, dryRun: bool, i: nat)
    requires i < |files|
    ensures PlaceAll(t, env, dataDir, files[..i + 1], mode, dryRun)
         == var prev := PlaceAll(t, env, dataDir, files[..i], mode, dryRun);
            if prev.out.Err? then prev
            else
              match Place(prev.tree, env, dataDir, files[i], mode, dryRun)
              case Err(e) => Progress(prev.tree, Err(e))
              case Ok((after, record)) => Progress(after, Ok(prev.out.value + [record]))
  {
    assert files[..i + 1][..i] == files[..i];
  }

  /** A failure ends the loop: once a prefix fails, the whole loop fails as it did. */
  lemma {:induction false} PlaceAllStops(t: FileTree, env: Env, dataDir: Path, files: seq<RuntimeFile>, mode: Mode,
                                         dryRun: bool, k: nat)
    requires k <= |files| && PlaceAll(t, env, dataDir, files[..k], mode, dryRun).out.Err?
    ensures PlaceAll(t, env, dataDir, files, mode, dryRun) == PlaceAll(t, env, dataDir, files[..k], mode, dryRun)
    decreases |files|
  {
    if k == |files| {
      assert files[..k] == files;
    } else {
      var init := files[..|files| - 1];
      assert init[..k] == files[..k];
      PlaceAllStops(t, env, dataDir, init, mode, dryRun, k);
    }
  }

  // ---------------------------------------------------------------------------
  // Refusals and dry runs

  /** Once the identifiers are normalised, `cmd_archive` returns 1 exactly when there
      is nothing to archive or the snapshot already exists, and then it has changed
      nothing. */
  lemma ArchiveRefusals(t: FileTree, env: Env, args: ArchiveArgs, campaignId: string, snapshotId: string)
    ensures ArchivedAs(t, env, args, campaignId, snapshotId).status == Exited(1) <==>
      Collected(t, env, args.extras) == [] || Exists(t, SnapshotDir(campaignId, snapshotId))
    ensures ArchivedAs(t, env, args, campaignId, snapshotId).status == Exited(1) ==>
      ArchivedAs(t, env, args, campaignId, snapshotId).tree == t
  {
    var files := Collected(t, env, args.extras);
    if files != [] && !Exists(t, SnapshotDir(campaignId, snapshotId)) {
      var s := SnapshotOf(t, env, args, campaignId, snapshotId);
      assert ArchivedAs(t, env, args, campaignId, snapshotId) == ArchiveFiles(t, env, s, files, args.dryRun);
      ArchiveFilesProceeds(t, env, s, files, args.dryRun);
    }
  }

  /** Identifiers that do not normalise raise before anything is read or written. */
  lemma ArchiveRejectsIdentifiers(t: FileTree, env: Env, args: ArchiveArgs)
    ensures NormalizeCampaignId(args.campaign).Err? ==> Archived(t, env, args) == Run(Raised(EmptyIdentifier), t)
    ensures NormalizeCampaignId(args.campaign).Ok? && NormalizeSnapshotId(args.snapshot, env.clock.stamp).Err? ==>
      Archived(t, env, args) == Run(Raised(EmptyIdentifier), t)
  {
  }

  /** Once past the refusals, `cmd_archive` ends with 0 or raises; a dry run only reads. */
  lemma ArchiveFilesProceeds(t: FileTree, env: Env, s: Snapshot, files: seq<RuntimeFile>, dryRun: bool)
    ensures ArchiveFiles(t, env, s, files, dryRun).status != Exited(1)
    ensures dryRun ==> ArchiveFiles(t, env, s, files, dryRun).tree == t
  {
    if dryRun {
      DryPlaceKeepsTree(t, env, DataDir(s.campaignId, s.snapshotId), files, s.mode);
    }
  }

  /** A dry run of the loop only reads. */
  lemma {:induction false} DryPlaceKeepsTree(t: FileTree, env: Env, dataDir: Path, files: seq<RuntimeFile>, mode: Mode)
    ensures PlaceAll(t, env, dataDir, files, mode, true).tree == t
    decreases |files|
  {
    if files != [] {
      DryPlaceKeepsTree(t, env, dataDir, files[..|files| - 1], mode);
    }
  }

  /** `--dry-run` changes nothing, whatever the outcome. */
  lemma ArchiveDryRun(t: FileTree, env: Env, args: ArchiveArgs, campaignId: string, snapshotId: string)
    requires args.dryRun
    ensures ArchivedAs(t, env, args, campaignId, snapshotId).tree == t
  {
    ArchiveFilesProceeds(t, env, SnapshotOf(t, env, args, campaignId, snapshotId), Collected(t, env, args.extras), true);
  }

  // ---------------------------------------------------------------------------
  // Placing the files

  /** The files' paths, in order. */
  function Sources(files: seq<RuntimeFile>): seq<Path> {
    seq(|files|, i requires 0 <= i < |files| => files[i].path)
  }

  /** The records the loop builds when every file keeps its content up to its turn. */
  function RecordsOf(env: Env, t: FileTree, files: seq<RuntimeFile>): (r: seq<Fields>)
    requires forall f :: f in files ==> f.path in t
    ensures |r| == |files|
  {
    if files == [] then []
    else
      var f := files[|files| - 1];
      RecordsOf(env, t, files[..|files| - 1]) + [FileRecord(env, f.relative, f.scope, t[f.path])]
  }

  /** What a real archive starts from: a well-formed tree with nothing at the snapshot
      directory and no file blocking the data directory, and distinct files of the tree
      whose relative paths are their own. */
  predicate Placeable(t: FileTree, snapshotDir: Path, files: seq<RuntimeFile>) {
    && WellFormed(t)
    && (forall q :: q in t ==> !Under(snapshotDir, q))
    && !BlockedByFile(t, snapshotDir + ["data"])
    && (forall f :: f in files ==> f.path in t && f.relative == AsPosix(f.path))
    && (forall i, j :: 0 <= i < j < |files| ==> files[i].path != files[j].path)
  }

  /** Every source `ps[i]` has a copy of its content of `t` at `dataDir + ps[i]`. */
  predicate Copied(t: FileTree, r: FileTree, dataDir: Path, ps: seq<Path>) {
    forall i :: 0 <= i < |ps| ==> ps[i] in t && dataDir + ps[i] in r && r[dataDir + ps[i]] == t[ps[i]]
  }

  /** Copy mode keeps every file of `t`; move mode keeps exactly those that are no source. */
  predicate Kept(t: FileTree, r: FileTree, ps: seq<Path>, mode: Mode) {
    forall q :: q in t ==> (q in r <==> mode == Copy || q !in ps)
  }

  /** A file of `t` that is still there has its old content. */
  predicate Unchanged(t: FileTree, r: FileTree) {
    forall q :: q in t && q in r ==> r[q] == t[q]
  }

  /** `q` is the place of one of the sources `ps` below `dataDir`. */
  predicate CopyPlace(dataDir: Path, q: Path, ps: seq<Path>) {
    Under(dataDir, q) && q[|dataDir|..] in ps
  }

  /** Nothing else appears: every file of `r` is one of `t` or the copy of a source. */
  predicate Bounded(t: FileTree, r: FileTree, dataDir: Path, ps: seq<Path>) {
    forall q :: q in r ==> q in t || CopyPlace(dataDir, q, ps)
  }

  /** `r` is `t` with a copy of every file of `files` below `dataDir`, under its own
      relative path, and, in move mode, without the originals. */
  predicate Placed(t: FileTree, r: FileTree, dataDir: Path, files: seq<RuntimeFile>, mode: Mode) {
    var ps := Sources(files);
    Copied(t, r, dataDir, ps) && Kept(t, r, ps, mode) && Unchanged(t, r) && Bounded(t, r, dataDir, ps)
  }

  /** Nothing of `t` lies at or below `dir`. */
  predicate Fresh(t: FileTree, dir: Path) {
    forall q :: q in t ==> !Under(dir, q)
  }

  /** Every file of `cur` is a file of `t` or a copy of one below `dataDir`. */
  predicate Within(t: FileTree, cur: FileTree, dataDir: Path) {
    forall q :: q in cur ==> q in t || (Under(dataDir, q) && q[|dataDir|..] in t)
  }

  /** No proper prefix of a file of a well-formed tree is a file. */
  lemma NoFileAboveFile(t: FileTree, p: Path, n: nat)
    requires WellFormed(t) && p in t && n < |p|
    ensures p[..n] !in t
  {
  }

  /** The destination of a file of `t` is free: no file above it, and it is no directory. */
  lemma DestinationFree(t: FileTree, snapshotDir: Path, cur: FileTree, p: Path)
    requires WellFormed(t) && Fresh(t, snapshotDir) && !BlockedByFile(t, snapshotDir + ["data"])
    requires p in t && Within(t, cur, snapshotDir + ["data"])
    ensures !BlockedByFile(cur, snapshotDir + ["data"] + p)
    ensures !IsDir(cur, snapshotDir + ["data"] + p)
  {
    var dest := snapshotDir + ["data"] + p;
    forall k | 0 <= k < |dest|
      ensures dest[..k] !in cur
    {
      NothingAbove(t, snapshotDir, cur, p, k);
    }
    forall q | q in cur && |dest| < |q|
      ensures q[..|dest|] != dest
    {
      NothingBelow(t, snapshotDir, cur, p, q);
    }
  }

  /** No directory on the way to the destination is a file of `cur`. */
  lemma NothingAbove(t: FileTree, snapshotDir: Path, cur: FileTree, p: Path, k: nat)
    requires WellFormed(t) && Fresh(t, snapshotDir) && !BlockedByFile(t, snapshotDir + ["data"])
    requires p in t && Within(t, cur, snapshotDir + ["data"])
    requires k < |snapshotDir| + 1 + |p|
    ensures (snapshotDir + ["data"] + p)[..k] !in cur
  {
    PrefixNotOriginal(t, snapshotDir, p, k);
    PrefixNotCopied(t, snapshotDir + ["data"], p, k);
  }

  lemma PrefixNotOriginal(t: FileTree, snapshotDir: Path, p: Path, k: nat)
    requires Fresh(t, snapshotDir) && !BlockedByFile(t, snapshotDir + ["data"])
    requires k < |snapshotDir| + 1 + |p|
    ensures (snapshotDir + ["data"] + p)[..k] !in t
  {
    var dataDir := snapshotDir + ["data"];
    var x := (dataDir + p)[..k];
    if k <= |snapshotDir| {
      assert x == dataDir[..k];
    } else {
      assert x[..|snapshotDir|] == snapshotDir;
    }
  }

  lemma PrefixNotCopied(t: FileTree, dataDir: Path, p: Path, k: nat)
    requires WellFormed(t) && p in t && k < |dataDir| + |p|
    ensures var x := (dataDir + p)[..k]; !(Under(dataDir, x) && x[|dataDir|..] in t)
  {
    var x := (dataDir + p)[..k];
    if k > |dataDir| {
      assert x[|dataDir|..] == p[..k - |dataDir|];
      NoFileAboveFile(t, p, k - |dataDir|);
    } else if k == |dataDir| {
      assert x[|dataDir|..] == [];
    }
  }

  /** No file of `cur` lies below the destination. */
  lemma NothingBelow(t: FileTree, snapshotDir: Path, cur: FileTree, p: Path, q: Path)
    requires WellFormed(t) && Fresh(t, snapshotDir)
    requires p in t && Within(t, cur, snapshotDir + ["data"])
    requires q in cur && |snapshotDir| + 1 + |p| < |q|
    ensures q[..|snapshotDir| + 1 + |p|] != snapshotDir + ["data"] + p
  {
    if q in t {
      OriginalNotBelow(t, snapshotDir, p, q);
    } else {
      CopyNotBelow(t, snapshotDir + ["data"], p, q);
    }
  }

  lemma OriginalNotBelow(t: FileTree, snapshotDir: Path, p: Path, q: Path)
    requires Fresh(t, snapshotDir) && q in t && |snapshotDir| + 1 + |p| < |q|
    ensures q[..|snapshotDir| + 1 + |p|] != snapshotDir + ["data"] + p
  {
    var dest := snapshotDir + ["data"] + p;
    assert !Under(snapshotDir, q);
    assert q[..|dest|][..|snapshotDir|] == q[..|snapshotDir|];
    assert dest[..|snapshotDir|] == snapshotDir;
  }

  lemma CopyNotBelow(t: FileTree, dataDir: Path, p: Path, q: Path)
    requires WellFormed(t) && p in t
    requires Under(dataDir, q) && q[|dataDir|..] in t && |dataDir| + |p| < |q|
    ensures q[..|dataDir| + |p|] != dataDir + p
  {
    var dest := dataDir + p;
    var g := q[|dataDir|..];
    assert g[..|p|] != p;
    assert q[..|dest|][|dataDir|..] == g[..|p|];
    assert dest[|dataDir|..] == p;
  }

  /** One turn of the loop places the next file and keeps the description. */
  lemma PlaceStep(t: FileTree, env: Env, snapshotDir: Path, files: seq<RuntimeFile>, mode: Mode, cur: FileTree, n: nat)
    requires Placeable(t, snapshotDir, files) && n < |files|
    requires Placed(t, cur, snapshotDir + ["data"], files[..n], mode)
    ensures files[n].path in cur
    ensures Place(cur, env, snapshotDir + ["data"], files[n], mode, false)
         == Ok((Transfer(cur, files[n].path, snapshotDir + ["data"] + files[n].path, mode),
                FileRecord(env, files[n].relative, files[n].scope, t[files[n].path])))
    ensures Placed(t, Transfer(cur, files[n].path, snapshotDir + ["data"] + files[n].path, mode),
                   snapshotDir + ["data"], files[..n + 1], mode)
  {
    var dataDir := snapshotDir + ["data"];
    var f := files[n];
    var p := f.path;
    var ps := Sources(files[..n]);
    SourcesStep(files, n);
    assert p in t && f.relative == AsPosix(p);
    forall j | 0 <= j < n
      ensures ps[j] != p
    {
      assert ps[j] == files[j].path;
    }
    PlacedStep(t, cur, snapshotDir, ps, p, mode);
    BoundedWithin(t, cur, dataDir, ps);
    DestinationFree(t, snapshotDir, cur, p);
    SafeRelativePathOfPosix(p);
    PlaceTransfers(t, cur, env, dataDir, f, mode);
  }

  lemma SourcesStep(files: seq<RuntimeFile>, n: nat)
    requires n < |files|
    ensures Sources(files[..n + 1]) == Sources(files[..n]) + [files[n].path]
  {
  }

  /** A transfer to a free destination succeeds and records the content of the source. */
  lemma PlaceTransfers(t: FileTree, cur: FileTree, env: Env, dataDir: Path, f: RuntimeFile, mode: Mode)
    requires f.path in t && f.path in cur && cur[f.path] == t[f.path]
    requires SafeRelativePath(f.relative) == Ok(f.path)
    requires !BlockedByFile(cur, dataDir + f.path) && !IsDir(cur, dataDir + f.path)
    ensures Place(cur, env, dataDir, f, mode, false)
         == Ok((Transfer(cur, f.path, dataDir + f.path, mode), FileRecord(env, f.relative, f.scope, t[f.path])))
  {
  }

  /** Placing one more source `p` keeps the four clauses of the description. */
  lemma PlacedStep(t: FileTree, cur: FileTree, snapshotDir: Path, ps: seq<Path>, p: Path, mode: Mode)
    requires Copied(t, cur, snapshotDir + ["data"], ps) && Kept(t, cur, ps, mode)
    requires Unchanged(t, cur) && Bounded(t, cur, snapshotDir + ["data"], ps)
    requires Fresh(t, snapshotDir) && p in t && p !in ps
    ensures p in cur && cur[p] == t[p]
    ensures var after := Transfer(cur, p, snapshotDir + ["data"] + p, mode);
      && Copied(t, after, snapshotDir + ["data"], ps + [p]) && Kept(t, after, ps + [p], mode)
      && Unchanged(t, after) && Bounded(t, after, snapshotDir + ["data"], ps + [p])
  {
    var dataDir := snapshotDir + ["data"];
    SourceAlone(t, cur, ps, mode, p);
    OutsideSnapshot(t, snapshotDir, p);
    CopiedStep(t, cur, dataDir, ps, p, mode);
    KeptStep(t, cur, dataDir, ps, p, mode);
    UnchangedStep(t, cur, dataDir, p, mode);
    BoundedStep(t, cur, dataDir, ps, p, mode);
  }

  /** A source not yet moved is still in place, as it was. */
  lemma SourceAlone(t: FileTree, cur: FileTree, ps: seq<Path>, mode: Mode, p: Path)
    requires Kept(t, cur, ps, mode) && Unchanged(t, cur) && p in t && p !in ps
    ensures p in cur && cur[p] == t[p]
  {
  }

  lemma BoundedWithin(t: FileTree, cur: FileTree, dataDir: Path, ps: seq<Path>)
    requires Bounded(t, cur, dataDir, ps) && forall i :: 0 <= i < |ps| ==> ps[i] in t
    ensures Within(t, cur, dataDir)
  {
  }

  /** A file of `t`, and so a source, lies outside the snapshot directory, and so
      does no copy lie outside it. */
  lemma OutsideSnapshot(t: FileTree, snapshotDir: Path, p: Path)
    requires Fresh(t, snapshotDir) && p in t
    ensures !Under(snapshotDir + ["data"], p) && snapshotDir + ["data"] + p !in t
  {
    var dataDir := snapshotDir + ["data"];
    assert !Under(snapshotDir, p);
    assert dataDir[..|snapshotDir|] == snapshotDir;
    assert (dataDir + p)[..|snapshotDir|] == snapshotDir;
  }

  lemma CopiedStep(t: FileTree, cur: FileTree, dataDir: Path, ps: seq<Path>, p: Path, mode: Mode)
    requires Copied(t, cur, dataDir, ps) && p in t && p in cur && cur[p] == t[p] && p !in ps
    requires !Under(dataDir, p)
    ensures Copied(t, Transfer(cur, p, dataDir + p, mode), dataDir, ps + [p])
  {
    var after := Transfer(cur, p, dataDir + p, mode);
    var ps' := ps + [p];
    forall i | 0 <= i < |ps'|
      ensures ps'[i] in t && dataDir + ps'[i] in after && after[dataDir + ps'[i]] == t[ps'[i]]
    {
      if i < |ps| {
        var q := ps[i];
        assert q != p;
        assert (dataDir + q)[|dataDir|..] == q;
        assert dataDir + q != dataDir + p by {
          assert (dataDir + p)[|dataDir|..] == p;
        }
        assert dataDir + q != p by {
          assert (dataDir + q)[..|dataDir|] == dataDir;
        }
      }
    }
  }

  lemma KeptStep(t: FileTree, cur: FileTree, dataDir: Path, ps: seq<Path>, p: Path, mode: Mode)
    requires Kept(t, cur, ps, mode) && p in cur && dataDir + p !in t
    ensures Kept(t, Transfer(cur, p, dataDir + p, mode), ps + [p], mode)
  {
  }

  lemma UnchangedStep(t: FileTree, cur: FileTree, dataDir: Path, p: Path, mode: Mode)
    requires Unchanged(t, cur) && p in cur && dataDir + p !in t
    ensures Unchanged(t, Transfer(cur, p, dataDir + p, mode))
  {
  }

  lemma BoundedStep(t: FileTree, cur: FileTree, dataDir: Path, ps: seq<Path>, p: Path, mode: Mode)
    requires Bounded(t, cur, dataDir, ps) && p in cur
    ensures Bounded(t, Transfer(cur, p, dataDir + p, mode), dataDir, ps + [p])
  {
    assert (dataDir + p)[|dataDir|..] == p;
    assert (dataDir + p)[..|dataDir|] == dataDir;
  }

  /** When it starts from a placeable tree, the loop of a real archive places every file
      and records it as it was. */
  lemma PlaceAllPlaced(t: FileTree, env: Env, snapshotDir: Path, files: seq<RuntimeFile>, mode: Mode)
    requires Placeable(t, snapshotDir, files)
    ensures PlaceAll(t, env, snapshotDir + ["data"], files, mode, false).out == Ok(RecordsOf(env, t, files))
    ensures Placed(t, PlaceAll(t, env, snapshotDir + ["data"], files, mode, false).tree, snapshotDir + ["data"], files, mode)
  {
    PlacePrefix(t, env, snapshotDir, files, mode, |files|);
    assert files[..|files|] == files;
  }

  /** The loop invariant of a real archive: after `k` turns the first `k` files are
      placed and recorded. */
  lemma {:induction false} PlacePrefix(t: FileTree, env: Env, snapshotDir: Path, files: seq<RuntimeFile>, mode: Mode, k: nat)
    requires Placeable(t, snapshotDir, files) && k <= |files|
    ensures PlaceAll(t, env, snapshotDir + ["data"], files[..k], mode, false).out == Ok(RecordsOf(env, t, files[..k]))
    ensures Placed(t, PlaceAll(t, env, snapshotDir + ["data"], files[..k], mode, false).tree, snapshotDir + ["data"],
                   files[..k], mode)
  {
    var dataDir := snapshotDir + ["data"];
    if k == 0 {
      assert Sources(files[..0]) == [];
    } else {
      PlacePrefix(t, env, snapshotDir, files, mode, k - 1);
      var prev := PlaceAll(t, env, dataDir, files[..k - 1], mode, false);
      PlaceStep(t, env, snapshotDir, files, mode, prev.tree, k - 1);
      PlaceAllStep(t, env, dataDir, files, mode, false, k - 1);
      RecordsOfStep(env, t, files, k - 1);
    }
  }

  lemma RecordsOfStep(env: Env, t: FileTree, files: seq<RuntimeFile>, n: nat)
    requires forall f :: f in files ==> f.path in t
    requires n < |files|
    ensures RecordsOf(env, t, files[..n + 1])
         == RecordsOf(env, t, files[..n]) + [FileRecord(env, files[n].relative, files[n].scope, t[files[n].path])]
  {
    assert files[..n + 1][..n] == files[..n];
  }

  // ---------------------------------------------------------------------------
  // What a real archive leaves behind

  /** A publication that completes writes the manifest, the summary and the index,
      and changes nothing else. */
  lemma PublishFrame(t: FileTree, env: Env, s: Snapshot, manifest: Fields, entry: Fields)
    requires Publish(t, env, s, manifest, entry).status == Exited(0)
    ensures var r := Publish(t, env, s, manifest, entry).tree;
      var m := ManifestFile(s.campaignId, s.snapshotId);
      && m in r && r[m] == FileEntry(env.encode(JObj(manifest)), env.clock.seconds)
      && SameOutside(t, r, {m, SummaryFile(s.campaignId, s.snapshotId), IndexPath})
  {
    var m := ManifestFile(s.campaignId, s.snapshotId);
    var sm := SummaryFile(s.campaignId, s.snapshotId);
    var e1 := FileEntry(env.encode(JObj(manifest)), env.clock.seconds);
    var e2 := FileEntry(env.summary(JObj(manifest)), env.clock.seconds);
    var t1 := WriteFile(t, m, e1).value;
    var t2 := WriteFile(t1, sm, e2).value;
    var r := UpdateArchiveIndex(t2, env, entry).value;
    WriteFileFrame(t, m, e1);
    WriteFileFrame(t1, sm, e2);
    UpdateArchiveIndexFrame(t2, env, entry);
    assert SameOutside(t, t1, {m});
    assert SameOutside(t1, t2, {sm});
    assert SameOutside(t2, r, {IndexPath});
    SameOutsideThen(t, t1, t2, {m}, {sm});
    SameOutsideThen(t, t2, r, {m} + {sm}, {IndexPath});
    assert {m} + {sm} + {IndexPath} == {m, sm, IndexPath};
    assert m != sm && m != IndexPath by {
      assert m[4] != sm[4];
      assert |m| != |IndexPath|;
    }
  }

  /** After a publication that completes, the index lists the new entry exactly
      once, no other entry shares its campaign and snapshot, and the entries come
      newest first. */
  lemma PublishIndexes(t: FileTree, env: Env, s: Snapshot, manifest: Fields, entry: Fields)
    requires Sound(env)
    requires Publish(t, env, s, manifest, entry).status == Exited(0)
    ensures var r := Publish(t, env, s, manifest, entry).tree;
      && LoadIndex(r, env).Ok? && IndexEntries(LoadIndex(r, env).value).Ok?
      && var entries := IndexEntries(LoadIndex(r, env).value).value;
         && multiset(entries)[entry] == 1
         && (forall e :: e in entries && EntryKey(e) == EntryKey(entry) ==> e == entry)
         && (forall i, j :: 0 <= i < j < |entries| ==> PairLeq(SortKey(env, entries[j]), SortKey(env, entries[i])))
  {
    var t1 := WriteJson(t, env, ManifestFile(s.campaignId, s.snapshotId), JObj(manifest)).value;
    var t2 := WriteFile(t1, SummaryFile(s.campaignId, s.snapshotId),
                        FileEntry(env.summary(JObj(manifest)), env.clock.seconds)).value;
    UpdateArchiveIndexWrites(t2, env, entry);
    var before := IndexEntries(LoadIndex(t2, env).value).value;
    UpsertSingle(env, before, entry);
    UpsertSorted(env, before, entry);
  }

  /** The sum of the sizes of the files' contents in `t`. */
  function Bytes(t: FileTree, files: seq<RuntimeFile>): int
    requires forall f :: f in files ==> f.path in t
  {
    if files == [] then 0 else Bytes(t, files[..|files| - 1]) + |t[files[|files| - 1].path].data|
  }

  /** The records describe the files one by one, in order, and `counts.bytes` is the
      total size of the files. */
  lemma {:induction false} RecordsOfDescribe(env: Env, t: FileTree, files: seq<RuntimeFile>)
    requires forall f :: f in files ==> f.path in t
    ensures forall i :: 0 <= i < |files| ==>
      RecordsOf(env, t, files)[i] == FileRecord(env, files[i].relative, files[i].scope, t[files[i].path])
    ensures TotalBytes(RecordsOf(env, t, files)) == Bytes(t, files)
  {
    if files != [] {
      var init := files[..|files| - 1];
      RecordsOfDescribe(env, t, init);
      var r := RecordsOf(env, t, files);
      assert r[..|r| - 1] == RecordsOf(env, t, init);
    }
  }

  /** The files of a placeable tree at the end of a publication: the copies, the
      originals and nothing else besides the three written files. */
  lemma PlacedSurvives(t: FileTree, cur: FileTree, r: FileTree, snapshotDir: Path, ps: seq<Path>, mode: Mode,
                       written: set<Path>)
    requires Copied(t, cur, snapshotDir + ["data"], ps) && Kept(t, cur, ps, mode)
    requires Unchanged(t, cur) && Bounded(t, cur, snapshotDir + ["data"], ps)
    requires forall w :: w in written ==> |w| <= |snapshotDir| + 1
    requires forall i :: 0 <= i < |ps| ==> ps[i] != []
    requires SameOutside(cur, r, written)
    ensures Copied(t, r, snapshotDir + ["data"], ps)
    ensures forall q :: q in t && q !in written ==> (q in r <==> mode == Copy || q !in ps)
    ensures forall q :: q in t && q in r && q !in written ==> r[q] == t[q]
    ensures forall q :: q in r ==> q in t || q in written || CopyPlace(snapshotDir + ["data"], q, ps)
  {
    var dataDir := snapshotDir + ["data"];
    forall i | 0 <= i < |ps|
      ensures dataDir + ps[i] !in written
    {
      assert |dataDir + ps[i]| > |snapshotDir| + 1;
    }
  }

  lemma PlaceableNonEmpty(t: FileTree, snapshotDir: Path, files: seq<RuntimeFile>)
    requires Placeable(t, snapshotDir, files)
    ensures forall i :: 0 <= i < |files| ==> files[i].path != []
  {
    forall i | 0 <= i < |files|
      ensures files[i].path != []
    {
      assert files[i] in files;
    }
  }

  /** From a placeable tree the loop of a real archive completes, and publishing
      follows with the manifest and the index entry of the files as they were. */
  lemma ArchiveFilesPublishes(t: FileTree, env: Env, s: Snapshot, files: seq<RuntimeFile>)
    requires Placeable(t, SnapshotDir(s.campaignId, s.snapshotId), files)
    ensures var placed := PlaceAll(t, env, DataDir(s.campaignId, s.snapshotId), files, s.mode, false);
      && ArchiveFiles(t, env, s, files, false)
         == Publish(placed.tree, env, s, ArchiveManifest(env, s, ScopeSummary(files), RecordsOf(env, t, files)),
                    ArchiveIndexEntry(env, s, RecordsOf(env, t, files)))
      && Placed(t, placed.tree, DataDir(s.campaignId, s.snapshotId), files, s.mode)
  {
    PlaceAllPlaced(t, env, SnapshotDir(s.campaignId, s.snapshotId), files, s.mode);
    ArchiveFilesAfterLoop(t, env, s, files, RecordsOf(env, t, files));
  }

  lemma ArchiveFilesAfterLoop(t: FileTree, env: Env, s: Snapshot, files: seq<RuntimeFile>, records: seq<Fields>)
    requires !BlockedByFile(t, DataDir(s.campaignId, s.snapshotId))
    requires PlaceAll(t, env, DataDir(s.campaignId, s.snapshotId), files, s.mode, false).out == Ok(records)
    ensures ArchiveFiles(t, env, s, files, false)
         == Publish(PlaceAll(t, env, DataDir(s.campaignId, s.snapshotId), files, s.mode, false).tree, env, s,
                    ArchiveManifest(env, s, ScopeSummary(files), records), ArchiveIndexEntry(env, s, records))
  {
  }

  /** What a placeable tree looks like after a real archive that completes: every
      file has its content at its place below the data directory; in copy mode every
      other file stays, in move mode exactly the archived ones are gone; nothing else
      changes but the manifest, the summary and the index; and the manifest is the one
      describing the files. */
  lemma ArchiveFilesStores(t: FileTree, env: Env, s: Snapshot, files: seq<RuntimeFile>, run: Run)
    requires Placeable(t, SnapshotDir(s.campaignId, s.snapshotId), files)
    requires run == ArchiveFiles(t, env, s, files, false) && run.status == Exited(0)
    ensures Stored(t, run.tree, s, files, ArchiveManifest(env, s, ScopeSummary(files), RecordsOf(env, t, files)), env)
  {
    ArchiveFilesPublishes(t, env, s, files);
    var placed := PlaceAll(t, env, DataDir(s.campaignId, s.snapshotId), files, s.mode, false);
    PlaceableNonEmpty(t, SnapshotDir(s.campaignId, s.snapshotId), files);
    PublishStores(t, placed.tree, env, s, files, ArchiveManifest(env, s, ScopeSummary(files), RecordsOf(env, t, files)),
                  ArchiveIndexEntry(env, s, RecordsOf(env, t, files)), run);
  }

  /** The tree `r` after a real archive of `files` from `t` that wrote `manifest`:
      every file has its content at its place below the data directory; in copy mode
      every other file stays, in move mode exactly the archived ones are gone; nothing
      else changes but the manifest, the summary and the index; and the manifest file
      holds `manifest`. */
  ghost predicate Stored(t: FileTree, r: FileTree, s: Snapshot, files: seq<RuntimeFile>, manifest: Fields, env: Env) {
    var dataDir := DataDir(s.campaignId, s.snapshotId);
    var m := ManifestFile(s.campaignId, s.snapshotId);
    var written := {m, SummaryFile(s.campaignId, s.snapshotId), IndexPath};
    && Copied(t, r, dataDir, Sources(files))
    && (forall q :: q in t && q !in written ==> (q in r <==> s.mode == Copy || q !in Sources(files)))
    && (forall q :: q in t && q in r && q !in written ==> r[q] == t[q])
    && (forall q :: q in r ==> q in t || q in written || CopyPlace(dataDir, q, Sources(files)))
    && m in r && r[m] == FileEntry(env.encode(JObj(manifest)), env.clock.seconds)
  }

  lemma PublishStores(t: FileTree, placed: FileTree, env: Env, s: Snapshot, files: seq<RuntimeFile>, manifest: Fields,
                      entry: Fields, run: Run)
    requires Placed(t, placed, DataDir(s.campaignId, s.snapshotId), files, s.mode)
    requires forall i :: 0 <= i < |files| ==> files[i].path != []
    requires run == Publish(placed, env, s, manifest, entry) && run.status == Exited(0)
    ensures Stored(t, run.tree, s, files, manifest, env)
  {
    PublishFrame(placed, env, s, manifest, entry);
    PublishedKeeps(t, placed, run.tree, env, s, files, manifest);
  }

  /** A tree that differs from the placed one only in the manifest, the summary and
      the index, and holds the manifest, stores the archive. */
  lemma PublishedKeeps(t: FileTree, placed: FileTree, r: FileTree, env: Env, s: Snapshot, files: seq<RuntimeFile>,
                       manifest: Fields)
    requires Placed(t, placed, DataDir(s.campaignId, s.snapshotId), files, s.mode)
    requires forall i :: 0 <= i < |files| ==> files[i].path != []
    requires var m := ManifestFile(s.campaignId, s.snapshotId);
      && m in r && r[m] == FileEntry(env.encode(JObj(manifest)), env.clock.seconds)
      && SameOutside(placed, r, {m, SummaryFile(s.campaignId, s.snapshotId), IndexPath})
    ensures Stored(t, r, s, files, manifest, env)
  {
    var written := {ManifestFile(s.campaignId, s.snapshotId), SummaryFile(s.campaignId, s.snapshotId), IndexPath};
    forall i | 0 <= i < |Sources(files)|
      ensures Sources(files)[i] != []
    {
      assert Sources(files)[i] == files[i].path;
    }
    PlacedSurvives(t, placed, r, SnapshotDir(s.campaignId, s.snapshotId), Sources(files), s.mode, written);
  }

  /** The manifest reads back as written. */
  lemma StoredManifestLoads(t: FileTree, r: FileTree, s: Snapshot, files: seq<RuntimeFile>, manifest: Fields, env: Env)
    requires Sound(env) && Stored(t, r, s, files, manifest, env)
    ensures LoadJson(r, env, ManifestFile(s.campaignId, s.snapshotId), JObj(map[])) == Ok(JObj(manifest))
  {
    assert env.decode(env.encode(JObj(manifest))) == Parsed(JObj(manifest));
  }

  /** The manifest of a real archive lists one record per file, each describing its
      file as it was before the archive, and counts the files and their bytes. */
  lemma ArchiveManifestDescribes(env: Env, s: Snapshot, t: FileTree, files: seq<RuntimeFile>)
    requires forall f :: f in files ==> f.path in t
    ensures var m := ArchiveManifest(env, s, ScopeSummary(files), RecordsOf(env, t, files));
      && m["files"] == JArr(AsObjects(RecordsOf(env, t, files)))
      && (forall i :: 0 <= i < |files| ==>
            AsObjects(RecordsOf(env, t, files))[i]
            == JObj(FileRecord(env, files[i].relative, files[i].scope, t[files[i].path])))
      && m["counts"] == JObj(map[
           "files" := JNum(|files|),
           "bytes" := JNum(Bytes(t, files)),
           "bytes_human" := JStr(HumanSize(env, Bytes(t, files)))])
  {
    RecordsOfDescribe(env, t, files);
  }

  /** The files `collect_scope_files` returns from a well-formed tree are placeable
      into a snapshot directory that does not exist yet and whose data directory no
      file blocks. */
  lemma CollectedPlaceable(t: FileTree, env: Env, extras: seq<string>, snapshotDir: Path)
    requires WellFormed(t) && !Exists(t, snapshotDir) && !BlockedByFile(t, snapshotDir + ["data"])
    ensures Placeable(t, snapshotDir, Collected(t, env, extras))
  {
    CollectedAdmitted(t, env, extras);
    MissingIsFresh(t, snapshotDir);
    CollectedDistinct(t, env, extras);
  }

  /** Nothing lies at or below a path that does not exist. */
  lemma MissingIsFresh(t: FileTree, dir: Path)
    requires !Exists(t, dir)
    ensures Fresh(t, dir)
  {
    forall q | q in t
      ensures !Under(dir, q)
    {
      assert q[..|q|] == q;
    }
  }

  /** The collected files are distinct files. */
  lemma CollectedDistinct(t: FileTree, env: Env, extras: seq<string>)
    ensures var files := Collected(t, env, extras);
      forall i, j :: 0 <= i < j < |files| ==> files[i].path != files[j].path
  {
    var files := Collected(t, env, extras);
    CollectedAdmitted(t, env, extras);
    CollectedSorted(t, env, extras);
    forall i, j | 0 <= i < j < |files|
      ensures files[i].path != files[j].path
    {
      assert files[i] in files && files[j] in files;
      assert StrLess(files[i].relative, files[j].relative);
    }
  }

  /** A real archive that ends with 0 from a well-formed tree leaves the tree
      `Stored` describes: the collected files at their places below the data
      directory, the originals kept (copy) or gone (move), nothing else touched but
      the three written files, and the manifest of the files as they were. */
  lemma ArchiveStores(t: FileTree, env: Env, args: ArchiveArgs, campaignId: string, snapshotId: string)
    requires WellFormed(t) && !args.dryRun
    requires ArchivedAs(t, env, args, campaignId, snapshotId).status == Exited(0)
    ensures var files := Collected(t, env, args.extras);
      var s := SnapshotOf(t, env, args, campaignId, snapshotId);
      && (forall f :: f in files ==> f.path in t)
      && Stored(t, ArchivedAs(t, env, args, campaignId, snapshotId).tree, s, files,
                ArchiveManifest(env, s, ScopeSummary(files), RecordsOf(env, t, files)), env)
  {
    var files := Collected(t, env, args.extras);
    var s := SnapshotOf(t, env, args, campaignId, snapshotId);
    ArchiveRefusals(t, env, args, campaignId, snapshotId);
    var run := ArchiveFiles(t, env, s, files, false);
    assert ArchivedAs(t, env, args, campaignId, snapshotId) == run;
    assert !BlockedByFile(t, DataDir(campaignId, snapshotId));
    CollectedPlaceable(t, env, args.extras, SnapshotDir(campaignId, snapshotId));
    ArchiveFilesStores(t, env, s, files, run);
  }
}
