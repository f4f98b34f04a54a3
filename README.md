# Archive manager of the TRPG table, in Dafny

This project models `saves/save_manager.py`, the archive manager of a tabletop
role-playing session. The manager keeps runtime files: character sheets, session,
combat, exploration and system logs, and save notes.

- `archive` moves or copies those files into
  `saves/archives/<campaign>/<snapshot>/data/`. It writes a `manifest.json` with
  one record per file (size, modification time, SHA-256) and a `summary.md`. It
  then upserts an entry into the archive index `saves/archives/index.json`, which
  stays sorted newest first.
- `restore` finds a snapshot: the one named, or the newest readable one of the
  campaign. It plans every record, refusing a path that escapes the project, a
  missing payload, and (without `--force`) a path that is already taken. Only then
  does it move or copy the payloads back and compare each restored file with the
  digest its record promises.

The model has three layers.

1. Identifier and label normalisation (`Identifiers`, `Roles`). These are pure
   functions over `seq<char>`. Python's `\s` is the exact set of characters
   `str.isspace` accepts (`Chars.IsSpace`).
2. Bookkeeping (`Scopes`, `ArchiveIndex`, `Manifests`):
   - the first-claimant-wins collection of runtime files;
   - the per-scope counts;
   - the index upsert;
   - manifest reading, listing and resolution.
3. The two commands as transitions of a file tree (`Archive`, `Restore`). A tree
   is a `map<Path, FileEntry>` from segment sequences to bytes and a modification
   time (`Tree`). A directory exists when some file lies below it. A command ends
   in a `Runs.Run`: an exit code or the exception it raises, together with the
   tree it leaves. A command that raises part way leaves what it already moved.

`RoundTrip` joins the two commands: a restore that succeeds, of the snapshot an
archive just made, gives every collected file back its earlier content.

The environment is a parameter (`Environment.Env`). It holds:

- glob results;
- SHA-256 as an uninterpreted function of the bytes;
- the JSON encoder and decoder (`Sound(env)` says that decoding what was encoded
  gives it back);
- the ISO rendering of times;
- `str()` of containers;
- the Markdown summary;
- the clock.

Where the source loops, the model has a method with loop invariants. Each method is
proved equal to a function, and the properties are proved about that function as
lemmas:

- `Roles.ParseRolesInput`, `Roles.DetectMainRoles`;
- `Scopes.CollectScopeFiles`, `Scopes.RuntimeScopeSummary`;
- `Manifests.ListManifests`, `Manifests.ScanCampaigns`, `Manifests.ScanCampaign`, `Manifests.ScanSnapshots`, `Manifests.ScanSnapshot`, `Manifests.ResolveManifest`;
- `Archive.CmdArchive`, `Archive.PlaceFiles`;
- `Restore.CmdRestore`, `Restore.PlanRestore`, `Restore.ExecutePlan`.

## Model

| member | source | states |
|---|---|---|
| Identifiers.NormalizeCampaignId | saves/save_manager.py:74-79 | The result is non-empty, has no whitespace and none of `\ / : * ? " < > \|`, and neither starts nor ends with `.` or `_`. It raises `ValueError` exactly when the input holds no character that survives cleaning. |
| Identifiers.CampaignCleanIff | saves/save_manager.py:75-77 | The cleaned campaign text is empty if and only if the input has no surviving character (both directions). |
| Identifiers.CampaignIdIdempotent | saves/save_manager.py:74-79 | Normalising a normalised campaign id returns it unchanged. |
| Identifiers.NormalizeSnapshotId | saves/save_manager.py:82-89 | A missing or empty id becomes the clock's stamp. Otherwise it raises exactly when nothing survives; a result uses only `[0-9A-Za-z_-]` and does not start or end with `_`. |
| Identifiers.SnapshotCleanIff | saves/save_manager.py:85-87 | The cleaned snapshot text is empty if and only if the input has no character of `[0-9A-Za-z-]`. |
| Identifiers.SnapshotIdIdempotent | saves/save_manager.py:82-89 | Normalising a normalised snapshot id returns it unchanged. |
| Identifiers.ValidSnapshotIdIsClean | saves/save_manager.py:85-86 | Cleaning leaves a valid snapshot id as it is. |
| Identifiers.NormalizeAiBlip | saves/save_manager.py:92-94 | The blip has at most 20 characters, no two whitespace characters in a row, and no leading whitespace. It is empty exactly when the input is all whitespace. |
| Identifiers.NormalizeFilenamePiece | saves/save_manager.py:97-104 | Returns the fallback exactly when nothing survives cleaning. Otherwise the result has 1 to 32 characters, only word, CJK, `+` and `-` characters, no path-illegal character, no `__`, and no leading `_`. |
| Identifiers.PieceCleanIff | saves/save_manager.py:98-102 | The cleaned piece is empty if and only if the input holds no CJK, `+`, `-` or word character other than `_`. |
| Roles.ParseRolesInput | saves/save_manager.py:107-115 | The loop returns the distinct non-empty pieces of the separator split, in first-occurrence order. |
| Roles.ParsedRoles | saves/save_manager.py:107-115 | The parsed roles are non-empty, pairwise distinct, and contain no separator. Every non-empty piece appears, nothing else does, and the order is that of first occurrence. |
| Roles.CanonicalCharacterName | saves/save_manager.py:118-122 | The name is empty only for an all-whitespace stem, and has no edge whitespace. |
| Roles.DeadSheetName | saves/save_manager.py:118-122 | For a sheet named `<x>_已死亡` the canonical name is `x` stripped. |
| Roles.LivingSheetName | saves/save_manager.py:118-122 | A stem without the dead suffix gives the stem stripped. |
| Roles.DetectMainRoles | saves/save_manager.py:125-143 | The loop with its early `break` returns the first `limit` distinct names of the eligible sheets, newest first. |
| Roles.DetectedRolesShape | saves/save_manager.py:131-142 | At most `max(1, limit)` names, pairwise distinct and non-empty. |
| Roles.DetectedRolesSource | saves/save_manager.py:132-137 | Every detected name is the canonical name of an existing active sheet whose stem neither ends with `_已死亡` nor starts with `示例角色`. |
| Roles.DetectedRolesNewestFirst | saves/save_manager.py:129-140 | An earlier detected name comes from a sheet modified no earlier than that of a later one. |
| Roles.ResolveMainRoles | saves/save_manager.py:146-151 | Explicit text that parses to a non-empty list wins, sliced to `limit`; otherwise the roles are detected. The result is distinct, non-empty, and at most `limit` long for `limit >= 1`. |
| Roles.SaveFilenameHintShape | saves/save_manager.py:154-160 | The hint reads `save_<snapshot>_<tail>.md` with a non-empty tail. For a valid snapshot id it contains no path-illegal character. |
| Paths.SafeRelativePath | saves/save_manager.py:185-189 | The path is refused exactly when it is absolute, has a `..` segment, or names the root itself. An accepted path is canonical and non-empty. |
| Paths.SafeRelativePathOfPosix | saves/save_manager.py:181-189 | The POSIX text of a canonical relative path reads back as that path. |
| Tree.RemoveTree | saves/save_manager.py:192-198 | Removes exactly the files at or below the path and keeps every other file unchanged. |
| Tree.RemoveTreeGone | saves/save_manager.py:192-198 | After the removal nothing exists at the path. |
| Store.LoadJson | saves/save_manager.py:201-207 | A missing file gives the default. A parse failure is a `RuntimeError`, and only an unparsable file gives it. A file that is not UTF-8 raises `UnicodeDecodeError`, a `ValueError`, and only such a file does. |
| Store.WriteThenLoad | saves/save_manager.py:201-214 | What `write_json` writes, `load_json` reads back. |
| Store.WriteFileFrame | saves/save_manager.py:210-214 | A write puts the entry at its path and changes no other file. |
| Scopes.CollectScopeFiles | saves/save_manager.py:217-242 | The two claiming loops over the fixed scopes and the `--extra` patterns yield the first-claimant map, listed by relative path. |
| Scopes.CollectedSorted | saves/save_manager.py:242 | The collected files are strictly ascending by relative path, so no path appears twice. |
| Scopes.CollectedFirstClaimant | saves/save_manager.py:218-240 | Every collected file is the first claim of its relative path, and every claimed path is collected. |
| Scopes.CollectedAdmitted | saves/save_manager.py:221-239 | Every collected file exists, lies outside `saves/archives/`, and (for a fixed scope) does not have an excluded basename. |
| Scopes.CollectedScopeIsFirst | saves/save_manager.py:219-228 | A file's scope ranks no later than the scope of any other claim of the same path. |
| Scopes.CollectedExtraUnclaimed | saves/save_manager.py:230-240 | A file gets the scope `extra` only when no fixed scope claimed its path. |
| Scopes.ExtraKeepsExcludedNames | saves/save_manager.py:230-240 | A file outside `saves/archives/` that an extra pattern matches and no fixed scope claimed is collected with the scope `extra`, whatever its basename. |
| Scopes.RuntimeScopeSummary | saves/save_manager.py:245-249 | The summary maps exactly the scopes present to their file counts. |
| Scopes.CountsAddUp | saves/save_manager.py:245-249 | The per-scope counts add up to the number of files. |
| ArchiveIndex.LoadIndex | saves/save_manager.py:294-295 | Without an index file the index is the empty default at the current schema version. |
| ArchiveIndex.UpsertSingle | saves/save_manager.py:301-309 | After the upsert the new entry occurs exactly once, and every entry with its key is it. |
| ArchiveIndex.UpsertKeepsOthers | saves/save_manager.py:301-309 | Every entry with another key keeps its multiplicity. |
| ArchiveIndex.UpsertSorted | saves/save_manager.py:310-316 | The entries are descending by `(created_at, snapshot_id)`. |
| ArchiveIndex.UpdateArchiveIndexWrites | saves/save_manager.py:298-319 | The written index reads back as the upsert of the entries read, with the current schema version. |
| ArchiveIndex.UpdateArchiveIndexFrame | saves/save_manager.py:298-319 | The index update changes the index file and nothing else. |
| Order.SortBySorted | saves/save_manager.py:310-316 | The sort yields a permutation ordered by any total preorder. |
| Manifests.ReadManifest | saves/save_manager.py:322-328 | An accepted manifest is non-empty. |
| Manifests.ReadManifestAccepts | saves/save_manager.py:322-328 | A missing manifest is empty. A stored object is accepted exactly when it is non-empty and has `files`, `campaign_id` and `snapshot_id`. The errors are the parse, empty, schema and uncaught cases. |
| Manifests.ListManifests | saves/save_manager.py:331-358 | The nested directory loops compute the listing function. |
| Manifests.ScanCampaigns | saves/save_manager.py:337-349 | The outer loop over the archive directory's entries gathers the rows of every selected campaign, in order, and stops at the first error that is not a runtime error. |
| Manifests.ScanCampaign | saves/save_manager.py:338-342 | An entry that is not a directory, or that the campaign filter leaves out, adds no rows. Otherwise it adds the rows of its sorted snapshot directories. |
| Manifests.ScanSnapshots | saves/save_manager.py:342-349 | The inner loop gathers the rows of the given snapshot directories, in order, and stops at the first error that is not a runtime error. |
| Manifests.ScanSnapshot | saves/save_manager.py:343-349 | A snapshot without `manifest.json`, or whose manifest raises a runtime error, adds no row. Otherwise it adds its path and manifest, or propagates the error. |
| Manifests.ListedGenuine | saves/save_manager.py:337-349 | Every listed manifest is a readable manifest of a selected campaign, as read. |
| Manifests.ListedComplete | saves/save_manager.py:337-349 | Every readable manifest of a selected campaign is listed. |
| Manifests.ListedOnlyUncaught | saves/save_manager.py:346-349 | Only an error that is not a `RuntimeError` stops the listing: a manifest that is not UTF-8 (a `ValueError`) or an uncaught error. A `RuntimeError` skips the manifest. |
| Manifests.ListedNewestFirst | saves/save_manager.py:351-357 | The listing is descending by `(created_at, snapshot_id)`. |
| Manifests.ResolveManifest | saves/save_manager.py:361-375 | An unknown campaign or a missing named snapshot is refused. Without a snapshot id the result is the first listed manifest, which is at least as new as every other, and an empty listing is refused. |
| Archive.CmdArchive | saves/save_manager.py:405-520 | The command computes the functional model `Archived`. |
| Archive.PlaceFiles | saves/save_manager.py:452-467 | The placing loop computes `PlaceAll`. |
| Archive.ArchiveRejectsIdentifiers | saves/save_manager.py:407-408 | An id that does not normalise raises before anything changes. |
| Archive.ArchiveRefusals | saves/save_manager.py:411-428 | The command returns 1 exactly when no file is collected or the snapshot directory exists, and then the tree is unchanged. |
| Archive.ArchiveDryRun | saves/save_manager.py:449-494 | A dry run leaves the tree unchanged. |
| Archive.PlaceAllPlaced | saves/save_manager.py:452-467 | Placing placeable files records each file as it was, copies each to its place below the data directory, keeps the originals (copy) or removes exactly them (move), and adds nothing else. |
| Archive.ArchiveManifestDescribes | saves/save_manager.py:470-490 | The manifest has one record per file, describing it as it was. `counts.files` is the number of files, and `counts.bytes` is their total size. |
| Archive.PublishIndexes | saves/save_manager.py:496-513 | After the writes the index lists the new entry exactly once, no other entry shares its key, and the entries are newest first. |
| Archive.PublishFrame | saves/save_manager.py:496-513 | The writes put the manifest in place and change only the manifest, the summary and the index. |
| Archive.StoredManifestLoads | saves/save_manager.py:496 | The manifest file reads back as the manifest written. |
| Archive.ArchiveStores | saves/save_manager.py:405-520 | A successful real archive of a well-formed tree leaves this tree: every collected file at its place in the snapshot, the originals kept (copy) or gone (move), no other file changed but the three written ones, and the manifest of the files as they were. |
| Restore.ManifestRecords | saves/save_manager.py:559 | A manifest that is not an object raises. Otherwise a list under `files` (or a missing `files`) gives its items, an empty string or empty object gives no records, and any other value raises: `None`, a boolean or a number cannot be listed, and a non-empty string or object lists values on which the first `record.get` raises. |
| Restore.PlanStepShape | saves/save_manager.py:568-573 | A record plans if and only if it is an object whose stripped `relative_path` is safe. The plan's target is that path, not absolute, without `..`, and not the root. The source is the same path below the data directory. |
| Restore.PlanOfSteps | saves/save_manager.py:568-573 | Planning succeeds if and only if every record plans. The plan is then the records' steps, one for one. |
| Restore.PlanOfFirstError | saves/save_manager.py:568-573 | The first record that fails to plan decides the error. |
| Restore.MissingSources | saves/save_manager.py:575-576 | The list is empty if and only if every payload exists. |
| Restore.Collisions | saves/save_manager.py:577-578 | The list is empty if and only if no target exists. |
| Restore.PlanRestore | saves/save_manager.py:564-578 | The planning loop computes the plan, the missing payloads and the collisions. |
| Restore.Relocate | saves/save_manager.py:617-620 | A move or copy succeeds only from an existing payload. It puts the payload's content at its destination, removes the payload only when moving, and leaves every other file as it was. |
| Restore.Cleared | saves/save_manager.py:614-615 | With `--force` nothing remains at the target; files outside it are untouched, and nothing is added. |
| Restore.RestoreStep | saves/save_manager.py:613-627 | A turn fails only with an uncaught error or an integrity violation. A completed turn with a hash check leaves the target with the promised digest, and an integrity violation means the digest differs. |
| Restore.RestoreTurn | saves/save_manager.py:613-627 | One turn of the restore loop (clear on `--force`, move or copy, compare digests) computes exactly `RestoreStep`. |
| Restore.RestoreAll | saves/save_manager.py:610-628 | A completed loop restored one file per record (`restored == len(records)`), and it fails only with an uncaught error or an integrity violation. |
| Restore.RestoreAllStops | saves/save_manager.py:610-628 | The first failing turn ends the loop with the tree as it was then. |
| Restore.ExecutePlan | saves/save_manager.py:609-628 | The restore loop computes `RestoreAll`. |
| Restore.RestoreAllPlaces | saves/save_manager.py:610-628 | Over a plan whose payloads exist and whose paths keep apart, a completed loop leaves this tree: every target holds its payload's content, payloads are gone (move) or kept (copy), no other file is changed, no file is added but the targets, and every checked target has its promised digest. |
| Restore.IntegrityRaised | saves/save_manager.py:622-627 | An integrity violation happens only with the hash check on, and some restored target's digest differs from its non-empty promise. |
| Restore.Carried | saves/save_manager.py:580-636 | Exit 1 happens exactly when the plan is non-empty and a payload is missing, or a target is taken without `--force`; the tree is then unchanged, and so it is after a dry run. The tree changes only when all checks passed. |
| Restore.Planned | saves/save_manager.py:553-578 | A plan exists only when the data directory exists. Every target is a canonical non-root path whose source is the same path below the data directory. |
| Restore.RestoredFrom | saves/save_manager.py:553-636 | A planning failure raises with the tree unchanged, and so does any failure that is not an uncaught error or an integrity violation. |
| Restore.RestoreSnapshot | saves/save_manager.py:553-636 | The command from the resolved manifest on computes `RestoredFrom`. |
| Restore.SnapshotArg | saves/save_manager.py:550 | A missing or empty snapshot argument means none; otherwise it is a valid snapshot id, or the command raises. |
| Restore.Restored | saves/save_manager.py:547-636 | Bad ids, an unknown campaign or snapshot, an unreadable manifest, a missing data directory or an escaping path raise with the project unchanged. Exit 1 and dry runs also leave it unchanged. |
| Restore.CmdRestore | saves/save_manager.py:547-636 | The command computes `Restored`. |
| Restore.TraversalRefused | saves/save_manager.py:568-570 | A record with an absolute or `..` path, once every record before it plans, makes the command raise `ValueError` with the project unchanged. |
| Restore.RestorePlaces | saves/save_manager.py:547-636 | A restore that exits 0 (not a dry run) over a plan that keeps apart leaves the tree `RestoreAllPlaces` describes. |
| Restore.RestoreRefusesRoot | saves/save_manager.py:185-189 | A record without `relative_path` is refused as a traversal (corrected behaviour). |
| Paths.AsWrittenAcceptsRoot | saves/save_manager.py:185-189 | As written, `safe_relative_path` accepts `""` and `"."` as the root. |
| Paths.SafeRelativePathRefusesRoot | saves/save_manager.py:185-189 | The corrected check refuses `""` and `"."` with a traversal error. |
| Restore.RestoreAsWrittenWipes | saves/save_manager.py:568-618 | As written, with `--force`, a record without `relative_path` targets the project root, and the first turn removes every file of the project. |
| Restore.PlanStepAgrees | saves/save_manager.py:568-573 | A record that does not name the root plans the same step under the as-written and the corrected check. A record that names it is refused as a traversal by the corrected check; the as-written check plans it with the root as target and the data directory as source. |
| Restore.PlanOfAgrees | saves/save_manager.py:568-573 | Records none of which names the root plan the same under both checks, step for step. |
| Restore.RootStepAsWritten | saves/save_manager.py:577-618 | A plan step whose target is the root: without `--force` the root is a collision and the restore returns 1 with the tree unchanged; as the first step of a real `--force` restore whose payloads exist, it removes every file and the restore then raises. |
| Restore.RootRecordAsWritten | saves/save_manager.py:568-618 | As written, records led by one without `relative_path` plan the root from the data directory, and the restore returns 1 without `--force`. With `--force`, not a dry run and every payload present, it removes every file of the project and raises. |
| Restore.RestoredFromAgrees | saves/save_manager.py:553-636 | A manifest none of whose records names the root gives the same plan and the same run, tree and status, as written and corrected. |
| Restore.RootManifestAsWritten | saves/save_manager.py:553-636 | A manifest whose first record has no `relative_path`: the corrected restore raises a traversal error with the project unchanged; as written it returns 1 without `--force` and, with `--force`, not a dry run and every payload present, ends with an empty tree and an uncaught error. |
| RoundTrip.ArchiveGuards | saves/save_manager.py:411-428 | A real archive that exits 0 collected at least one file, found no snapshot directory, and found no file where the data directory's parents go. |
| RoundTrip.ArchiveSnapshots | saves/save_manager.py:405-520 | A real archive of a well-formed project that exits 0 leaves a snapshot: each collected file once, copied below a fresh data directory, and the manifest describing them. |
| RoundTrip.RecordPlans | saves/save_manager.py:568-573 | A record naming, without edge whitespace, the POSIX text of a canonical path plans the step from that path below the data directory back to the path. |
| RoundTrip.RecordsPlan | saves/save_manager.py:467-573 | When every collected relative path is free of edge whitespace (`Strip(f.relative, IsSpace) == f.relative`), the records the archive writes plan, on restore, one step per file, in order, from the file's copy back to the file's own path. |
| RoundTrip.StoredPlans | saves/save_manager.py:553-573 | The stored manifest is read back, its data directory exists, and its plan is exactly the plan of the records the archive wrote. |
| RoundTrip.PlanKeptApart | saves/save_manager.py:568-578 | That plan keeps apart in the archived tree: payloads exist and are distinct, and no target lies at or below another target or a payload. |
| RoundTrip.SnapshotRestores | saves/save_manager.py:547-636 | When every archived relative path is free of edge whitespace (`Strip(f.relative, IsSpace) == f.relative`), a real restore of such a snapshot that exits 0 gives every archived file back the content it had when it was archived. |
| RoundTrip.ArchiveThenRestore | saves/save_manager.py:405-636 | Archive then restore, in any modes, both exiting 0 and neither a dry run: every collected file of a well-formed project is back at its path with its content from before the archive. |

## Left out

- Printing, `cmd_status`, `cmd_list`, `build_parser` and `main` are not modelled. `cmd_list` only prints the listing that `Manifests.ListManifests` computes.
- Glob matching is not modelled. `Env.glob` gives the resolved matches of a pattern as paths relative to the root. Symbolic links and `resolve()` are not modelled.
- `\w` is taken as ASCII letters, digits and `_`. The CJK range of `normalize_filename_piece` is listed explicitly. Other Unicode letters and digits that Python's `\w` accepts are treated as non-word characters.
- `str.lower()` on excluded basenames is modelled as ASCII lower-casing.
- JSON values follow Python's `==`, except that `True == 1` and `1 == 1.0` are not identified. Numbers are integers, and key order is not kept.
- The temporary file of `write_json` is not modelled. A write replaces the file at once.
- `human_size` from 1024 bytes up (float formatting), `now_iso`, `default_snapshot_id` and the mtime rendering are parameters of `Env`.
- `hash_sha256` is `Env.digest`, an uninterpreted function of the bytes.
- The text of `build_summary_markdown` is `Env.summary`, an uninterpreted function of the manifest.
- Directories are implied by the files below them. Empty directories and `mkdir` itself are not modelled. Creating parents below an existing file raises.
- A directory at a restore source or an archive destination is not modelled. The model raises where `shutil.move` would move a whole directory.
- Read errors other than a JSON parse error or non-UTF-8 text (permissions, I/O failures) are not modelled.
- Restore.RestoredFrom: does not state what a failure raised part way through the restore loop leaves. The tree is then the partial tree of `Restore.RestoreAll`, with the earlier files already placed.
- Restore.RestorePlaces: requires a plan whose paths are kept apart (`Separate`): payloads exist, distinct records have distinct payloads, and no target lies at or below another target or a payload. Plans that overlap are executed as written but get no end-state guarantee.
- Restore.RestoreAllPlaces: has the same `Separate` requirement. Without it one target can lie inside another. For targets `a/b` and then `a`, the second turn finds `a` is a directory: with `--force` it removes `a/b`, which the first turn had just restored, and without `--force` the copy lands inside `a/`. Either way the end state is not the one stated; the model executes such plans as the source does, through `Restore.Destination`.
- Restore.PlanStepShape: states the corrected check. A record whose stripped `relative_path` is `""` or `"."` (or missing) names the root; the source accepts it at line 570, and the model refuses it with a traversal error (see Findings). `Restore.PlanStepAgrees` proves the two agree on every other record, and `Restore.PlanStepAsWritten` is the source's step.
- Restore.PlanRestore: plans with the corrected check, so a record naming the root raises a traversal error where the source reports the root as a collision; `Restore.PlanOfAgrees` proves the plans equal when no record names the root.
- Restore.Planned: uses the corrected check; `Restore.PlannedAsWritten` is the source's planning, equal to it by `Restore.RestoredFromAgrees` when no record names the root.
- Restore.RestoredFrom: uses the corrected check; a manifest with a record naming the root raises a traversal error here, while the source returns 1 or, with `--force`, wipes the project (`Restore.RootManifestAsWritten`, `Restore.RestoredFromAsWritten`).
- Restore.RestoreSnapshot: computes `Restore.RestoredFrom`, so it shares that member's difference on records naming the root.
- Restore.Restored: ends in `Restore.RestoredFrom`, so it shares that member's difference on records naming the root.
- Restore.CmdRestore: computes `Restore.Restored`, so it shares that member's difference on records naming the root.
- Archive.PlaceFiles: checks each relative path with the as-written `safe_relative_path`, as the source does at line 455. A collected file of a well-formed tree has a non-empty canonical path, so the corrected check would give the same result there.
- Paths.SafeRelativePathAsWritten: reads paths with POSIX rules only. Windows parsing (`\` as a separator, so `..\x` is not refused; `/etc/x` and `C:x` not counted as absolute) is not modelled.
- Paths.SafeRelativePath: reads paths with POSIX rules only, as `Paths.SafeRelativePathAsWritten` does.
- Restore.TraversalRefused: covers POSIX absolute and `..` paths only; the Windows forms above are not modelled.
- RoundTrip.ArchiveThenRestore: requires every collected relative path to be free of edge whitespace. The restore strips `relative_path` at line 569, so a file named ` x.md` would be looked for as `x.md` below the data directory, and the restore would return 1 for a missing payload.
- Restore.Collisions: keeps the relative paths but not the 20-item truncation of the printed report, which is output only.

## Findings

| source | as written | input that shows it | evidently intended | confidence | as-written member | corrected member |
|---|---|---|---|---|---|---|
| saves/save_manager.py:185-189, used at 569-573 and 613-615 | `safe_relative_path` refuses only absolute paths and `..` segments, so `""` and `"."` pass as the root itself. | A manifest record without `relative_path` (or with `""` or `"."`), restored with `--force`. The root always exists, so the record is a collision; `--force` then removes the whole project tree, the snapshot's own payload included, before the move fails. | A path that names the root is refused like a traversal, before anything changes. | not executed | Paths.AsWrittenAcceptsRoot, Restore.RestoreAsWrittenWipes, Restore.RootManifestAsWritten | Paths.SafeRelativePath, Paths.SafeRelativePathRefusesRoot, Restore.RestoreRefusesRoot, Restore.RestoredFromAgrees |
