/** Finding snapshots: `read_manifest`, `list_manifests` and `resolve_manifest`
    (saves/save_manager.py lines 322-375). */
module Manifests {
  import opened Outcome
  import opened Order
  import opened Paths
  import opened Tree
  import opened Json
  import opened Environment
  import opened Store
  import opened ArchiveIndex

  const ManifestName: string := "manifest.json"

  /** `read_manifest(path)`: the document must be non-empty and hold `files`,
      `campaign_id` and `snapshot_id` (Python's `in`, checked in that order). */
  function ReadManifest(t: FileTree, env: Env, path: Path): (r: Result<Json>)
    ensures r.Ok? ==> Truthy(r.value)
  {
    var data :- LoadJson(t, env, path, JObj(map[]));
    if !Truthy(data) then Err(ManifestEmpty)
    else
      var hasFiles :- Contains(data, "files");
      // Once the first `in` has not raised, `data` is a container and the others cannot.
      if !hasFiles || !Contains(data, "campaign_id").value || !Contains(data, "snapshot_id").value then
        Err(ManifestSchemaInvalid)
      else Ok(data)
  }

  /** The errors `read_manifest` raises as `RuntimeError`, which `list_manifests` skips. */
  predicate IsRuntimeError(e: Error) {
    e != Uncaught && e != EmptyIdentifier && e != PathTraversal && e != NotUtf8
  }

  /** A stored object manifest is accepted exactly when it is non-empty and has the three
      required keys; a missing manifest is empty, and the errors are the ones named. */
  lemma ReadManifestAccepts(t: FileTree, env: Env, path: Path)
    ensures !Exists(t, path) ==> ReadManifest(t, env, path) == Err(ManifestEmpty)
    ensures path in t && env.decode(t[path].data).Parsed? && env.decode(t[path].data).value.JObj? ==>
      var fields := env.decode(t[path].data).value.fields;
      (ReadManifest(t, env, path).Ok? <==>
         fields != map[] && "files" in fields && "campaign_id" in fields && "snapshot_id" in fields)
    ensures ReadManifest(t, env, path).Err? ==>
      var e := ReadManifest(t, env, path).error;
      e == JsonParseFailed || e == ManifestEmpty || e == ManifestSchemaInvalid || e == NotUtf8 || e == Uncaught
  {
  }

  /** A manifest found under the archive directory, as `list_manifests` returns it. */
  datatype Listed = Listed(path: Path, data: Json)

  function ListedKey(env: Env, row: Listed): (string, string) {
    if row.data.JObj? then SortKey(env, row.data.fields) else ("", "")
  }

  /** Newest first, as `sort(..., reverse=True)` orders the rows. */
  function ListedOrder(env: Env): (Listed, Listed) -> bool {
    (a: Listed, b: Listed) => PairLeq(ListedKey(env, b), ListedKey(env, a))
  }

  lemma ListedOrderIsTotal(env: Env)
    ensures TotalPreorder(ListedOrder(env))
  {
    forall a: Listed, b: Listed
      ensures ListedOrder(env)(a, b) || ListedOrder(env)(b, a)
    {
      PairLeqTotal(ListedKey(env, a), ListedKey(env, b));
    }
    forall a: Listed, b: Listed, c: Listed | ListedOrder(env)(a, b) && ListedOrder(env)(b, c)
      ensures ListedOrder(env)(a, c)
    {
      PairLeqTransitive(ListedKey(env, c), ListedKey(env, b), ListedKey(env, a));
    }
  }

  function ManifestPath(campaign: string, snapshot: string): Path {
    ArchivesDir + [campaign, snapshot, ManifestName]
  }

  /** `if campaign and campaign_dir.name != campaign: continue`, negated. */
  predicate Selected(filter: Option<string>, name: string) {
    filter == None || filter.value == [] || filter.value == name
  }

  /** What one snapshot directory contributes: its manifest if it reads, nothing if
      it is missing or raises a `RuntimeError`; other errors propagate. */
  function SnapshotRow(t: FileTree, env: Env, campaign: string, snapshot: string): Result<seq<Listed>> {
    var path := ManifestPath(campaign, snapshot);
    if !Exists(t, path) then Ok([])
    else
      match ReadManifest(t, env, path)
      case Ok(data) => Ok([Listed(path, data)])
      case Err(e) => if IsRuntimeError(e) then Ok([]) else Err(e)
  }

  /** The manifests of the snapshots `names` of one campaign, in order. */
  function SnapshotRows(t: FileTree, env: Env, campaign: string, names: seq<string>): Result<seq<Listed>> {
    if names == [] then Ok([])
    else
      var init :- SnapshotRows(t, env, campaign, names[..|names| - 1]);
      var last :- SnapshotRow(t, env, campaign, names[|names| - 1]);
      Ok(init + last)
  }

  /** What one entry of the archive directory contributes. */
  function CampaignRows(t: FileTree, env: Env, filter: Option<string>, campaign: string): Result<seq<Listed>> {
    var dir := ArchivesDir + [campaign];
    if !IsDir(t, dir) || !Selected(filter, campaign) then Ok([])
    else SnapshotRows(t, env, campaign, SortedStrings(Children(t, dir)))
  }

  function AllRows(t: FileTree, env: Env, filter: Option<string>, campaigns: seq<string>): Result<seq<Listed>> {
    if campaigns == [] then Ok([])
    else
      var init :- AllRows(t, env, filter, campaigns[..|campaigns| - 1]);
      var last :- CampaignRows(t, env, filter, campaigns[|campaigns| - 1]);
      Ok(init + last)
  }

  predicate AllDicts(rows: seq<Listed>) {
    forall i :: 0 <= i < |rows| ==> rows[i].data.JObj?
  }

  /** What `list_manifests(root, campaign)` returns: the readable manifests of the
      selected campaigns, newest first. The sort key reads `.get` of every manifest,
      so one that is not an object raises. A file where the archive directory
      should be cannot be listed. */
  function ManifestsListed(t: FileTree, env: Env, filter: Option<string>): Result<seq<Listed>> {
    if !Exists(t, ArchivesDir) then Ok([])
    else if ArchivesDir in t then Err(Uncaught)
    else
      var rows :- AllRows(t, env, filter, SortedStrings(Children(t, ArchivesDir)));
      if AllDicts(rows) then Ok(SortBy(rows, ListedOrder(env))) else Err(Uncaught)
  }

  // ---------------------------------------------------------------------------
  // list_manifests

  /** `list_manifests(root, campaign)`. */
  method ListManifests(t: FileTree, env: Env, filter: Option<string>) returns (r: Result<seq<Listed>>)
    ensures r == ManifestsListed(t, env, filter)
  {
    if !Exists(t, ArchivesDir) {
      return Ok([]);
    }
    if ArchivesDir in t {
      return Err(Uncaught);
    }
    var found := ScanCampaigns(t, env, filter, SortedStrings(Children(t, ArchivesDir)));
    if found.Err? {
      return Err(found.error);
    }
    if !AllDicts(found.value) {
      return Err(Uncaught);
    }
    return Ok(SortBy(found.value, ListedOrder(env)));
  }

  /** The outer loop of `list_manifests`, over the entries of the archive directory. */
  method ScanCampaigns(t: FileTree, env: Env, filter: Option<string>, campaigns: seq<string>) returns (r: Result<seq<Listed>>)
    ensures r == AllRows(t, env, filter, campaigns)
  {
    var rows: seq<Listed> := [];
    for i := 0 to |campaigns|
      invariant AllRows(t, env, filter, campaigns[..i]) == Ok(rows)
    {
      AllRowsStep(t, env, filter, campaigns, i, rows);
      var more := ScanCampaign(t, env, filter, campaigns[i]);
      if more.Err? {
        AllRowsErrorStops(t, env, filter, campaigns, i + 1);
        return Err(more.error);
      }
      rows := rows + more.value;
    }
    assert campaigns[..|campaigns|] == campaigns;
    return Ok(rows);
  }

  /** The inner loop of `list_manifests`, over the snapshot directories `names` of one
      campaign, in sorted order. */
  method ScanSnapshots(t: FileTree, env: Env, campaign: string, names: seq<string>) returns (r: Result<seq<Listed>>)
    ensures r == SnapshotRows(t, env, campaign, names)
  {
    var rows: seq<Listed> := [];
    for k := 0 to |names|
      invariant SnapshotRows(t, env, campaign, names[..k]) == Ok(rows)
    {
      SnapshotRowsStep(t, env, campaign, names, k, rows);
      var row := ScanSnapshot(t, env, campaign, names[k]);
      if row.Err? {
        SnapshotRowsErrorStops(t, env, campaign, names, k + 1);
        return Err(row.error);
      }
      rows := rows + row.value;
    }
    assert names[..|names|] == names;
    return Ok(rows);
  }

  /** One turn of the outer loop: a campaign directory the filter selects contributes
      the rows of its snapshots; anything else is skipped. */
  method ScanCampaign(t: FileTree, env: Env, filter: Option<string>, name: string) returns (r: Result<seq<Listed>>)
    ensures r == CampaignRows(t, env, filter, name)
  {
    if !IsDir(t, ArchivesDir + [name]) {
      return Ok([]);
    }
    if filter.Some? && filter.value != [] && name != filter.value {
      return Ok([]);
    }
    var names := SortedStrings(Children(t, ArchivesDir + [name]));
    r := ScanSnapshots(t, env, name, names);
  }

  /** One turn of the inner loop: a snapshot without a manifest is skipped, and so is
      one whose manifest fails with a runtime error; any other failure propagates. */
  method ScanSnapshot(t: FileTree, env: Env, campaign: string, name: string) returns (r: Result<seq<Listed>>)
    ensures r == SnapshotRow(t, env, campaign, name)
  {
    var path := ManifestPath(campaign, name);
    if !Exists(t, path) {
      return Ok([]);
    }
    var read := ReadManifest(t, env, path);
    if read.Err? {
      if IsRuntimeError(read.error) {
        return Ok([]);
      }
      return Err(read.error);
    }
    return Ok([Listed(path, read.value)]);
  }

  lemma SnapshotRowsStep(t: FileTree, env: Env, campaign: string, names: seq<string>, k: nat, rows: seq<Listed>)
    requires k < |names| && SnapshotRows(t, env, campaign, names[..k]) == Ok(rows)
    ensures var last := SnapshotRow(t, env, campaign, names[k]);
      SnapshotRows(t, env, campaign, names[..k + 1]) == if last.Ok? then Ok(rows + last.value) else Err(last.error)
  {
    assert names[..k + 1][..k] == names[..k];
  }

  lemma AllRowsStep(t: FileTree, env: Env, filter: Option<string>, campaigns: seq<string>, i: nat, rows: seq<Listed>)
    requires i < |campaigns| && AllRows(t, env, filter, campaigns[..i]) == Ok(rows)
    ensures var last := CampaignRows(t, env, filter, campaigns[i]);
      AllRows(t, env, filter, campaigns[..i + 1]) == if last.Ok? then Ok(rows + last.value) else Err(last.error)
  {
    assert campaigns[..i + 1][..i] == campaigns[..i];
  }

  /** An error aborts the scan: once a prefix fails, the whole scan fails with it. */
  lemma {:induction false} SnapshotRowsErrorStops(t: FileTree, env: Env, campaign: string, names: seq<string>, k: nat)
    requires k <= |names| && SnapshotRows(t, env, campaign, names[..k]).Err?
    ensures SnapshotRows(t, env, campaign, names) == Err(SnapshotRows(t, env, campaign, names[..k]).error)
    decreases |names|
  {
    if k == |names| {
      assert names[..k] == names;
    } else {
      var init := names[..|names| - 1];
      assert init[..k] == names[..k];
      SnapshotRowsErrorStops(t, env, campaign, init, k);
    }
  }

  lemma {:induction false} AllRowsErrorStops(t: FileTree, env: Env, filter: Option<string>, campaigns: seq<string>, k: nat)
    requires k <= |campaigns| && AllRows(t, env, filter, campaigns[..k]).Err?
    ensures AllRows(t, env, filter, campaigns) == Err(AllRows(t, env, filter, campaigns[..k]).error)
    decreases |campaigns|
  {
    if k == |campaigns| {
      assert campaigns[..k] == campaigns;
    } else {
      var init := campaigns[..|campaigns| - 1];
      assert init[..k] == campaigns[..k];
      AllRowsErrorStops(t, env, filter, init, k);
    }
  }

  // ---------------------------------------------------------------------------
  // What the listing holds

  /** A listed row is a readable manifest of a selected campaign. */
  ghost predicate Genuine(t: FileTree, env: Env, filter: Option<string>, row: Listed) {
    exists c, s :: row.path == ManifestPath(c, s) && Selected(filter, c) && ReadManifest(t, env, row.path) == Ok(row.data)
  }

  lemma {:induction false} SnapshotRowsGenuine(t: FileTree, env: Env, filter: Option<string>, campaign: string, names: seq<string>)
    requires Selected(filter, campaign)
    requires SnapshotRows(t, env, campaign, names).Ok?
    ensures forall row :: row in SnapshotRows(t, env, campaign, names).value ==> Genuine(t, env, filter, row)
    decreases |names|
  {
    if names != [] {
      SnapshotRowsGenuine(t, env, filter, campaign, names[..|names| - 1]);
      var s := names[|names| - 1];
      var last := SnapshotRow(t, env, campaign, s);
      forall row | row in last.value
        ensures Genuine(t, env, filter, row)
      {
        assert row.path == ManifestPath(campaign, s);
      }
    }
  }

  lemma {:induction false} AllRowsGenuine(t: FileTree, env: Env, filter: Option<string>, campaigns: seq<string>)
    requires AllRows(t, env, filter, campaigns).Ok?
    ensures forall row :: row in AllRows(t, env, filter, campaigns).value ==> Genuine(t, env, filter, row)
    decreases |campaigns|
  {
    if campaigns != [] {
      AllRowsGenuine(t, env, filter, campaigns[..|campaigns| - 1]);
      var c := campaigns[|campaigns| - 1];
      var dir := ArchivesDir + [c];
      if IsDir(t, dir) && Selected(filter, c) {
        SnapshotRowsGenuine(t, env, filter, c, SortedStrings(Children(t, dir)));
      }
    }
  }

  /** Only an error that is not a `RuntimeError` stops the listing: a manifest that
      does not decode, is empty or lacks a key is skipped, while one that is not
      UTF-8 (a `ValueError`) and an uncaught error end it. */
  lemma ListedOnlyUncaught(t: FileTree, env: Env, filter: Option<string>)
    ensures ManifestsListed(t, env, filter).Err? ==> ManifestsListed(t, env, filter).error == Uncaught || ManifestsListed(t, env, filter).error == NotUtf8
  {
    if Exists(t, ArchivesDir) && ArchivesDir !in t {
      AllRowsErrors(t, env, filter, SortedStrings(Children(t, ArchivesDir)));
    }
  }

  /** Every listed manifest reads as listed and belongs to a selected campaign. */
  lemma ListedGenuine(t: FileTree, env: Env, filter: Option<string>)
    ensures ManifestsListed(t, env, filter).Ok? ==>
      forall row :: row in ManifestsListed(t, env, filter).value ==> Genuine(t, env, filter, row)
  {
    if Exists(t, ArchivesDir) && ArchivesDir !in t {
      var campaigns := SortedStrings(Children(t, ArchivesDir));
      var all := AllRows(t, env, filter, campaigns);
      if all.Ok? && AllDicts(all.value) {
        AllRowsGenuine(t, env, filter, campaigns);
        var sorted := SortBy(all.value, ListedOrder(env));
        forall row | row in sorted
          ensures Genuine(t, env, filter, row)
        {
          assert row in multiset(sorted);
        }
      }
    }
  }

  /** Every readable manifest of a selected campaign is listed. */
  lemma ListedComplete(t: FileTree, env: Env, filter: Option<string>, campaign: string, snapshot: string)
    requires ManifestsListed(t, env, filter).Ok?
    requires Selected(filter, campaign) && ReadManifest(t, env, ManifestPath(campaign, snapshot)).Ok?
    ensures Listed(ManifestPath(campaign, snapshot), ReadManifest(t, env, ManifestPath(campaign, snapshot)).value)
            in ManifestsListed(t, env, filter).value
  {
    var path := ManifestPath(campaign, snapshot);
    var dir := ArchivesDir + [campaign];
    var row := Listed(path, ReadManifest(t, env, path).value);
    ManifestDirectories(t, env, campaign, snapshot);
    var campaigns := SortedStrings(Children(t, ArchivesDir));
    AllRowsParts(t, env, filter, campaigns, campaign);
    SnapshotRowsComplete(t, env, campaign, SortedStrings(Children(t, dir)), snapshot);
    AllRowsComplete(t, env, filter, campaigns, campaign, row);
    var all := AllRows(t, env, filter, campaigns).value;
    assert row in multiset(SortBy(all, ListedOrder(env)));
  }

  /** A readable manifest lies in a snapshot directory of a campaign directory, both of
      which the scan visits. */
  lemma ManifestDirectories(t: FileTree, env: Env, campaign: string, snapshot: string)
    requires ReadManifest(t, env, ManifestPath(campaign, snapshot)).Ok?
    ensures IsDir(t, ArchivesDir) && IsDir(t, ArchivesDir + [campaign])
    ensures campaign in SortedStrings(Children(t, ArchivesDir))
    ensures snapshot in SortedStrings(Children(t, ArchivesDir + [campaign]))
  {
    ReadManifestAccepts(t, env, ManifestPath(campaign, snapshot));
    ManifestPathDirectories(t, campaign, snapshot);
  }

  /** The directories above a manifest file that exists. */
  lemma ManifestPathDirectories(t: FileTree, campaign: string, snapshot: string)
    requires ManifestPath(campaign, snapshot) in t
    ensures IsDir(t, ArchivesDir) && IsDir(t, ArchivesDir + [campaign])
    ensures campaign in SortedStrings(Children(t, ArchivesDir))
    ensures snapshot in SortedStrings(Children(t, ArchivesDir + [campaign]))
  {
    var path := ManifestPath(campaign, snapshot);
    var dir := ArchivesDir + [campaign];
    assert path[..|dir|] == dir && path[..|ArchivesDir|] == ArchivesDir;
    assert path[..|dir + [snapshot]|] == dir + [snapshot];
  }

  lemma {:induction false} SnapshotRowsComplete(t: FileTree, env: Env, campaign: string, names: seq<string>, snapshot: string)
    requires SnapshotRows(t, env, campaign, names).Ok?
    requires snapshot in names && ReadManifest(t, env, ManifestPath(campaign, snapshot)).Ok?
    ensures Listed(ManifestPath(campaign, snapshot), ReadManifest(t, env, ManifestPath(campaign, snapshot)).value)
            in SnapshotRows(t, env, campaign, names).value
    decreases |names|
  {
    var init := names[..|names| - 1];
    if snapshot == names[|names| - 1] {
      ReadManifestAccepts(t, env, ManifestPath(campaign, snapshot));
    } else {
      assert snapshot in init by {
        var i :| 0 <= i < |names| && names[i] == snapshot;
        assert init[i] == snapshot;
      }
      SnapshotRowsComplete(t, env, campaign, init, snapshot);
    }
  }

  lemma {:induction false} AllRowsComplete(t: FileTree, env: Env, filter: Option<string>, campaigns: seq<string>,
                                           campaign: string, row: Listed)
    requires AllRows(t, env, filter, campaigns).Ok? && campaign in campaigns
    requires CampaignRows(t, env, filter, campaign).Ok? && row in CampaignRows(t, env, filter, campaign).value
    ensures row in AllRows(t, env, filter, campaigns).value
    decreases |campaigns|
  {
    var init := campaigns[..|campaigns| - 1];
    if campaign != campaigns[|campaigns| - 1] {
      assert campaign in init by {
        var i :| 0 <= i < |campaigns| && campaigns[i] == campaign;
        assert init[i] == campaign;
      }
      AllRowsComplete(t, env, filter, init, campaign, row);
    }
  }

  /** When the scan succeeds, so does the scan of each campaign in it. */
  lemma {:induction false} AllRowsParts(t: FileTree, env: Env, filter: Option<string>, campaigns: seq<string>, campaign: string)
    requires AllRows(t, env, filter, campaigns).Ok? && campaign in campaigns
    ensures CampaignRows(t, env, filter, campaign).Ok?
    decreases |campaigns|
  {
    var init := campaigns[..|campaigns| - 1];
    if campaign != campaigns[|campaigns| - 1] {
      assert campaign in init by {
        var i :| 0 <= i < |campaigns| && campaigns[i] == campaign;
        assert init[i] == campaign;
      }
      AllRowsParts(t, env, filter, init, campaign);
    }
  }

  /** The listing is newest first: descending by `(created_at, snapshot_id)`. */
  lemma ListedNewestFirst(t: FileTree, env: Env, filter: Option<string>)
    ensures ManifestsListed(t, env, filter).Ok? ==>
      var rows := ManifestsListed(t, env, filter).value;
      forall i, j :: 0 <= i < j < |rows| ==> PairLeq(ListedKey(env, rows[j]), ListedKey(env, rows[i]))
  {
    if Exists(t, ArchivesDir) && ArchivesDir !in t {
      var all := AllRows(t, env, filter, SortedStrings(Children(t, ArchivesDir)));
      if all.Ok? && AllDicts(all.value) {
        ListedOrderIsTotal(env);
        SortBySorted(all.value, ListedOrder(env));
      }
    }
  }

  lemma {:induction false} SnapshotRowsErrors(t: FileTree, env: Env, campaign: string, names: seq<string>)
    ensures SnapshotRows(t, env, campaign, names).Err? ==> SnapshotRows(t, env, campaign, names).error == Uncaught || SnapshotRows(t, env, campaign, names).error == NotUtf8
    decreases |names|
  {
    if names != [] {
      SnapshotRowsErrors(t, env, campaign, names[..|names| - 1]);
      ReadManifestAccepts(t, env, ManifestPath(campaign, names[|names| - 1]));
    }
  }

  lemma {:induction false} AllRowsErrors(t: FileTree, env: Env, filter: Option<string>, campaigns: seq<string>)
    ensures AllRows(t, env, filter, campaigns).Err? ==> AllRows(t, env, filter, campaigns).error == Uncaught || AllRows(t, env, filter, campaigns).error == NotUtf8
    decreases |campaigns|
  {
    if campaigns != [] {
      AllRowsErrors(t, env, filter, campaigns[..|campaigns| - 1]);
      var c := campaigns[|campaigns| - 1];
      SnapshotRowsErrors(t, env, c, SortedStrings(Children(t, ArchivesDir + [c])));
    }
  }

  // ---------------------------------------------------------------------------
  // resolve_manifest

  /** The manifest `resolve_manifest` settles on. */
  function Resolved(t: FileTree, env: Env, campaignId: string, snapshotId: Option<string>): Result<Path> {
    if !Exists(t, ArchivesDir + [campaignId]) then Err(CampaignNotFound)
    else if snapshotId.Some? && snapshotId.value != [] then
      if Exists(t, ManifestPath(campaignId, snapshotId.value)) then Ok(ManifestPath(campaignId, snapshotId.value))
      else Err(SnapshotNotFound)
    else
      match ManifestsListed(t, env, Some(campaignId))
      case Err(e) => Err(e)
      case Ok(rows) => if rows == [] then Err(NoSnapshots) else Ok(rows[0].path)
  }

  /** `resolve_manifest(root, campaign_id, snapshot_id)`: the named snapshot's manifest,
      or, without a snapshot id, the newest readable one of the campaign. */
  method ResolveManifest(t: FileTree, env: Env, campaignId: string, snapshotId: Option<string>) returns (r: Result<Path>)
    ensures r == Resolved(t, env, campaignId, snapshotId)
    ensures !Exists(t, ArchivesDir + [campaignId]) ==> r == Err(CampaignNotFound)
    ensures Exists(t, ArchivesDir + [campaignId]) && snapshotId.Some? && snapshotId.value != [] ==>
      r == (if Exists(t, ManifestPath(campaignId, snapshotId.value)) then Ok(ManifestPath(campaignId, snapshotId.value))
            else Err(SnapshotNotFound))
    ensures Exists(t, ArchivesDir + [campaignId]) && (snapshotId == None || snapshotId == Some([])) ==>
      match ManifestsListed(t, env, Some(campaignId))
      case Err(e) => r == Err(e)
      case Ok(rows) =>
        && (rows == [] ==> r == Err(NoSnapshots))
        && (rows != [] ==> r == Ok(rows[0].path))
        && (forall row :: row in rows ==> PairLeq(ListedKey(env, row), ListedKey(env, rows[0])))
  {
    if !Exists(t, ArchivesDir + [campaignId]) {
      return Err(CampaignNotFound);
    }
    if snapshotId.Some? && snapshotId.value != [] {
      var path := ManifestPath(campaignId, snapshotId.value);
      if !Exists(t, path) {
        return Err(SnapshotNotFound);
      }
      return Ok(path);
    }
    var candidates := ListManifests(t, env, Some(campaignId));
    if candidates.Err? {
      return Err(candidates.error);
    }
    if candidates.value == [] {
      return Err(NoSnapshots);
    }
    NewestFirst(t, env, Some(campaignId));
    return Ok(candidates.value[0].path);
  }

  /** The first listed manifest is at least as new as every other. */
  lemma NewestFirst(t: FileTree, env: Env, filter: Option<string>)
    requires ManifestsListed(t, env, filter).Ok? && ManifestsListed(t, env, filter).value != []
    ensures var rows := ManifestsListed(t, env, filter).value;
      forall row :: row in rows ==> PairLeq(ListedKey(env, row), ListedKey(env, rows[0]))
  {
    var rows := ManifestsListed(t, env, filter).value;
    ListedNewestFirst(t, env, filter);
    forall row | row in rows
      ensures PairLeq(ListedKey(env, row), ListedKey(env, rows[0]))
    {
      var j :| 0 <= j < |rows| && rows[j] == row;
      if j == 0 {
        StrLeqReflexive(ListedKey(env, row).1);
      }
    }
  }
}
