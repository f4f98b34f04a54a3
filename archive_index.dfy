/** The archive index `saves/archives/index.json`: one entry per snapshot, newest
    first (`load_archive_index` and `update_archive_index`, saves/save_manager.py
    lines 294-319). */
module ArchiveIndex {
  import opened Outcome
  import opened Order
  import opened Paths
  import opened Tree
  import opened Json
  import opened Environment
  import opened Store

  const SchemaVersion: int := 1

  const ArchivesDir: Path := ["saves", "archives"]

  const IndexPath: Path := ["saves", "archives", "index.json"]

  /** A JSON object, as a Python `dict`. */
  type Fields = map<string, Json>

  /** The index `load_archive_index` falls back to when there is none. */
  const DefaultIndex: Json := JObj(map["schema_version" := JNum(SchemaVersion), "entries" := JArr([])])

  /** The identity of an entry: `(e.get("campaign_id"), e.get("snapshot_id"))`. */
  function EntryKey(e: Fields): (Json, Json) {
    (Get(e, "campaign_id", JNull), Get(e, "snapshot_id", JNull))
  }

  /** The sort key `(str(e.get("created_at", "")), str(e.get("snapshot_id", "")))`. */
  function SortKey(env: Env, e: Fields): (string, string) {
    (StrOf(env, Get(e, "created_at", JStr(""))), StrOf(env, Get(e, "snapshot_id", JStr(""))))
  }

  /** `sort(key=SortKey, reverse=True)`: `a` may stand before `b` when its key is not
      smaller. */
  function IndexOrder(env: Env): (Fields, Fields) -> bool {
    (a: Fields, b: Fields) => PairLeq(SortKey(env, b), SortKey(env, a))
  }

  lemma IndexOrderIsTotal(env: Env)
    ensures TotalPreorder(IndexOrder(env))
  {
    forall a: Fields, b: Fields
      ensures IndexOrder(env)(a, b) || IndexOrder(env)(b, a)
    {
      PairLeqTotal(SortKey(env, a), SortKey(env, b));
    }
    forall a: Fields, b: Fields, c: Fields | IndexOrder(env)(a, b) && IndexOrder(env)(b, c)
      ensures IndexOrder(env)(a, c)
    {
      PairLeqTransitive(SortKey(env, c), SortKey(env, b), SortKey(env, a));
    }
  }

  /** `load_archive_index` followed by the `.get` that needs a `dict`. */
  function LoadIndex(t: FileTree, env: Env): (r: Result<Fields>)
    ensures !Exists(t, IndexPath) ==> r == Ok(DefaultIndex.fields)
  {
    var data :- LoadJson(t, env, IndexPath, DefaultIndex);
    if data.JObj? then Ok(data.fields) else Err(Uncaught)
  }

  predicate AllObjects(items: seq<Json>) {
    forall i :: 0 <= i < |items| ==> items[i].JObj?
  }

  /** The entries the list comprehension walks: `index_data.get("entries", [])`, each
      of which must be a `dict` for `e.get`. Iterating an empty string or an empty
      object yields nothing; a non-empty one yields strings, and `None`, booleans and
      numbers cannot be iterated. */
  function IndexEntries(data: Fields): (r: Result<seq<Fields>>)
    ensures r.Err? ==> r.error == Uncaught
  {
    match Get(data, "entries", JArr([]))
    case JArr(items) =>
      if AllObjects(items) then Ok(seq(|items|, i requires 0 <= i < |items| => items[i].fields))
      else Err(Uncaught)
    case JStr(s) => if s == [] then Ok([]) else Err(Uncaught)
    case JObj(f) => if f == map[] then Ok([]) else Err(Uncaught)
    case _ => Err(Uncaught)
  }

  /** The entries as JSON objects again. */
  function AsObjects(entries: seq<Fields>): (r: seq<Json>)
    ensures |r| == |entries| && AllObjects(r)
    ensures forall i :: 0 <= i < |r| ==> r[i].fields == entries[i]
  {
    seq(|entries|, i requires 0 <= i < |entries| => JObj(entries[i]))
  }

  /** The list comprehension of `update_archive_index`: the entries whose key differs. */
  function Without(entries: seq<Fields>, key: (Json, Json)): seq<Fields> {
    if entries == [] then []
    else
      var rest := Without(entries[..|entries| - 1], key);
      var e := entries[|entries| - 1];
      if EntryKey(e) == key then rest else rest + [e]
  }

  /** `Without` drops every entry with `key` and keeps every other one as often as it occurs. */
  lemma {:induction false} WithoutCounts(entries: seq<Fields>, key: (Json, Json), e: Fields)
    ensures multiset(Without(entries, key))[e] == if EntryKey(e) == key then 0 else multiset(entries)[e]
    decreases |entries|
  {
    if entries != [] {
      var init := entries[..|entries| - 1];
      WithoutCounts(init, key, e);
      assert entries == init + [entries[|entries| - 1]];
    }
  }

  /** Filter, append, sort newest first. */
  function UpsertEntries(env: Env, entries: seq<Fields>, entry: Fields): seq<Fields> {
    SortBy(Without(entries, EntryKey(entry)) + [entry], IndexOrder(env))
  }

  /** After the upsert exactly one entry has the new entry's key, and it is the new entry. */
  lemma UpsertSingle(env: Env, entries: seq<Fields>, entry: Fields)
    ensures multiset(UpsertEntries(env, entries, entry))[entry] == 1
    ensures forall e :: e in UpsertEntries(env, entries, entry) && EntryKey(e) == EntryKey(entry) ==> e == entry
  {
    var kept := Without(entries, EntryKey(entry));
    var r := UpsertEntries(env, entries, entry);
    WithoutCounts(entries, EntryKey(entry), entry);
    assert multiset(r) == multiset(kept) + multiset{entry};
    forall e | e in r && EntryKey(e) == EntryKey(entry)
      ensures e == entry
    {
      WithoutCounts(entries, EntryKey(entry), e);
      assert e in multiset(r);
    }
  }

  /** Every entry with another key is kept, as often as it occurred. */
  lemma UpsertKeepsOthers(env: Env, entries: seq<Fields>, entry: Fields, e: Fields)
    requires EntryKey(e) != EntryKey(entry)
    ensures multiset(UpsertEntries(env, entries, entry))[e] == multiset(entries)[e]
  {
    var kept := Without(entries, EntryKey(entry));
    WithoutCounts(entries, EntryKey(entry), e);
    assert multiset(UpsertEntries(env, entries, entry)) == multiset(kept) + multiset{entry};
  }

  /** The entries come newest first: descending by `(created_at, snapshot_id)`. */
  lemma UpsertSorted(env: Env, entries: seq<Fields>, entry: Fields)
    ensures var r := UpsertEntries(env, entries, entry);
      forall i, j :: 0 <= i < j < |r| ==> PairLeq(SortKey(env, r[j]), SortKey(env, r[i]))
  {
    IndexOrderIsTotal(env);
    SortBySorted(Without(entries, EntryKey(entry)) + [entry], IndexOrder(env));
  }

  /** `update_archive_index(root, entry)`: read the index, upsert the entry, set the
      schema version, and write the index back; the other keys of the index stay. */
  function UpdateArchiveIndex(t: FileTree, env: Env, entry: Fields): Result<FileTree> {
    var data :- LoadIndex(t, env);
    var entries :- IndexEntries(data);
    var updated := UpsertEntries(env, entries, entry);
    var written := data["schema_version" := JNum(SchemaVersion)]["entries" := JArr(AsObjects(updated))];
    WriteJson(t, env, IndexPath, JObj(written))
  }

  /** Entries written as objects are read back as the same entries. */
  lemma EntriesReadBack(data: Fields, entries: seq<Fields>)
    ensures IndexEntries(data["entries" := JArr(AsObjects(entries))]) == Ok(entries)
  {
    var objs := AsObjects(entries);
    assert Get(data["entries" := JArr(objs)], "entries", JArr([])) == JArr(objs);
    assert seq(|objs|, i requires 0 <= i < |objs| => objs[i].fields) == entries;
  }

  /** The index `update_archive_index` writes reads back as the upsert of the entries it
      read, with the current schema version. */
  lemma UpdateArchiveIndexWrites(t: FileTree, env: Env, entry: Fields)
    requires Sound(env)
    requires UpdateArchiveIndex(t, env, entry).Ok?
    ensures LoadIndex(t, env).Ok? && IndexEntries(LoadIndex(t, env).value).Ok?
    ensures LoadIndex(UpdateArchiveIndex(t, env, entry).value, env).Ok?
    ensures IndexEntries(LoadIndex(UpdateArchiveIndex(t, env, entry).value, env).value)
         == Ok(UpsertEntries(env, IndexEntries(LoadIndex(t, env).value).value, entry))
    ensures Get(LoadIndex(UpdateArchiveIndex(t, env, entry).value, env).value, "schema_version", JNull)
         == JNum(SchemaVersion)
  {
    var data := LoadIndex(t, env).value;
    var updated := UpsertEntries(env, IndexEntries(data).value, entry);
    var versioned := data["schema_version" := JNum(SchemaVersion)];
    var written := versioned["entries" := JArr(AsObjects(updated))];
    WriteThenLoad(t, env, IndexPath, JObj(written), DefaultIndex);
    EntriesReadBack(versioned, updated);
  }

  /** `update_archive_index` changes the index file and no other. */
  lemma UpdateArchiveIndexFrame(t: FileTree, env: Env, entry: Fields)
    requires UpdateArchiveIndex(t, env, entry).Ok?
    ensures forall q :: q != IndexPath ==>
      (q in UpdateArchiveIndex(t, env, entry).value <==> q in t) &&
      (q in t ==> UpdateArchiveIndex(t, env, entry).value[q] == t[q])
  {
    var data := LoadIndex(t, env).value;
    var updated := UpsertEntries(env, IndexEntries(data).value, entry);
    var written := data["schema_version" := JNum(SchemaVersion)]["entries" := JArr(AsObjects(updated))];
    WriteFileFrame(t, IndexPath, FileEntry(env.encode(JObj(written)), env.clock.seconds));
  }
}
