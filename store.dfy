/** Reading and writing whole documents in the project tree: `load_json` and
    `write_json` (saves/save_manager.py lines 192-214). */
module Store {
  import opened Outcome
  import opened Paths
  import opened Tree
  import opened Json
  import opened Environment

  /** `load_json(path, default)`: the default when nothing exists at `path`; a
      directory cannot be read, and a file must decode. */
  function LoadJson(t: FileTree, env: Env, path: Path, default: Json): (r: Result<Json>)
    ensures !Exists(t, path) ==> r == Ok(default)
    ensures r.Err? ==> r.error == JsonParseFailed || r.error == NotUtf8 || r.error == Uncaught
    ensures r.Err? && r.error == NotUtf8 <==> path in t && env.decode(t[path].data) == NotText
    ensures r.Err? && r.error == JsonParseFailed <==> path in t && env.decode(t[path].data) == Malformed
  {
    if path in t then
      match env.decode(t[path].data)
      case Parsed(j) => Ok(j)
      case Malformed => Err(JsonParseFailed)
      case NotText => Err(NotUtf8)
    else if IsDir(t, path) then Err(Uncaught)
    else Ok(default)
  }

  /** Writing a file: creating its parent directories fails when a file stands
      where one of them must go, and a directory at `path` cannot be replaced. */
  function WriteFile(t: FileTree, path: Path, e: FileEntry): (r: Result<FileTree>)
    ensures r.Ok? <==> !BlockedByFile(t, path) && !IsDir(t, path)
    ensures r.Err? ==> r.error == Uncaught
  {
    if BlockedByFile(t, path) || IsDir(t, path) then Err(Uncaught) else Ok(t[path := e])
  }

  /** `write_json(path, payload)`: the encoded document replaces the file at `path`
      (the temporary file is renamed over it, so only the final state shows). */
  function WriteJson(t: FileTree, env: Env, path: Path, payload: Json): Result<FileTree> {
    WriteFile(t, path, FileEntry(env.encode(payload), env.clock.seconds))
  }

  /** A write changes the file it writes and nothing else. */
  lemma WriteFileFrame(t: FileTree, path: Path, e: FileEntry)
    requires WriteFile(t, path, e).Ok?
    ensures path in WriteFile(t, path, e).value && WriteFile(t, path, e).value[path] == e
    ensures forall q :: q != path ==> (q in WriteFile(t, path, e).value <==> q in t)
    ensures forall q :: q != path && q in t ==> WriteFile(t, path, e).value[q] == t[q]
  {
  }

  /** What `write_json` writes, `load_json` reads back. */
  lemma WriteThenLoad(t: FileTree, env: Env, path: Path, payload: Json, default: Json)
    requires Sound(env)
    requires WriteJson(t, env, path, payload).Ok?
    ensures LoadJson(WriteJson(t, env, path, payload).value, env, path, default) == Ok(payload)
  {
    assert env.decode(env.encode(payload)) == Parsed(payload);
  }

  /** A write into a well-formed tree keeps it well formed. */
  lemma WriteFileWellFormed(t: FileTree, path: Path, e: FileEntry)
    requires WellFormed(t) && path != [] && Canonical(path)
    requires WriteFile(t, path, e).Ok?
    ensures WellFormed(WriteFile(t, path, e).value)
  {
    WriteWellFormed(t, path, e);
  }
}
