/** What the archive manager takes from outside the files it manages: pattern
    matching, hashing, time, and the JSON and Markdown encoders. */
module Environment {
  import opened Paths
  import opened Tree
  import opened Json

  /** The outcome of `json.loads(path.read_text(encoding="utf-8"))`. */
  datatype Decoded =
    | Parsed(value: Json)
    | Malformed          // json.JSONDecodeError
    | NotText            // UnicodeDecodeError

  /** The clock as one command sees it. */
  datatype Clock = Clock(
    iso: string,          // now_iso()
    seconds: int,         // the modification time given to the files the command writes
    stamp: string)        // default_snapshot_id()

  datatype Env = Env(
    glob: string -> seq<Path>,       // root.glob(pattern): the matching entries, relative to the root
    digest: seq<byte> -> string,     // hashlib.sha256(data).hexdigest()
    isoTime: int -> string,          // the ISO text build_file_record writes for a modification time
    encode: Json -> seq<byte>,       // write_json's text, UTF-8 encoded
    decode: seq<byte> -> Decoded,    // load_json's parse
    repr: Json -> string,            // str(v) of a JSON array or object
    scaledSize: int -> string,       // human_size at 1024 bytes and above
    summary: Json -> seq<byte>,      // build_summary_markdown, UTF-8 encoded
    root: string,                    // str(project_root())
    clock: Clock)

  /** The JSON codec reads back what it writes. */
  ghost predicate Sound(env: Env) {
    forall j :: env.decode(env.encode(j)) == Parsed(j)
  }

  /** `str(v)` of a JSON value. */
  function StrOf(env: Env, j: Json): string {
    match j
    case JStr(s) => s
    case JNull => "None"
    case JBool(b) => if b then "True" else "False"
    case JNum(n) => IntText(n)
    case _ => env.repr(j)
  }

  /** `human_size(size)`: below 1024 the byte count followed by `B`. */
  function HumanSize(env: Env, size: int): string {
    if size < 1024 then IntText(size) + "B" else env.scaledSize(size)
  }
}
