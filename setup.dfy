/**
 * `setup(config)` of src/storage/setup.ts: a left fold over the entries of the
 * storage configuration that builds the registry from backend name to backend,
 * dispatching on each entry's `backend` tag and skipping entries whose tag is
 * neither "s3" nor "fs".
 */
module StorageSetup {
  import opened Wrappers

  /** The `"fs" | "s3"` tag of a storage backend configuration. */
  datatype BackendKind = Fs | S3

  /** Connection settings handed to the S3 client (`config.config`). */
  datatype S3ClientConfig = S3ClientConfig(endpoint: string, accessKeyId: string, secretAccessKey: string)

  /**
   * One entry of the storage section as parsed from the configuration file.
   * The tag is the raw string found there; fields the file leaves out are "".
   */
  datatype BackendConfig = BackendConfig(backend: string, baseDir: string, config: S3ClientConfig, bucket: string)

  /** A constructed backend and the settings it was built with. */
  datatype StorageBackend =
    | FilesystemBackend(baseDir: string)
    | S3Backend(client: S3ClientConfig, bucket: string)

  type Entry = (string, BackendConfig)

  function Tag(kind: BackendKind): string {
    match kind
    case Fs => "fs"
    case S3 => "s3"
  }

  /** The kind a tag names, if it names one. */
  function ParseKind(tag: string): (r: Option<BackendKind>)
    ensures r.Some? ==> Tag(r.value) == tag
    ensures forall k: BackendKind :: Tag(k) == tag ==> r == Some(k)
  {
    if tag == "s3" then Some(S3)
    else if tag == "fs" then Some(Fs)
    else None
  }

  function Kind(backend: StorageBackend): BackendKind {
    match backend
    case FilesystemBackend(_) => Fs
    case S3Backend(_, _) => S3
  }

  /** `filesystem.init(config)`: a filesystem backend writing under the entry's base directory. */
  function InitFilesystem(config: BackendConfig): (backend: StorageBackend)
    ensures Kind(backend) == Fs && backend.baseDir == config.baseDir
  {
    FilesystemBackend(config.baseDir)
  }

  /** `s3.init(config)`: an S3 backend with the entry's client settings, uploading to the entry's bucket. */
  function InitS3(config: BackendConfig): (backend: StorageBackend)
    ensures Kind(backend) == S3 && backend.client == config.config && backend.bucket == config.bucket
  {
    S3Backend(config.config, config.bucket)
  }

  /** The `switch (config.backend)`: the backend an entry builds, or `None` for an unknown tag. */
  function Init(config: BackendConfig): (r: Option<StorageBackend>)
    ensures r.Some? <==> ParseKind(config.backend).Some?
    ensures r.Some? ==> Kind(r.value) == ParseKind(config.backend).value
  {
    match ParseKind(config.backend)
    case Some(S3) => Some(InitS3(config))
    case Some(Fs) => Some(InitFilesystem(config))
    case None => None
  }

  predicate Recognised(config: BackendConfig) {
    ParseKind(config.backend).Some?
  }

  /** The names of the entries whose tag is recognised. */
  function Kept(entries: seq<Entry>): set<string> {
    set i | 0 <= i < |entries| && Recognised(entries[i].1) :: entries[i].0
  }

  function Names(entries: seq<Entry>): set<string> {
    set i | 0 <= i < |entries| :: entries[i].0
  }

  /** No two entries share a name, as the keys of a JavaScript object. */
  predicate DistinctNames(entries: seq<Entry>) {
    forall i, j :: 0 <= i < j < |entries| ==> entries[i].0 != entries[j].0
  }

  /**
   * One step of the reduce: the spread `{ ...prev, [name]: backend }` for a
   * recognised tag, `prev` itself otherwise. Only `name` may change.
   */
  function Step(prev: map<string, StorageBackend>, entry: Entry): (next: map<string, StorageBackend>)
    ensures next.Keys == if Recognised(entry.1) then prev.Keys + {entry.0} else prev.Keys
    ensures Recognised(entry.1) ==> next[entry.0] == Init(entry.1).value
    ensures forall n :: n in prev && n != entry.0 ==> next[n] == prev[n]
    ensures !Recognised(entry.1) ==> next == prev
  {
    var (name, config) := entry;
    match Init(config)
    case Some(backend) => prev[name := backend]
    case None => prev
  }

  /** The reduce from accumulator `acc` over `entries`, left to right. */
  function Reduce(acc: map<string, StorageBackend>, entries: seq<Entry>): (r: map<string, StorageBackend>)
    ensures r.Keys == acc.Keys + Kept(entries)
    decreases |entries|
  {
    if entries == [] then
      assert Kept(entries) == {};
      acc
    else
      assert Kept(entries) == Kept(entries[..1]) + Kept(entries[1..]) by {
        KeptSplit(entries);
      }
      Reduce(Step(acc, entries[0]), entries[1..])
  }

  lemma KeptSplit(entries: seq<Entry>)
    requires entries != []
    ensures Kept(entries) == Kept(entries[..1]) + Kept(entries[1..])
    ensures Kept(entries[..1]) == if Recognised(entries[0].1) then {entries[0].0} else {}
  {
  }

  /**
   * What the fold builds, entry by entry: each recognised entry's name maps to
   * the backend built from that same entry, and every other name of the
   * accumulator keeps its value.
   */
  lemma {:induction false} ReduceValues(acc: map<string, StorageBackend>, entries: seq<Entry>)
    requires DistinctNames(entries)
    ensures forall i :: 0 <= i < |entries| && Recognised(entries[i].1) ==>
      Reduce(acc, entries)[entries[i].0] == Init(entries[i].1).value
    ensures forall n :: n in acc && n !in Kept(entries) ==> Reduce(acc, entries)[n] == acc[n]
    decreases |entries|
  {
    if entries != [] {
      var head, tail := entries[0], entries[1..];
      var next := Step(acc, head);
      KeptSplit(entries);
      assert DistinctNames(tail) by {
        forall i, j | 0 <= i < j < |tail| ensures tail[i].0 != tail[j].0 {
          assert tail[i] == entries[i + 1] && tail[j] == entries[j + 1];
        }
      }
      ReduceValues(next, tail);
      assert head.0 !in Kept(tail) by {
        forall i | 0 <= i < |tail| ensures tail[i].0 != head.0 {
          assert tail[i] == entries[i + 1];
        }
      }
      forall i | 0 <= i < |entries| && Recognised(entries[i].1)
        ensures Reduce(acc, entries)[entries[i].0] == Init(entries[i].1).value
      {
        if i > 0 {
          assert tail[i - 1] == entries[i];
        }
      }
    }
  }

  /** `setup(config)`: the reduce starting from the empty registry `{}`. */
  function Setup(config: seq<Entry>): (registry: map<string, StorageBackend>)
    ensures registry.Keys == Kept(config)
    ensures registry.Keys <= Names(config)
    ensures config == [] ==> registry == map[]
  {
    Reduce(map[], config)
  }

  /** A recognised entry is registered under its own name with the backend of its tag, built from that entry. */
  lemma SetupEntry(config: seq<Entry>, i: nat)
    requires DistinctNames(config) && i < |config|
    ensures var (name, c) := config[i];
      && (c.backend == "s3" ==> name in Setup(config) && Setup(config)[name] == InitS3(c))
      && (c.backend == "fs" ==> name in Setup(config) && Setup(config)[name] == InitFilesystem(c))
      && (c.backend != "s3" && c.backend != "fs" ==> name !in Setup(config))
  {
    ReduceValues(map[], config);
  }

  /** The registry as a map from the configuration object: every name whose tag is recognised, with its backend. */
  function Registry(config: map<string, BackendConfig>): map<string, StorageBackend> {
    map name | name in config && Recognised(config[name]) :: Init(config[name]).value
  }

  /** `entries` lists the pairs of `config`, each name once: what `Object.entries(config)` returns, in some order. */
  predicate Enumerates(entries: seq<Entry>, config: map<string, BackendConfig>) {
    && DistinctNames(entries)
    && (forall i :: 0 <= i < |entries| ==> entries[i].0 in config && config[entries[i].0] == entries[i].1)
    && config.Keys <= Names(entries)
  }

  /** Whatever order the entries come in, the fold builds the same registry. */
  lemma SetupIsRegistry(entries: seq<Entry>, config: map<string, BackendConfig>)
    requires Enumerates(entries, config)
    ensures Setup(entries) == Registry(config)
  {
    var r := Setup(entries);
    ReduceValues(map[], entries);
    forall name | name in config && Recognised(config[name]) ensures name in r && r[name] == Init(config[name]).value {
      assert name in Names(entries);
      var i :| 0 <= i < |entries| && entries[i].0 == name;
      assert name in Kept(entries);
    }
    forall name | name in r ensures name in Registry(config) {
      var i :| 0 <= i < |entries| && Recognised(entries[i].1) && entries[i].0 == name;
    }
  }
}
