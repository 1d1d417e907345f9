/**
 The content-addressed extraction cache over successive builds (`prepare_file` and the cache write
 of `write_graph`, src/graph/build.rs; the refresh decision, src/graph/maintenance.rs).
 */
module ExtractionCache {
  import opened Prelude
  import opened PrepareFiles

  type Path = string
  type Hash = string
  type Version = string
  type Content = seq<nat>

  /** What the builds use and this model does not look into: hashing, extraction, serialization, mounts. */
  datatype Env<!X> = Env(
    hash: Content -> Hash,
    extract: (Version, Path, Content) -> X,
    encode: X -> string,
    decode: string -> Option<X>,
    mount: (map<Path, X>, Path, X) -> X)

  /** Hashes do not collide and serialization is reversible. */
  ghost predicate EnvOk<X(!new)>(env: Env<X>) {
    && (forall a, b :: env.hash(a) == env.hash(b) ==> a == b)
    && (forall x :: env.decode(env.encode(x)) == Some(x))
  }

  datatype File = File(content: Content, modifiedAt: nat, readable: bool)

  type FileSystem = map<Path, File>

  datatype Known = Known(hash: Hash, modifiedAt: nat, size: nat)

  datatype Entry = Entry(hash: Hash, version: Version, payload: string)

  datatype Prepared<X> = Prepared(path: Path, hash: Hash, size: nat, modifiedAt: nat, data: X, fromCache: bool)

  /** A corpus file as scanned. */
  datatype Scanned = Scanned(path: Path, size: nat)

  function Lookup<V>(m: map<Path, V>, p: Path): Option<V> { if p in m then Some(m[p]) else None }

  function ModifiedAt(fs: FileSystem, p: Path): nat { if p in fs then fs[p].modifiedAt else 0 }

  function CacheValid<X>(env: Env<X>, version: Version, cache: Option<Entry>, hash: Hash): Option<X> {
    if cache.Some? && cache.value.hash == hash && cache.value.version == version then env.decode(cache.value.payload)
    else None
  }

  /** The file as an unchanged time stamp and size let it be recovered without reading it. */
  function FromStamp<X>(env: Env<X>, version: Version, fs: FileSystem, f: Scanned, known: Option<Known>, cache: Option<Entry>)
    : Option<Prepared<X>>
  {
    if known.Some? && known.value.modifiedAt == ModifiedAt(fs, f.path) && known.value.size == f.size then
      match CacheValid(env, version, cache, known.value.hash)
      case Some(data) => Some(Prepared(f.path, known.value.hash, known.value.size, ModifiedAt(fs, f.path), data, true))
      case None => None
    else None
  }

  /** The file as read: its cached extraction when the content is unchanged, else a fresh one. */
  function FromContent<X>(env: Env<X>, version: Version, fs: FileSystem, f: Scanned, cache: Option<Entry>): Option<Prepared<X>> {
    if f.path in fs && fs[f.path].readable then
      var content := fs[f.path].content;
      var hash := env.hash(content);
      match CacheValid(env, version, cache, hash)
      case Some(data) => Some(Prepared(f.path, hash, |content|, fs[f.path].modifiedAt, data, true))
      case None => Some(Prepared(f.path, hash, |content|, fs[f.path].modifiedAt, env.extract(version, f.path, content), false))
    else None
  }

  function PrepareFile<X>(env: Env<X>, version: Version, fs: FileSystem, f: Scanned, known: Option<Known>, cache: Option<Entry>)
    : Option<Prepared<X>>
  {
    match FromStamp(env, version, fs, f, known, cache)
    case Some(p) => Some(p)
    case None => FromContent(env, version, fs, f, cache)
  }

  /** `p` is what reading and extracting its file now would give, up to where the data came from. */
  ghost predicate Fresh<X>(env: Env<X>, version: Version, fs: FileSystem, p: Prepared<X>) {
    && p.path in fs
    && p.hash == env.hash(fs[p.path].content)
    && p.data == env.extract(version, p.path, fs[p.path].content)
    && p.size == |fs[p.path].content|
    && p.modifiedAt == fs[p.path].modifiedAt
  }

  // ----- The stored graph -----

  datatype Graph<X> = Graph(files: map<Path, Known>, cache: map<Path, Entry>, indexed: map<Path, X>)

  /** Every cached payload is the extraction of some content with the entry's hash. */
  ghost predicate CacheOk<X>(env: Env<X>, cache: map<Path, Entry>) {
    forall p :: p in cache ==> EntryOk(env, p, cache[p])
  }

  ghost predicate EntryOk<X>(env: Env<X>, p: Path, e: Entry) {
    exists content :: e.hash == env.hash(content) && e.payload == env.encode(env.extract(e.version, p, content))
  }

  /** Every file record describes the file as some build saw it. */
  ghost predicate KnownOk<X>(env: Env<X>, files: map<Path, Known>, seen: seq<FileSystem>) {
    forall p :: p in files ==> exists j :: 0 <= j < |seen| && Describes(env, files[p], seen[j], p)
  }

  ghost predicate Describes<X>(env: Env<X>, k: Known, fs: FileSystem, p: Path) {
    p in fs && k == Known(env.hash(fs[p].content), fs[p].modifiedAt, |fs[p].content|)
  }

  /** An unchanged modification time and size mean unchanged content. */
  ghost predicate StampsHonest(seen: seq<FileSystem>) {
    forall i, j, p :: 0 <= i < |seen| && 0 <= j < |seen| && p in seen[i] && p in seen[j]
      && seen[i][p].modifiedAt == seen[j][p].modifiedAt && |seen[i][p].content| == |seen[j][p].content|
      ==> seen[i][p].content == seen[j][p].content
  }

  ghost predicate ScannedOk(fs: FileSystem, f: Scanned) { f.path in fs && f.size == |fs[f.path].content| }

  lemma CachedDataIsExtraction<X(!new)>(env: Env<X>, version: Version, p: Path, cache: map<Path, Entry>, content: Content)
    requires EnvOk(env) && CacheOk(env, cache)
    ensures var data := CacheValid(env, version, Lookup(cache, p), env.hash(content));
            data.Some? ==> data.value == env.extract(version, p, content)
  {
    if CacheValid(env, version, Lookup(cache, p), env.hash(content)).Some? {
      assert EntryOk(env, p, cache[p]);
      var c :| cache[p].hash == env.hash(c) && cache[p].payload == env.encode(env.extract(cache[p].version, p, c));
      assert c == content;
    }
  }

  /** A file recovered by its stamp is fresh exactly when its recorded hash is that of its content. */
  lemma StampShortcutExact<X(!new)>(env: Env<X>, version: Version, fs: FileSystem, f: Scanned, known: Option<Known>,
                                    cache: map<Path, Entry>)
    requires EnvOk(env) && CacheOk(env, cache) && ScannedOk(fs, f)
    ensures var p := FromStamp(env, version, fs, f, known, Lookup(cache, f.path));
            p.Some? ==> known.Some? && (Fresh(env, version, fs, p.value) <==> known.value.hash == env.hash(fs[f.path].content))
  {
    CachedDataIsExtraction(env, version, f.path, cache, fs[f.path].content);
  }

  /** Honest stamps make the recorded hash right. */
  lemma HonestStampHash<X(!new)>(env: Env<X>, version: Version, seen: seq<FileSystem>, now: nat, f: Scanned, g: Graph<X>)
    requires KnownOk(env, g.files, seen) && StampsHonest(seen) && now < |seen| && ScannedOk(seen[now], f)
    requires FromStamp(env, version, seen[now], f, Lookup(g.files, f.path), Lookup(g.cache, f.path)).Some?
    ensures g.files[f.path].hash == env.hash(seen[now][f.path].content)
  {
    var j :| 0 <= j < |seen| && Describes(env, g.files[f.path], seen[j], f.path);
    assert seen[j][f.path].content == seen[now][f.path].content;
  }

  /** The cache and the stamp shortcut are transparent: what is prepared is what a fresh read would give. */
  lemma PreparedIsFresh<X(!new)>(env: Env<X>, version: Version, seen: seq<FileSystem>, now: nat, f: Scanned, g: Graph<X>)
    requires EnvOk(env) && CacheOk(env, g.cache) && KnownOk(env, g.files, seen) && StampsHonest(seen)
    requires now < |seen| && ScannedOk(seen[now], f)
    ensures var p := PrepareFile(env, version, seen[now], f, Lookup(g.files, f.path), Lookup(g.cache, f.path));
            && (p.Some? ==> p.value.path == f.path && Fresh(env, version, seen[now], p.value))
            && (seen[now][f.path].readable ==> p.Some?)
  {
    var fs := seen[now];
    var stamped := FromStamp(env, version, fs, f, Lookup(g.files, f.path), Lookup(g.cache, f.path));
    if stamped.Some? {
      HonestStampHash(env, version, seen, now, f, g);
      StampShortcutExact(env, version, fs, f, Lookup(g.files, f.path), g.cache);
    } else {
      CachedDataIsExtraction(env, version, f.path, g.cache, fs[f.path].content);
    }
    hide EnvOk, CacheOk, KnownOk, StampsHonest;
  }

  // ----- Writing a candidate -----

  function DataOf<X>(prepared: seq<Prepared<X>>): map<Path, X> {
    if prepared == [] then map[] else DataOf(prepared[..|prepared| - 1])[prepared[|prepared| - 1].path := prepared[|prepared| - 1].data]
  }

  /** The graph that `prepared` writes into an empty candidate; mounts see the whole build's data. */
  function Written<X>(env: Env<X>, version: Version, prepared: seq<Prepared<X>>, all: map<Path, X>): Graph<X> {
    if prepared == [] then Graph(map[], map[], map[])
    else
      var p := prepared[|prepared| - 1];
      var g := Written(env, version, prepared[..|prepared| - 1], all);
      Graph(g.files[p.path := Known(p.hash, p.modifiedAt, p.size)],
            g.cache[p.path := Entry(p.hash, version, env.encode(p.data))],
            g.indexed[p.path := env.mount(all, p.path, p.data)])
  }

  /** A candidate database. */
  class GraphDb<X> {
    var files: map<Path, Known>
    var cache: map<Path, Entry>
    var indexed: map<Path, X>

    constructor ()
      ensures Snapshot() == Graph(map[], map[], map[])
    {
      files, cache, indexed := map[], map[], map[];
    }

    function Snapshot(): Graph<X>
      reads this
    {
      Graph(files, cache, indexed)
    }

    /** Stores each payload before the mounts rewrite the extraction that is indexed. */
    method WriteGraph(env: Env<X>, version: Version, prepared: seq<Prepared<X>>)
      requires Snapshot() == Graph(map[], map[], map[])
      modifies this
      ensures Snapshot() == Written(env, version, prepared, DataOf(prepared))
    {
      var all := DataOf(prepared);
      for k := 0 to |prepared|
        invariant Snapshot() == Written(env, version, prepared[..k], all)
      {
        var pf := prepared[k];
        assert prepared[..k + 1][..k] == prepared[..k];
        cache := cache[pf.path := Entry(pf.hash, version, env.encode(pf.data))];
        files := files[pf.path := Known(pf.hash, pf.modifiedAt, pf.size)];
        var extraction := pf.data;
        extraction := env.mount(all, pf.path, extraction);
        indexed := indexed[pf.path := extraction];
      }
      assert prepared[..|prepared|] == prepared;
    }
  }

  ghost predicate AllFresh<X>(env: Env<X>, version: Version, fs: FileSystem, prepared: seq<Prepared<X>>) {
    forall k :: 0 <= k < |prepared| ==> Fresh(env, version, fs, prepared[k])
  }

  /** A graph written from fresh files has an honest cache and honest file records. */
  lemma {:induction false} WrittenOk<X(!new)>(env: Env<X>, version: Version, seen: seq<FileSystem>, now: nat,
                                              prepared: seq<Prepared<X>>, all: map<Path, X>)
    requires now < |seen| && AllFresh(env, version, seen[now], prepared)
    ensures var g := Written(env, version, prepared, all); CacheOk(env, g.cache) && KnownOk(env, g.files, seen)
  {
    if prepared != [] {
      var p := prepared[|prepared| - 1];
      var front := prepared[..|prepared| - 1];
      assert forall k :: 0 <= k < |front| ==> front[k] == prepared[k];
      WrittenOk(env, version, seen, now, front, all);
      var content := seen[now][p.path].content;
      assert p.hash == env.hash(content) && env.encode(p.data) == env.encode(env.extract(version, p.path, content));
      assert EntryOk(env, p.path, Entry(p.hash, version, env.encode(p.data)));
      assert Describes(env, Known(p.hash, p.modifiedAt, p.size), seen[now], p.path);
    }
  }

  lemma KnownOkMono<X>(env: Env<X>, files: map<Path, Known>, seen: seq<FileSystem>, fs: FileSystem)
    requires KnownOk(env, files, seen)
    ensures KnownOk(env, files, seen + [fs])
  {
    forall p | p in files
      ensures exists j :: 0 <= j < |seen + [fs]| && Describes(env, files[p], (seen + [fs])[j], p)
    {
      var j :| 0 <= j < |seen| && Describes(env, files[p], seen[j], p);
      assert (seen + [fs])[j] == seen[j];
    }
  }

  // ----- Builds -----

  /** One build: a full rebuild ignores the live graph; a cancelled build publishes nothing. */
  datatype Build = Build(version: Version, fs: FileSystem, corpus: seq<Scanned>, full: bool, cancelled: bool, settingsSame: bool)

  ghost predicate BuildOk(b: Build) { forall k :: 0 <= k < |b.corpus| ==> ScannedOk(b.fs, b.corpus[k]) }

  function Preparer<X>(env: Env<X>, b: Build, g: Graph<X>): Scanned -> Option<Prepared<X>> {
    (f: Scanned) => PrepareFile(env, b.version, b.fs, f, Lookup(g.files, f.path), Lookup(g.cache, f.path))
  }

  function NoGraph<X>(): Graph<X> { Graph(map[], map[], map[]) }

  /** The prepared corpus; by `PrepareFiles.PrepareAll` every schedule of the workers gives this. */
  function PrepareCorpus<X>(env: Env<X>, b: Build, g: Graph<X>): seq<Prepared<X>> {
    FilterMap(b.corpus, Preparer(env, b, if b.full then NoGraph() else g))
  }

  /** Nothing was added, modified, deleted or extracted anew. */
  predicate Unchanged<X>(g: Graph<X>, prepared: seq<Prepared<X>>) {
    && (forall k :: 0 <= k < |prepared| ==>
          prepared[k].fromCache && prepared[k].path in g.files && g.files[prepared[k].path].hash == prepared[k].hash)
    && (forall p :: p in g.files ==> exists k :: 0 <= k < |prepared| && prepared[k].path == p)
  }

  /** The live graph after a build. */
  function Publish<X>(env: Env<X>, g: Graph<X>, b: Build): Graph<X> {
    var prepared := PrepareCorpus(env, b, g);
    if b.cancelled then g
    else if !b.full && b.settingsSame && Unchanged(g, prepared) then g
    else Written(env, b.version, prepared, DataOf(prepared))
  }

  function Run<X>(env: Env<X>, builds: seq<Build>): Graph<X> {
    if builds == [] then NoGraph()
    else Publish(env, Run(env, builds[..|builds| - 1]), builds[|builds| - 1])
  }

  function Systems(builds: seq<Build>): seq<FileSystem> {
    seq(|builds|, i requires 0 <= i < |builds| => builds[i].fs)
  }

  ghost predicate RunOk<X(!new)>(env: Env<X>, builds: seq<Build>) {
    EnvOk(env) && StampsHonest(Systems(builds)) && forall i :: 0 <= i < |builds| ==> BuildOk(builds[i])
  }

  lemma {:induction false} FilterMapFresh<X(!new)>(env: Env<X>, b: Build, seen: seq<FileSystem>, g: Graph<X>, corpus: seq<Scanned>)
    requires EnvOk(env) && CacheOk(env, g.cache) && KnownOk(env, g.files, seen) && StampsHonest(seen)
    requires seen != [] && b.fs == seen[|seen| - 1]
    requires forall k :: 0 <= k < |corpus| ==> ScannedOk(b.fs, corpus[k])
    ensures AllFresh(env, b.version, b.fs, FilterMap(corpus, Preparer(env, b, g)))
  {
    hide EnvOk, CacheOk, KnownOk, StampsHonest, ScannedOk, Fresh;
    if corpus != [] {
      FilterMapFresh(env, b, seen, g, corpus[..|corpus| - 1]);
      PreparedIsFresh(env, b.version, seen, |seen| - 1, corpus[|corpus| - 1], g);
    }
  }

  lemma RunOkFront<X(!new)>(env: Env<X>, builds: seq<Build>)
    requires RunOk(env, builds) && builds != []
    ensures RunOk(env, builds[..|builds| - 1])
    ensures Systems(builds) == Systems(builds[..|builds| - 1]) + [builds[|builds| - 1].fs]
  {
    var front := builds[..|builds| - 1];
    assert forall i :: 0 <= i < |front| ==> Systems(front)[i] == Systems(builds)[i] && front[i] == builds[i];
  }

  /** After any sequence of builds the live cache and file records are honest. */
  lemma {:induction false} RunKeeps<X(!new)>(env: Env<X>, builds: seq<Build>)
    requires RunOk(env, builds)
    ensures CacheOk(env, Run(env, builds).cache) && KnownOk(env, Run(env, builds).files, Systems(builds))
  {
    if builds != [] {
      var front, b := builds[..|builds| - 1], builds[|builds| - 1];
      RunOkFront(env, builds);
      RunKeeps(env, front);
      var g := Run(env, front);
      KnownOkMono(env, g.files, Systems(front), b.fs);
      var prepared := PrepareCorpus(env, b, g);
      FilterMapFresh(env, b, Systems(builds), if b.full then NoGraph() else g, b.corpus);
      WrittenOk(env, b.version, Systems(builds), |builds| - 1, prepared, DataOf(prepared));
    }
  }

  /**
   The extraction cache is transparent over any sequence of builds: every file prepared by the last
   build carries the hash and the extraction that reading it afresh would give.
   */
  lemma CacheIsTransparent<X(!new)>(env: Env<X>, builds: seq<Build>)
    requires RunOk(env, builds) && builds != []
    ensures var b := builds[|builds| - 1];
            AllFresh(env, b.version, b.fs, PrepareCorpus(env, b, Run(env, builds[..|builds| - 1])))
  {
    var front, b := builds[..|builds| - 1], builds[|builds| - 1];
    RunOkFront(env, builds);
    RunKeeps(env, front);
    var g := Run(env, front);
    KnownOkMono(env, g.files, Systems(front), b.fs);
    FilterMapFresh(env, b, Systems(builds), if b.full then NoGraph() else g, b.corpus);
  }

  // ----- A refresh gives what a full rebuild gives -----

  ghost predicate HasPath<X>(prepared: seq<Prepared<X>>, p: Path) {
    exists k :: 0 <= k < |prepared| && prepared[k].path == p
  }

  /** `data` and `hashes` say, path by path, what `prepared` carries. */
  ghost predicate Agrees<X>(prepared: seq<Prepared<X>>, data: map<Path, X>, hashes: map<Path, Hash>) {
    forall k :: 0 <= k < |prepared| ==>
      && prepared[k].path in data && data[prepared[k].path] == prepared[k].data
      && prepared[k].path in hashes && hashes[prepared[k].path] == prepared[k].hash
  }

  lemma HasPathFront<X>(prepared: seq<Prepared<X>>, p: Path)
    requires prepared != []
    ensures HasPath(prepared, p) <==> HasPath(prepared[..|prepared| - 1], p) || prepared[|prepared| - 1].path == p
  {
    if HasPath(prepared[..|prepared| - 1], p) {
      var k :| 0 <= k < |prepared| - 1 && prepared[..|prepared| - 1][k].path == p;
      assert prepared[k].path == p;
    }
    if HasPath(prepared, p) && prepared[|prepared| - 1].path != p {
      var k :| 0 <= k < |prepared| && prepared[k].path == p;
      assert prepared[..|prepared| - 1][k].path == p;
    }
  }

  lemma {:induction false} DataOfAgrees<X>(prepared: seq<Prepared<X>>, data: map<Path, X>, hashes: map<Path, Hash>)
    requires Agrees(prepared, data, hashes)
    ensures forall p :: p in DataOf(prepared) <==> HasPath(prepared, p)
    ensures forall p :: p in DataOf(prepared) ==> p in data && DataOf(prepared)[p] == data[p]
  {
    if prepared != [] {
      var front := prepared[..|prepared| - 1];
      assert forall k :: 0 <= k < |front| ==> front[k] == prepared[k];
      DataOfAgrees(front, data, hashes);
      forall p { HasPathFront(prepared, p); }
    }
  }

  lemma DataOfIs<X>(prepared: seq<Prepared<X>>, data: map<Path, X>, hashes: map<Path, Hash>)
    requires Agrees(prepared, data, hashes) && forall p :: HasPath(prepared, p) <==> p in data
    ensures DataOf(prepared) == data
  {
    DataOfAgrees(prepared, data, hashes);
    hide DataOf, HasPath, Agrees;
  }

  /** What a graph holds at one path it indexes. */
  ghost predicate HoldsAt<X>(env: Env<X>, version: Version, g: Graph<X>, all: map<Path, X>, data: map<Path, X>,
                             hashes: map<Path, Hash>, p: Path) {
    && p in data && p in hashes && p in g.indexed && p in g.cache && p in g.files
    && g.indexed[p] == env.mount(all, p, data[p])
    && g.cache[p] == Entry(hashes[p], version, env.encode(data[p]))
    && g.files[p].hash == hashes[p]
  }

  ghost predicate LacksAt<X>(g: Graph<X>, p: Path) { p !in g.files && p !in g.cache && p !in g.indexed }

  /** What a candidate holds, path by path. */
  lemma {:induction false} WrittenShape<X>(env: Env<X>, version: Version, prepared: seq<Prepared<X>>, all: map<Path, X>,
                                           data: map<Path, X>, hashes: map<Path, Hash>, p: Path)
    requires Agrees(prepared, data, hashes)
    ensures var g := Written(env, version, prepared, all);
            if HasPath(prepared, p) then HoldsAt(env, version, g, all, data, hashes, p) else LacksAt(g, p)
  {
    if prepared != [] {
      var front := prepared[..|prepared| - 1];
      assert forall k :: 0 <= k < |front| ==> front[k] == prepared[k];
      WrittenShape(env, version, front, all, data, hashes, p);
      HasPathFront(prepared, p);
    }
  }

  function ExtractionsOf<X>(env: Env<X>, version: Version, fs: FileSystem): map<Path, X> {
    map p | p in fs :: env.extract(version, p, fs[p].content)
  }

  function HashesOf<X>(env: Env<X>, fs: FileSystem): map<Path, Hash> { map p | p in fs :: env.hash(fs[p].content) }

  lemma FreshAgrees<X>(env: Env<X>, version: Version, fs: FileSystem, prepared: seq<Prepared<X>>)
    requires AllFresh(env, version, fs, prepared)
    ensures Agrees(prepared, ExtractionsOf(env, version, fs), HashesOf(env, fs))
  {
  }

  /** The live graph is what its cached extractions index to. */
  ghost predicate Consistent<X(!new)>(env: Env<X>, g: Graph<X>) {
    && g.files.Keys == g.cache.Keys == g.indexed.Keys
    && exists data: map<Path, X> :: Indexes(env, g, data)
  }

  ghost predicate Indexes<X>(env: Env<X>, g: Graph<X>, data: map<Path, X>) {
    && data.Keys == g.indexed.Keys
    && forall p :: p in data ==>
         && p in g.cache && p in g.files && p in g.indexed
         && g.cache[p].payload == env.encode(data[p]) && g.cache[p].hash == g.files[p].hash
         && g.indexed[p] == env.mount(data, p, data[p])
  }

  lemma WrittenConsistent<X(!new)>(env: Env<X>, version: Version, fs: FileSystem, prepared: seq<Prepared<X>>)
    requires AllFresh(env, version, fs, prepared)
    ensures Consistent(env, Written(env, version, prepared, DataOf(prepared)))
  {
    var data, hashes := ExtractionsOf(env, version, fs), HashesOf(env, fs);
    FreshAgrees(env, version, fs, prepared);
    DataOfAgrees(prepared, data, hashes);
    forall p { WrittenShape(env, version, prepared, DataOf(prepared), data, hashes, p); }
    assert Indexes(env, Written(env, version, prepared, DataOf(prepared)), DataOf(prepared));
  }

  lemma {:induction false} RunConsistent<X(!new)>(env: Env<X>, builds: seq<Build>)
    requires RunOk(env, builds)
    ensures Consistent(env, Run(env, builds))
  {
    if builds == [] {
      assert Indexes(env, NoGraph(), map[]);
    } else {
      RunOkFront(env, builds);
      RunConsistent(env, builds[..|builds| - 1]);
      CacheIsTransparent(env, builds);
      var b := builds[|builds| - 1];
      WrittenConsistent(env, b.version, b.fs, PrepareCorpus(env, b, Run(env, builds[..|builds| - 1])));
    }
  }

  /** The same prepared files up to where their data came from. */
  ghost predicate AllSame<X>(a: seq<Prepared<X>>, b: seq<Prepared<X>>) {
    |a| == |b| && forall k :: 0 <= k < |a| ==> a[k] == b[k].(fromCache := a[k].fromCache)
  }

  lemma {:induction false} SameWritten<X>(env: Env<X>, version: Version, a: seq<Prepared<X>>, b: seq<Prepared<X>>, all: map<Path, X>)
    requires AllSame(a, b)
    ensures Written(env, version, a, all) == Written(env, version, b, all)
    ensures DataOf(a) == DataOf(b)
  {
    if a != [] {
      SameWritten(env, version, a[..|a| - 1], b[..|b| - 1], all);
      assert a[|a| - 1] == b[|b| - 1].(fromCache := a[|a| - 1].fromCache);
    }
  }

  /** A corpus file that cannot be read, but whose record and cache entry let the stamp recover it. */
  predicate Recovered<X>(env: Env<X>, b: Build, g: Graph<X>, f: Scanned) {
    && !(f.path in b.fs && b.fs[f.path].readable)
    && FromStamp(env, b.version, b.fs, f, Lookup(g.files, f.path), Lookup(g.cache, f.path)).Some?
  }

  /** Two honest graphs prepare a corpus alike when they recover the same of its unreadable files. */
  lemma {:induction false} SamePrepared<X(!new)>(env: Env<X>, b: Build, seen: seq<FileSystem>, g: Graph<X>, h: Graph<X>, corpus: seq<Scanned>)
    requires EnvOk(env) && StampsHonest(seen) && seen != [] && b.fs == seen[|seen| - 1]
    requires CacheOk(env, g.cache) && KnownOk(env, g.files, seen) && CacheOk(env, h.cache) && KnownOk(env, h.files, seen)
    requires forall k :: 0 <= k < |corpus| ==>
               ScannedOk(b.fs, corpus[k]) && (Recovered(env, b, g, corpus[k]) <==> Recovered(env, b, h, corpus[k]))
    ensures AllSame(FilterMap(corpus, Preparer(env, b, g)), FilterMap(corpus, Preparer(env, b, h)))
  {
    if corpus != [] {
      var f := corpus[|corpus| - 1];
      SamePrepared(env, b, seen, g, h, corpus[..|corpus| - 1]);
      hide EnvOk, CacheOk, KnownOk, StampsHonest, Recovered, ScannedOk;
      SameOne(env, b, seen, g, h, f);
      hide Preparer;
    }
  }

  lemma SameOne<X(!new)>(env: Env<X>, b: Build, seen: seq<FileSystem>, g: Graph<X>, h: Graph<X>, f: Scanned)
    requires EnvOk(env) && StampsHonest(seen) && seen != [] && b.fs == seen[|seen| - 1]
    requires CacheOk(env, g.cache) && KnownOk(env, g.files, seen) && CacheOk(env, h.cache) && KnownOk(env, h.files, seen)
    requires ScannedOk(b.fs, f) && (Recovered(env, b, g, f) <==> Recovered(env, b, h, f))
    ensures var x, y := Preparer(env, b, g)(f), Preparer(env, b, h)(f);
            if x.Some? then y.Some? && x.value == y.value.(fromCache := x.value.fromCache) else y.None?
  {
    hide EnvOk, CacheOk, KnownOk, StampsHonest, FromStamp, FromContent, Recovered;
    PreparedIsFresh(env, b.version, seen, |seen| - 1, f, g);
    PreparedIsFresh(env, b.version, seen, |seen| - 1, f, h);
    PreparedWhen(env, b, f, g);
    PreparedWhen(env, b, f, h);
  }

  /** A file is prepared exactly when it can be read or is recovered. */
  lemma PreparedWhen<X>(env: Env<X>, b: Build, f: Scanned, g: Graph<X>)
    ensures Preparer(env, b, g)(f).Some? <==> (f.path in b.fs && b.fs[f.path].readable) || Recovered(env, b, g, f)
    ensures Preparer(env, b, g)(f).Some? ==> Preparer(env, b, g)(f).value.path == f.path
  {
    hide CacheValid;
  }

  /** In an unchanged corpus every prepared file came from the cache entry of its path. */
  ghost predicate AllCached<X>(env: Env<X>, version: Version, g: Graph<X>, prepared: seq<Prepared<X>>) {
    forall k :: 0 <= k < |prepared| ==>
      CacheValid(env, version, Lookup(g.cache, prepared[k].path), prepared[k].hash) == Some(prepared[k].data)
  }

  lemma UnchangedAgrees<X(!new)>(env: Env<X>, version: Version, g: Graph<X>, prepared: seq<Prepared<X>>,
                                 data: map<Path, X>, hashes: map<Path, Hash>)
    requires EnvOk(env) && g.files.Keys == g.cache.Keys == g.indexed.Keys && Indexes(env, g, data)
    requires Unchanged(g, prepared) && AllCached(env, version, g, prepared)
    requires hashes == map p | p in g.files :: g.files[p].hash
    ensures Agrees(prepared, data, hashes)
    ensures forall p :: (HasPath(prepared, p) <==> p in g.files) && (p in g.files <==> p in data)
    ensures forall p :: p in g.files ==> g.cache[p] == Entry(hashes[p], version, env.encode(data[p]))
  {
    forall k | 0 <= k < |prepared|
      ensures prepared[k].path in data && data[prepared[k].path] == prepared[k].data
      ensures g.cache[prepared[k].path].version == version
    {
      var p := prepared[k].path;
      assert p in g.files;
      assert env.decode(env.encode(data[p])) == Some(data[p]);
    }
    forall p | p in g.files
      ensures g.cache[p] == Entry(hashes[p], version, env.encode(data[p]))
    {
      var k :| 0 <= k < |prepared| && prepared[k].path == p;
      assert g.cache[prepared[k].path].version == version;
    }
  }

  /** An unchanged corpus is already indexed as writing it again would index it. */
  lemma {:induction false} UnchangedIsWritten<X(!new)>(env: Env<X>, version: Version, g: Graph<X>, prepared: seq<Prepared<X>>)
    requires EnvOk(env) && Consistent(env, g) && Unchanged(g, prepared) && AllCached(env, version, g, prepared)
    ensures var w := Written(env, version, prepared, DataOf(prepared)); w.indexed == g.indexed && w.cache == g.cache
  {
    var data: map<Path, X> :| Indexes(env, g, data);
    var hashes := map p | p in g.files :: g.files[p].hash;
    hide CacheValid, Written, DataOf, HasPath, Agrees;
    UnchangedAgrees(env, version, g, prepared, data, hashes);
    DataOfIs(prepared, data, hashes);
    WrittenIs(env, version, prepared, g, data, hashes);
  }

  lemma {:induction false} WrittenIs<X>(env: Env<X>, version: Version, prepared: seq<Prepared<X>>, g: Graph<X>, data: map<Path, X>, hashes: map<Path, Hash>)
    requires Agrees(prepared, data, hashes) && g.files.Keys == g.cache.Keys == g.indexed.Keys && Indexes(env, g, data)
    requires forall p :: HasPath(prepared, p) <==> p in g.files
    requires forall p :: p in g.files ==> p in hashes && p in data && g.cache[p] == Entry(hashes[p], version, env.encode(data[p]))
    ensures var w := Written(env, version, prepared, data); w.indexed == g.indexed && w.cache == g.cache
  {
    hide Agrees, HasPath, Written;
    var w := Written(env, version, prepared, data);
    forall p
      ensures p in w.indexed <==> p in g.indexed
      ensures p in w.cache <==> p in g.cache
      ensures p in g.indexed ==> w.indexed[p] == g.indexed[p] && w.cache[p] == g.cache[p]
    {
      WrittenShape(env, version, prepared, data, data, hashes, p);
    }
  }

  /** What came from the cache is what the cache holds for it. */
  predicate ValidHit<X(==)>(env: Env<X>, version: Version, g: Graph<X>, p: Prepared<X>) {
    p.fromCache ==> CacheValid(env, version, Lookup(g.cache, p.path), p.hash) == Some(p.data)
  }

  lemma OneFromCache<X>(env: Env<X>, b: Build, f: Scanned, g: Graph<X>)
    ensures var p := Preparer(env, b, g)(f); p.Some? ==> ValidHit(env, b.version, g, p.value)
  {
    hide CacheValid;
  }

  ghost predicate AllHits<X(!new)>(env: Env<X>, version: Version, g: Graph<X>, prepared: seq<Prepared<X>>) {
    forall k :: 0 <= k < |prepared| ==> ValidHit(env, version, g, prepared[k])
  }

  lemma AllHitsSnoc<X(!new)>(env: Env<X>, version: Version, g: Graph<X>, prepared: seq<Prepared<X>>, p: Prepared<X>)
    requires AllHits(env, version, g, prepared) && ValidHit(env, version, g, p)
    ensures AllHits(env, version, g, prepared + [p])
  {
    hide ValidHit;
  }

  lemma {:induction false} FromCacheIsValid<X(!new)>(env: Env<X>, b: Build, g: Graph<X>, corpus: seq<Scanned>)
    ensures AllHits(env, b.version, g, FilterMap(corpus, Preparer(env, b, g)))
  {
    hide ValidHit;
    if corpus != [] {
      var f, front := corpus[|corpus| - 1], corpus[..|corpus| - 1];
      FromCacheIsValid(env, b, g, front);
      OneFromCache(env, b, f, g);
      hide AllHits;
      var p := Preparer(env, b, g)(f);
      if p.Some? {
        AllHitsSnoc(env, b.version, g, FilterMap(front, Preparer(env, b, g)), p.value);
      } else {
        assert FilterMap(front, Preparer(env, b, g)) + [] == FilterMap(front, Preparer(env, b, g));
      }
    }
  }

  /** Some corpus file that cannot be read is recovered by its stamp. */
  predicate RecoversUnread<X>(env: Env<X>, b: Build, g: Graph<X>) {
    exists k :: 0 <= k < |b.corpus| && Recovered(env, b, g, b.corpus[k])
  }

  /**
   After any sequence of builds, refreshing leaves the same index and the same cache as rebuilding
   everything from scratch, whether or not the refresh found work to do, exactly when no file that
   cannot be read is recovered by its stamp: a rebuild drops such a file.
   */
  lemma {:induction false} RefreshIsRebuild<X(!new)>(env: Env<X>, past: seq<Build>, b: Build)
    requires RunOk(env, past + [b])
    ensures var g := Run(env, past);
            SameLive(Publish(env, g, b), Publish(env, g, Rebuild(b)))
            <==> b.full || b.cancelled || !RecoversUnread(env, b, g)
  {
    if b.full || b.cancelled {
      assert b.full ==> Rebuild(b) == b;
      return;
    }
    hide Publish, EnvOk, Consistent, CacheOk, KnownOk, StampsHonest, FilterMap, SameLive, AllSame, Recovered, PreparesAlike;
    var builds := past + [b];
    assert builds[..|builds| - 1] == past && builds[|builds| - 1] == b;
    RunOkFront(env, builds);
    RunKeeps(env, past);
    RunConsistent(env, past);
    var g := Run(env, past);
    KnownOkMono(env, g.files, Systems(past), b.fs);
    if RecoversUnread(env, b, g) {
      var k :| 0 <= k < |b.corpus| && Recovered(env, b, g, b.corpus[k]);
      RecoveredIsKept(env, b, g, k);
      assert !SameLive(Publish(env, g, b), Publish(env, g, Rebuild(b))) by {
        CachesDiffer(Publish(env, g, b), Publish(env, g, Rebuild(b)), b.corpus[k].path);
      }
    } else {
      AlikeUnlessRecovered(env, b, Systems(builds), g);
      PublishSame(env, b, g);
    }
  }

  /** Refresh and rebuild prepare alike when no unreadable file is recovered. */
  lemma AlikeUnlessRecovered<X(!new)>(env: Env<X>, b: Build, seen: seq<FileSystem>, g: Graph<X>)
    requires EnvOk(env) && StampsHonest(seen) && seen != [] && b.fs == seen[|seen| - 1] && BuildOk(b) && !b.full
    requires CacheOk(env, g.cache) && KnownOk(env, g.files, seen) && !RecoversUnread(env, b, g)
    ensures PreparesAlike(env, b, g)
  {
    assert CacheOk(env, NoGraph<X>().cache) && KnownOk(env, NoGraph<X>().files, seen);
    hide EnvOk, CacheOk, KnownOk, StampsHonest, FilterMap, AllSame, Recovered, NoGraph, Preparer;
    forall k | 0 <= k < |b.corpus| ensures !Recovered(env, b, NoGraph(), b.corpus[k]) {
      NothingRecovered(env, b, b.corpus[k]);
    }
    SamePrepared(env, b, seen, g, NoGraph(), b.corpus);
    SamePreparer(env, b, Rebuild(b), b.corpus);
  }

  lemma CachesDiffer<X>(g: Graph<X>, h: Graph<X>, p: Path)
    requires p in g.cache && p !in h.cache
    ensures !SameLive(g, h)
  {
  }

  /** Without a graph no file is recovered. */
  lemma NothingRecovered<X>(env: Env<X>, b: Build, f: Scanned)
    ensures !Recovered(env, b, NoGraph<X>(), f)
  {
  }

  /** A recovered file stays in the cache when refreshing and leaves it when rebuilding. */
  lemma RecoveredIsKept<X(!new)>(env: Env<X>, b: Build, g: Graph<X>, k: nat)
    requires Consistent(env, g) && !b.full && !b.cancelled && k < |b.corpus| && Recovered(env, b, g, b.corpus[k])
    ensures b.corpus[k].path in Publish(env, g, b).cache
    ensures b.corpus[k].path !in Publish(env, g, Rebuild(b)).cache
  {
    hide Written, DataOf, FilterMap, Indexes, Recovered, HasPath, Publish, Unchanged, Preparer;
    var p, full := b.corpus[k].path, Rebuild(b);
    var prepared, rebuilt := PrepareCorpus(env, b, g), PrepareCorpus(env, full, g);
    PathsPrepared(env, b, g, b.corpus, p);
    PathsPrepared(env, full, NoGraph(), b.corpus, p);
    RecoveredIsUnread(env, b, g, b.corpus[k]);
    forall j | 0 <= j < |b.corpus| ensures !Recovered(env, full, NoGraph(), b.corpus[j]) {
      NothingRecovered(env, full, b.corpus[j]);
    }
    assert HasPath(prepared, p) && !HasPath(rebuilt, p);
    WrittenPaths(env, b.version, prepared, DataOf(prepared), p);
    WrittenPaths(env, b.version, rebuilt, DataOf(rebuilt), p);
    UnchangedHasPath(g, prepared, p);
    PublishedWhen(env, g, b);
    PublishedWhen(env, g, full);
  }

  lemma RecoveredIsUnread<X>(env: Env<X>, b: Build, g: Graph<X>, f: Scanned)
    requires Recovered(env, b, g, f)
    ensures !(f.path in b.fs && b.fs[f.path].readable)
  {
  }

  lemma UnchangedHasPath<X>(g: Graph<X>, prepared: seq<Prepared<X>>, p: Path)
    ensures Unchanged(g, prepared) && HasPath(prepared, p) ==> p in g.files
  {
  }

  /** The shortest such run: one file is indexed, then cannot be read. */
  lemma UnreadableFileStays<X(!new)>(env: Env<X>, version: Version)
    requires EnvOk(env)
    ensures var fs := map["a" := File([7], 1, true)];
            var first := Build(version, fs, [Scanned("a", 1)], true, false, true);
            var second := Build(version, map["a" := File([7], 1, false)], [Scanned("a", 1)], false, false, true);
            && RunOk(env, [first, second])
            && "a" in Publish(env, Run(env, [first]), second).cache
            && "a" !in Publish(env, Run(env, [first]), Rebuild(second)).cache
  {
    var fs, gs := map["a" := File([7], 1, true)], map["a" := File([7], 1, false)];
    var f := Scanned("a", 1);
    var first, second := Build(version, fs, [f], true, false, true), Build(version, gs, [f], false, false, true);
    assert RunOk(env, [first, second]);
    var x := env.extract(version, "a", [7]);
    var p := Prepared("a", env.hash([7]), 1, 1, x, false);
    hide EnvOk, RunOk;
    assert env.decode(env.encode(x)) == Some(x) by { DecodesBack(env, x); }
    OneFile(env, first, NoGraph(), f);
    assert PrepareCorpus(env, first, NoGraph()) == [p];
    OneWritten(env, version, p);
    var g := Run(env, [first]);
    assert [first][..0] == [] && g == Publish(env, NoGraph(), first);
    assert g.files == map["a" := Known(p.hash, 1, 1)] && g.cache == map["a" := Entry(p.hash, version, env.encode(x))];
    assert Recovered(env, second, g, f);
    RunOkFront(env, [first, second]);
    assert [first, second][..1] == [first];
    RunConsistent(env, [first]);
    RecoveredIsKept(env, second, g, 0);
  }

  lemma DecodesBack<X(!new)>(env: Env<X>, x: X)
    requires EnvOk(env)
    ensures env.decode(env.encode(x)) == Some(x)
  {
  }

  lemma OneFile<X>(env: Env<X>, b: Build, g: Graph<X>, f: Scanned)
    requires b.corpus == [f]
    ensures PrepareCorpus(env, b, g) == match Preparer(env, b, if b.full then NoGraph() else g)(f) case Some(p) => [p] case None => []
  {
    hide Preparer;
    var prepare := Preparer(env, b, if b.full then NoGraph() else g);
    assert [f][..0] == [] && FilterMap([f][..0], prepare) == [];
    assert FilterMap([f], prepare) == [] + match prepare(f) case Some(p) => [p] case None => [];
  }

  lemma OneWritten<X>(env: Env<X>, version: Version, p: Prepared<X>)
    ensures var g := Written(env, version, [p], DataOf([p]));
            && g.files == map[p.path := Known(p.hash, p.modifiedAt, p.size)]
            && g.cache == map[p.path := Entry(p.hash, version, env.encode(p.data))]
  {
    assert [p][..0] == [];
  }

  /** The paths of what is prepared. */
  lemma {:induction false} PathsPrepared<X>(env: Env<X>, b: Build, g: Graph<X>, corpus: seq<Scanned>, p: Path)
    ensures HasPath(FilterMap(corpus, Preparer(env, b, g)), p) <==>
            exists k :: 0 <= k < |corpus| && corpus[k].path == p
                        && ((p in b.fs && b.fs[p].readable) || Recovered(env, b, g, corpus[k]))
  {
    hide Recovered, Preparer;
    if corpus != [] {
      var front, f := corpus[..|corpus| - 1], corpus[|corpus| - 1];
      PathsPrepared(env, b, g, front, p);
      PreparedWhen(env, b, f, g);
      var before := FilterMap(front, Preparer(env, b, g));
      var made := Preparer(env, b, g)(f);
      HasPathSnoc(before, made, p);
      assert FilterMap(corpus, Preparer(env, b, g)) == before + match made case Some(x) => [x] case None => [];
      assert forall k :: 0 <= k < |front| ==> front[k] == corpus[k];
    }
  }

  lemma HasPathSnoc<X>(before: seq<Prepared<X>>, made: Option<Prepared<X>>, p: Path)
    ensures HasPath(before + match made case Some(x) => [x] case None => [], p)
            <==> HasPath(before, p) || (made.Some? && made.value.path == p)
  {
    var all := before + match made case Some(x) => [x] case None => [];
    if HasPath(before, p) {
      var k :| 0 <= k < |before| && before[k].path == p;
      assert all[k].path == p;
    }
    if made.Some? && made.value.path == p {
      assert all[|before|].path == p;
    }
  }

  /** A candidate caches exactly the prepared paths. */
  lemma {:induction false} WrittenPaths<X>(env: Env<X>, version: Version, prepared: seq<Prepared<X>>, all: map<Path, X>, p: Path)
    ensures p in Written(env, version, prepared, all).cache <==> HasPath(prepared, p)
  {
    if prepared != [] {
      WrittenPaths(env, version, prepared[..|prepared| - 1], all, p);
      HasPathFront(prepared, p);
    }
  }

  /** The same index and the same extraction cache. */
  predicate SameLive<X(==)>(g: Graph<X>, h: Graph<X>) { g.indexed == h.indexed && g.cache == h.cache }

  /** The build as a rebuild from scratch. */
  function Rebuild(b: Build): Build { b.(full := true) }

  /** Refreshing and rebuilding prepare the corpus alike. */
  ghost predicate PreparesAlike<X(!new)>(env: Env<X>, b: Build, g: Graph<X>) {
    AllSame(PrepareCorpus(env, b, g), PrepareCorpus(env, Rebuild(b), g))
  }

  lemma {:induction false} PublishSame<X(!new)>(env: Env<X>, b: Build, g: Graph<X>)
    requires EnvOk(env) && Consistent(env, g) && !b.full && !b.cancelled && PreparesAlike(env, b, g)
    ensures SameLive(Publish(env, g, b), Publish(env, g, Rebuild(b)))
  {
    hide Publish, Written, DataOf, FilterMap, Unchanged, AllCached, EnvOk, Consistent, PrepareCorpus, AllSame;
    var prepared := PrepareCorpus(env, b, g);
    var full := Rebuild(b);
    PublishedWhen(env, g, b);
    PublishedWhen(env, g, full);
    var noop := b.settingsSame && Unchanged(g, prepared);
    SameWritten(env, b.version, prepared, PrepareCorpus(env, full, g), DataOf(prepared));
    if noop {
      UnchangedAllCached(env, b, g);
      UnchangedIsWritten(env, b.version, g, prepared);
    }
  }

  lemma UnchangedAllCached<X(!new)>(env: Env<X>, b: Build, g: Graph<X>)
    requires !b.full && Unchanged(g, PrepareCorpus(env, b, g))
    ensures AllCached(env, b.version, g, PrepareCorpus(env, b, g))
  {
    hide CacheValid, FilterMap;
    var prepared := PrepareCorpus(env, b, g);
    assert prepared == FilterMap(b.corpus, Preparer(env, b, g));
    FromCacheIsValid(env, b, g, b.corpus);
    assert AllHits(env, b.version, g, prepared);
    forall k | 0 <= k < |prepared|
      ensures CacheValid(env, b.version, Lookup(g.cache, prepared[k].path), prepared[k].hash) == Some(prepared[k].data)
    {
      assert prepared[k].fromCache && ValidHit(env, b.version, g, prepared[k]);
    }
  }

  lemma PublishedWhen<X>(env: Env<X>, g: Graph<X>, b: Build)
    requires !b.cancelled
    ensures var prepared := PrepareCorpus(env, b, g);
            Publish(env, g, b) == if !b.full && b.settingsSame && Unchanged(g, prepared) then g
                                  else Written(env, b.version, prepared, DataOf(prepared))
  {
    hide Written, PrepareCorpus, Unchanged, DataOf;
  }

  lemma {:induction false} SamePreparer<X>(env: Env<X>, b: Build, b': Build, corpus: seq<Scanned>)
    requires b.version == b'.version && b.fs == b'.fs
    ensures FilterMap(corpus, Preparer(env, b, NoGraph<X>())) == FilterMap(corpus, Preparer(env, b', NoGraph<X>()))
  {
    if corpus != [] {
      SamePreparer(env, b, b', corpus[..|corpus| - 1]);
    }
  }
}
