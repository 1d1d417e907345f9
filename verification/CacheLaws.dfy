/** When a file is read, when its extraction comes from the cache, and when a refresh has nothing to do (src/graph/build.rs). */
module CacheLaws {
  import opened Prelude
  import opened PrepareFiles
  import opened ExtractionCache

  /** The cache has the extraction of what hashes to `hash`, made by this version. */
  predicate HasEntry(e: Option<Entry>, version: Version, hash: Hash) {
    e.Some? && e.value.hash == hash && e.value.version == version
  }

  /** Time stamp and size are the recorded ones, and the recorded content's extraction is cached. */
  predicate StampHit(version: Version, fs: FileSystem, f: Scanned, known: Option<Known>, e: Option<Entry>) {
    && known.Some? && f.path in fs && known.value.modifiedAt == fs[f.path].modifiedAt && known.value.size == f.size
    && HasEntry(e, version, known.value.hash)
  }

  lemma EntryDecodes<X(!new)>(env: Env<X>, version: Version, p: Path, cache: map<Path, Entry>, hash: Hash)
    requires EnvOk(env) && CacheOk(env, cache)
    ensures CacheValid(env, version, Lookup(cache, p), hash).Some? <==> HasEntry(Lookup(cache, p), version, hash)
  {
    if p in cache {
      assert EntryOk(env, p, cache[p]);
    }
  }

  /**
   A file is prepared exactly when its stamp is known or it can be read; its extraction is taken from
   the cache exactly when the stamp is known or its content was extracted by this version before.
   */
  lemma CacheIsUsed<X(!new)>(env: Env<X>, version: Version, fs: FileSystem, f: Scanned, g: Graph<X>)
    requires EnvOk(env) && CacheOk(env, g.cache) && f.path in fs
    ensures var known, e := Lookup(g.files, f.path), Lookup(g.cache, f.path);
            var p := PrepareFile(env, version, fs, f, known, e);
            var stamped := StampHit(version, fs, f, known, e);
            && (p.Some? <==> stamped || fs[f.path].readable)
            && (p.Some? ==>
                  && p.value.path == f.path
                  && p.value.modifiedAt == fs[f.path].modifiedAt
                  && p.value.hash == (if stamped then known.value.hash else env.hash(fs[f.path].content))
                  && (p.value.fromCache <==> stamped || HasEntry(e, version, env.hash(fs[f.path].content))))
  {
    hide EnvOk, CacheOk, HasEntry;
    EntryDecodes(env, version, f.path, g.cache, env.hash(fs[f.path].content));
    if f.path in g.files {
      EntryDecodes(env, version, f.path, g.cache, g.files[f.path].hash);
    }
  }

  /** The graph has the file as it is now, with its extraction. */
  predicate UpToDate<X(!new)>(env: Env<X>, b: Build, g: Graph<X>, f: Scanned)
    requires f.path in b.fs
  {
    && f.path in g.files && g.files[f.path].hash == env.hash(b.fs[f.path].content)
    && HasEntry(Lookup(g.cache, f.path), b.version, env.hash(b.fs[f.path].content))
  }

  ghost predicate InCorpus(b: Build, p: Path) { exists k :: 0 <= k < |b.corpus| && b.corpus[k].path == p }

  /** Every corpus file can be read. */
  ghost predicate AllReadable(b: Build) {
    forall k :: 0 <= k < |b.corpus| ==> ScannedOk(b.fs, b.corpus[k]) && b.fs[b.corpus[k].path].readable
  }

  /** What one readable file is prepared as, against an honest graph. */
  lemma OnePrepared<X(!new)>(env: Env<X>, b: Build, seen: seq<FileSystem>, g: Graph<X>, f: Scanned)
    requires EnvOk(env) && CacheOk(env, g.cache) && KnownOk(env, g.files, seen) && StampsHonest(seen)
    requires seen != [] && b.fs == seen[|seen| - 1] && ScannedOk(b.fs, f) && b.fs[f.path].readable
    ensures var p := Preparer(env, b, g)(f);
            && p.Some? && p.value.path == f.path
            && (p.value.fromCache && f.path in g.files && g.files[f.path].hash == p.value.hash <==> UpToDate(env, b, g, f))
  {
    CacheIsUsed(env, b.version, b.fs, f, g);
    PreparedIsFresh(env, b.version, seen, |seen| - 1, f, g);
    hide EnvOk, CacheOk, KnownOk, StampsHonest, PrepareFile;
  }

  /** The prepared files are those of the corpus, one each, in order. */
  ghost predicate InOrder<X(!new)>(env: Env<X>, b: Build, g: Graph<X>, corpus: seq<Scanned>, prepared: seq<Prepared<X>>) {
    |prepared| == |corpus| && forall k :: 0 <= k < |corpus| ==> Preparer(env, b, g)(corpus[k]) == Some(prepared[k])
  }

  lemma {:induction false} AllPrepared<X(!new)>(env: Env<X>, b: Build, seen: seq<FileSystem>, g: Graph<X>, corpus: seq<Scanned>)
    requires EnvOk(env) && CacheOk(env, g.cache) && KnownOk(env, g.files, seen) && StampsHonest(seen)
    requires seen != [] && b.fs == seen[|seen| - 1]
    requires forall k :: 0 <= k < |corpus| ==> ScannedOk(b.fs, corpus[k]) && b.fs[corpus[k].path].readable
    ensures InOrder(env, b, g, corpus, FilterMap(corpus, Preparer(env, b, g)))
  {
    hide EnvOk, CacheOk, KnownOk, StampsHonest, PrepareFile;
    if corpus != [] {
      var n := |corpus| - 1;
      AllPrepared(env, b, seen, g, corpus[..n]);
      OnePrepared(env, b, seen, g, corpus[n]);
      assert forall k :: 0 <= k < n ==> corpus[..n][k] == corpus[k];
    }
  }

  /**
   A refresh of readable files finds nothing to do exactly when the graph has every one of them as it is
   now, extracted by this version, and no other file.
   */
  lemma NothingToDo<X(!new)>(env: Env<X>, b: Build, seen: seq<FileSystem>, g: Graph<X>)
    requires EnvOk(env) && CacheOk(env, g.cache) && KnownOk(env, g.files, seen) && StampsHonest(seen)
    requires seen != [] && b.fs == seen[|seen| - 1] && AllReadable(b) && !b.full
    ensures Unchanged(g, PrepareCorpus(env, b, g)) <==>
            && (forall k :: 0 <= k < |b.corpus| ==> UpToDate(env, b, g, b.corpus[k]))
            && (forall p :: p in g.files ==> InCorpus(b, p))
  {
    var prepared := PrepareCorpus(env, b, g);
    EachPrepared(env, b, seen, g, prepared);
    assert forall k :: 0 <= k < |b.corpus| ==> b.corpus[k].path in b.fs;
    hide PrepareCorpus, EnvOk, CacheOk, KnownOk, StampsHonest, UpToDate, AllReadable, InCorpus, Unchanged;
    UnchangedWhen(env, b, g, prepared);
  }

  lemma UnchangedWhen<X(!new)>(env: Env<X>, b: Build, g: Graph<X>, prepared: seq<Prepared<X>>)
    requires |prepared| == |b.corpus| && forall k :: 0 <= k < |b.corpus| ==> b.corpus[k].path in b.fs
    requires forall k :: 0 <= k < |b.corpus| ==>
               && prepared[k].path == b.corpus[k].path
               && (prepared[k].fromCache && prepared[k].path in g.files && g.files[prepared[k].path].hash == prepared[k].hash
                   <==> UpToDate(env, b, g, b.corpus[k]))
    ensures Unchanged(g, prepared) <==>
            && (forall k :: 0 <= k < |b.corpus| ==> UpToDate(env, b, g, b.corpus[k]))
            && (forall p :: p in g.files ==> InCorpus(b, p))
  {
    hide UpToDate;
    SamePaths(b, prepared);
    hide InCorpus;
  }

  lemma EachPrepared<X(!new)>(env: Env<X>, b: Build, seen: seq<FileSystem>, g: Graph<X>, prepared: seq<Prepared<X>>)
    requires EnvOk(env) && CacheOk(env, g.cache) && KnownOk(env, g.files, seen) && StampsHonest(seen)
    requires seen != [] && b.fs == seen[|seen| - 1] && AllReadable(b) && !b.full
    requires prepared == PrepareCorpus(env, b, g)
    ensures |prepared| == |b.corpus|
    ensures forall k :: 0 <= k < |b.corpus| ==>
              && prepared[k].path == b.corpus[k].path
              && (prepared[k].fromCache && prepared[k].path in g.files && g.files[prepared[k].path].hash == prepared[k].hash
                  <==> UpToDate(env, b, g, b.corpus[k]))
  {
    AllPrepared(env, b, seen, g, b.corpus);
    assert InOrder(env, b, g, b.corpus, prepared);
    hide PrepareCorpus, Preparer, EnvOk, CacheOk, KnownOk, StampsHonest, UpToDate;
    forall k | 0 <= k < |b.corpus|
      ensures prepared[k].path == b.corpus[k].path
      ensures prepared[k].fromCache && prepared[k].path in g.files && g.files[prepared[k].path].hash == prepared[k].hash
              <==> UpToDate(env, b, g, b.corpus[k])
    {
      OnePrepared(env, b, seen, g, b.corpus[k]);
    }
  }

  lemma SamePaths<X>(b: Build, prepared: seq<Prepared<X>>)
    requires |prepared| == |b.corpus| && forall k :: 0 <= k < |b.corpus| ==> prepared[k].path == b.corpus[k].path
    ensures forall p :: InCorpus(b, p) <==> exists k :: 0 <= k < |prepared| && prepared[k].path == p
  {
    forall p
      ensures InCorpus(b, p) <==> exists k :: 0 <= k < |prepared| && prepared[k].path == p
    {
      if InCorpus(b, p) {
        var k :| 0 <= k < |b.corpus| && b.corpus[k].path == p;
        assert prepared[k].path == p;
      }
      if k :| 0 <= k < |prepared| && prepared[k].path == p {
        assert b.corpus[k].path == p;
      }
    }
  }
}
