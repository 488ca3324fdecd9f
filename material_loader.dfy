/** The incremental material loader: one pass over every entity's sources,
    skipping PDFs whose modification time matches the fingerprint cache,
    extracting the others, and rebuilding an entity's index from the
    documents extracted in this pass. */
module MaterialLoader {
  import opened Wrappers
  import opened Records
  import opened SessionState

  /** What the loader observes of the world outside the session.
      `mtimes`: `os.path.getmtime` of every path that exists (others read as None);
      `pdfText`: the text `docloader.load_pdf` extracts from a path (a path it
      cannot extract is absent, and extraction raises);
      `indexFails`: the document lists on which `embedder.create_index` raises. */
  datatype Env = Env(mtimes: map<string, real>, pdfText: map<string, string>, indexFails: set<seq<Document>>)

  function FileMtime(env: Env, path: string): Option<real> {
    if path in env.mtimes then Some(env.mtimes[path]) else None
  }

  /** Python truthiness of a processed entry: None and 0.0 are false. */
  predicate EntryTruthy(entry: Option<real>) {
    entry.Some? && entry.value != 0.0
  }

  /** The triple a source loader returns: (doc_info, was_loaded, processed_entry). */
  datatype SourceOutcome = SourceOutcome(doc: Option<Document>, wasLoaded: bool, entry: Option<real>)

  /** The cached fingerprint of the source's filename equals its current mtime. */
  predicate CacheHit(src: Source, entityProcessed: Cache, env: Env) {
    src.filename in entityProcessed && entityProcessed[src.filename] == FileMtime(env, src.filepath)
  }

  /** `load_pdf_source`: an unchanged file is reported loaded without extraction;
      otherwise the file is extracted, and a failed extraction reports not loaded. */
  function LoadPdfSource(src: Source, entityProcessed: Cache, env: Env): (r: SourceOutcome)
    ensures CacheHit(src, entityProcessed, env) ==> r == SourceOutcome(None, true, entityProcessed[src.filename])
    ensures r.doc.Some? <==> !CacheHit(src, entityProcessed, env) && src.filepath in env.pdfText
    ensures r.doc.Some? ==> r.wasLoaded && r.entry == FileMtime(env, src.filepath)
                            && r.doc.value == Document(src.filename, env.pdfText[src.filepath])
    ensures r.wasLoaded <==> CacheHit(src, entityProcessed, env) || src.filepath in env.pdfText
    ensures !r.wasLoaded ==> r == SourceOutcome(None, false, None)
  {
    var mtime := FileMtime(env, src.filepath);
    if src.filename in entityProcessed && entityProcessed[src.filename] == mtime then
      SourceOutcome(None, true, entityProcessed[src.filename])
    else if src.filepath in env.pdfText then
      SourceOutcome(Some(Document(src.filename, env.pdfText[src.filepath])), true, mtime)
    else
      SourceOutcome(None, false, None)
  }

  /** `load_wiki_source`: a stub that reports every wiki link loaded, with no
      document and no cache entry; it reads neither argument. */
  function LoadWikiSource(src: Source, entityProcessed: Cache): (r: SourceOutcome)
    ensures r.wasLoaded && r.doc.None? && r.entry.None? && !Queued(r)
  {
    SourceOutcome(None, true, None)
  }

  /** A PDF's document is queued (and its fingerprint stored) only when
      doc_info, was_loaded and processed_entry are all truthy. */
  predicate Queued(o: SourceOutcome) {
    o.doc.Some? && o.wasLoaded && EntryTruthy(o.entry)
  }

  /** The `was_loaded` value a source ends the pass with. */
  function LoadFlag(src: Source, entityProcessed: Cache, env: Env): (r: bool)
    ensures src.kind == "wiki_link" ==> r
    ensures src.kind != "pdf" && src.kind != "wiki_link" ==> !r
    ensures src.kind == "pdf" ==> (r <==> CacheHit(src, entityProcessed, env) || src.filepath in env.pdfText)
  {
    if src.kind == "pdf" then LoadPdfSource(src, entityProcessed, env).wasLoaded
    else if src.kind == "wiki_link" then LoadWikiSource(src, entityProcessed).wasLoaded
    else false
  }

  /** The walk over an entity's sources so far: the sources with their new
      flags, `docs_to_index`, and `entity_processed`. */
  datatype Walk = Walk(sources: seq<Source>, docs: seq<Document>, cache: Cache)

  /** One iteration of the source loop. */
  function StepSource(w: Walk, src: Source, env: Env): (w': Walk)
    ensures w'.sources == w.sources + [src.(wasLoaded := Some(LoadFlag(src, w.cache, env)))]
    ensures var queued := src.kind == "pdf" && !CacheHit(src, w.cache, env) && src.filepath in env.pdfText
                          && EntryTruthy(FileMtime(env, src.filepath));
            && (queued ==> w'.docs == w.docs + [Document(src.filename, env.pdfText[src.filepath])]
                           && w'.cache == w.cache[src.filename := FileMtime(env, src.filepath)])
            && (!queued ==> w'.docs == w.docs && w'.cache == w.cache)
  {
    var flagged := src.(wasLoaded := Some(LoadFlag(src, w.cache, env)));
    if src.kind == "pdf" && Queued(LoadPdfSource(src, w.cache, env)) then
      var o := LoadPdfSource(src, w.cache, env);
      Walk(w.sources + [flagged], w.docs + [o.doc.value], w.cache[src.filename := o.entry])
    else
      Walk(w.sources + [flagged], w.docs, w.cache)
  }

  /** The source loop of `load_entity_materials`, from a starting cache: every
      source keeps its other keys and ends with a `was_loaded` value; wiki links
      end loaded, sources of any other unknown type end not loaded, and a PDF
      that extracts ends loaded. */
  function WalkSources(srcs: seq<Source>, cache: Cache, env: Env): (w: Walk)
    decreases |srcs|
    ensures |w.sources| == |srcs|
  {
    if srcs == [] then Walk([], [], cache)
    else StepSource(WalkSources(srcs[..|srcs| - 1], cache, env), srcs[|srcs| - 1], env)
  }

  /** `s'` is source `s` after the pass: its other keys kept and a
      `was_loaded` value set; wiki links end loaded, sources of any other
      unknown type end not loaded, and a PDF that extracts ends loaded. */
  predicate FlagRule(s': Source, s: Source, env: Env) {
    && s' == s.(wasLoaded := s'.wasLoaded)
    && s'.wasLoaded.Some?
    && (s.kind == "wiki_link" ==> s'.wasLoaded == Some(true))
    && (s.kind != "pdf" && s.kind != "wiki_link" ==> s'.wasLoaded == Some(false))
    && (s.kind == "pdf" && s.filepath in env.pdfText ==> s'.wasLoaded == Some(true))
  }

  /** Every source ends the pass by FlagRule. */
  lemma {:induction false} WalkSourcesFlags(srcs: seq<Source>, cache: Cache, env: Env)
    decreases |srcs|
    ensures var w := WalkSources(srcs, cache, env);
            forall i :: 0 <= i < |srcs| ==> FlagRule(w.sources[i], srcs[i], env)
  {
    if srcs != [] {
      var pre := srcs[..|srcs| - 1];
      WalkSourcesFlags(pre, cache, env);
      var wp := WalkSources(pre, cache, env);
      var last := srcs[|srcs| - 1];
      assert FlagRule(last.(wasLoaded := Some(LoadFlag(last, wp.cache, env))), last, env);
      assert forall i :: 0 <= i < |pre| ==> pre[i] == srcs[i];
    }
  }

  /** Unfolding WalkSources one source further. */
  lemma WalkSourcesSnoc(srcs: seq<Source>, i: nat, cache: Cache, env: Env)
    requires i < |srcs|
    ensures WalkSources(srcs[..i + 1], cache, env) == StepSource(WalkSources(srcs[..i], cache, env), srcs[i], env)
  {
    assert srcs[..i + 1][..i] == srcs[..i];
  }

  /** `docs` lists, in source order, the extracted documents of some of the
      PDF sources of `srcs`. */
  ghost predicate ExtractedInOrder(docs: seq<Document>, srcs: seq<Source>, env: Env)
    decreases |srcs|
  {
    if srcs == [] then docs == []
    else
      var last := srcs[|srcs| - 1];
      ExtractedInOrder(docs, srcs[..|srcs| - 1], env) ||
      (docs != [] && last.kind == "pdf" && last.filepath in env.pdfText &&
       docs[|docs| - 1] == Document(last.filename, env.pdfText[last.filepath]) &&
       ExtractedInOrder(docs[..|docs| - 1], srcs[..|srcs| - 1], env))
  }

  /** The new entries of `after` (keys added or changed relative to `before`)
      are truthy fingerprints of PDF sources of `srcs`. */
  ghost predicate WritesOnlyTruthyPdfEntries(before: Cache, after: Cache, srcs: seq<Source>) {
    && (forall f :: f in before ==> f in after)
    && (forall f :: f in after && (f !in before || after[f] != before[f]) ==>
          EntryTruthy(after[f]) && exists i :: 0 <= i < |srcs| && srcs[i].kind == "pdf" && srcs[i].filename == f)
  }

  /** `docs_to_index` holds, in source order, the extracted documents of some PDF sources. */
  lemma {:induction false} WalkDocsInSourceOrder(srcs: seq<Source>, cache: Cache, env: Env)
    ensures ExtractedInOrder(WalkSources(srcs, cache, env).docs, srcs, env)
    decreases |srcs|
  {
    if srcs != [] {
      var pre := srcs[..|srcs| - 1];
      WalkDocsInSourceOrder(pre, cache, env);
      var wp := WalkSources(pre, cache, env);
      var w := WalkSources(srcs, cache, env);
      if w.docs != wp.docs {
        assert w.docs[..|w.docs| - 1] == wp.docs;
      }
    }
  }

  /** The cache only gains or changes entries for PDF filenames, and every
      entry written is a truthy fingerprint: an entry is never written as None. */
  lemma {:induction false} WalkWritesTruthyEntries(srcs: seq<Source>, cache: Cache, env: Env)
    ensures WritesOnlyTruthyPdfEntries(cache, WalkSources(srcs, cache, env).cache, srcs)
    decreases |srcs|
  {
    if srcs != [] {
      var pre := srcs[..|srcs| - 1];
      WalkWritesTruthyEntries(pre, cache, env);
      var wp := WalkSources(pre, cache, env);
      var w := WalkSources(srcs, cache, env);
      forall f | f in w.cache && (f !in cache || w.cache[f] != cache[f])
        ensures EntryTruthy(w.cache[f]) && exists i :: 0 <= i < |srcs| && srcs[i].kind == "pdf" && srcs[i].filename == f
      {
        if f in wp.cache && (f !in cache || wp.cache[f] != cache[f]) && w.cache[f] == wp.cache[f] {
          var i :| 0 <= i < |pre| && pre[i].kind == "pdf" && pre[i].filename == f;
          assert srcs[i] == pre[i];
        } else {
          assert srcs[|srcs| - 1].kind == "pdf" && srcs[|srcs| - 1].filename == f;
        }
      }
    }
  }

  /** Every document queued in a pass is counted against a distinct source. */
  lemma {:induction false} WalkDocsBounded(srcs: seq<Source>, cache: Cache, env: Env)
    ensures |WalkSources(srcs, cache, env).docs| <= |srcs|
    decreases |srcs|
  {
    if srcs != [] {
      WalkDocsBounded(srcs[..|srcs| - 1], cache, env);
    }
  }

  /** What one call of `load_entity_materials` produces. `ok` is false when
      `embedder.create_index` raised; the flags and the cache are updated then too. */
  datatype EntityOutcome = EntityOutcome(entity: Entity, materials: Materials, processed: Processed, ok: bool)

  /** `processed_files.get(uuid, {})`. */
  function CacheOf(processed: Processed, id: Uuid): Cache {
    if id in processed then processed[id] else map[]
  }

  /** `e'` is `e` with new flags on its sources: every other field of the
      entity, and every key of each source but `was_loaded`, is as before. */
  predicate Reflagged(e': Entity, e: Entity) {
    && e' == e.(sources := e'.sources)
    && |e'.sources| == |e.sources|
    && forall i :: 0 <= i < |e.sources| ==> e'.sources[i] == e.sources[i].(wasLoaded := e'.sources[i].wasLoaded)
  }

  /** `load_entity_materials` as a function of its inputs. Entries of other
      entities are untouched and no entry is dropped. */
  function EntityPass(e: Entity, materials: Materials, processed: Processed, env: Env): (r: EntityOutcome)
    ensures !r.ok ==> r.materials == materials
    ensures r.ok ==> e.uuid in r.materials
    ensures Reflagged(r.entity, e)
  {
    WalkSourcesFlags(e.sources, CacheOf(processed, e.uuid), env);
    var w := WalkSources(e.sources, CacheOf(processed, e.uuid), env);
    var processed' := processed[e.uuid := w.cache];
    var entity' := e.(sources := w.sources);
    if w.docs != [] then
      if w.docs in env.indexFails then EntityOutcome(entity', materials, processed', false)
      else EntityOutcome(entity', materials[e.uuid := Some(Index(w.docs))], processed', true)
    else if e.uuid !in materials then EntityOutcome(entity', materials[e.uuid := None], processed', true)
    else EntityOutcome(entity', materials, processed', true)
  }

  /** A pass touches only the entity's own entries and drops no key. */
  lemma EntityPassFrame(e: Entity, materials: Materials, processed: Processed, env: Env)
    ensures var r := EntityPass(e, materials, processed, env);
            && (forall u :: u != e.uuid ==> (u in r.materials <==> u in materials) && (u in materials ==> r.materials[u] == materials[u]))
            && (forall u :: u != e.uuid ==> (u in r.processed <==> u in processed) && (u in processed ==> r.processed[u] == processed[u]))
            && (forall u :: u in materials ==> u in r.materials)
  {
  }

  /** The index update rule: a pass that queued documents replaces the
      entity's index by one built from exactly those documents (or leaves the
      entries alone when `create_index` raises); a pass that queued none
      initialises a missing entry to None and otherwise leaves it; the
      entity's sources get their new flags and its cache is stored either way. */
  lemma IndexUpdateRule(e: Entity, materials: Materials, processed: Processed, env: Env)
    ensures var w := WalkSources(e.sources, CacheOf(processed, e.uuid), env);
            var r := EntityPass(e, materials, processed, env);
            && r.entity == e.(sources := w.sources)
            && r.processed == processed[e.uuid := w.cache]
            && (w.docs != [] ==> (r.ok <==> w.docs !in env.indexFails))
            && (w.docs != [] && r.ok ==> r.materials == materials[e.uuid := Some(Index(w.docs))])
            && (w.docs == [] ==> r.ok && r.materials == if e.uuid in materials then materials else materials[e.uuid := None])
  {
  }

  /** One iteration of the source loop of `load_entity_materials`: the
      source is reset to not loaded, then loaded by its type; a PDF whose
      outcome is fully truthy is queued for indexing and its fingerprint
      cached. */
  method VisitSource(src: Source, docsToIndex: seq<Document>, entityProcessed: Cache, env: Env)
    returns (flagged: Source, docs': seq<Document>, cache': Cache)
    ensures Walk([flagged], docs', cache') == StepSource(Walk([], docsToIndex, entityProcessed), src, env)
  {
    flagged := src.(wasLoaded := Some(false));
    docs', cache' := docsToIndex, entityProcessed;
    if flagged.kind == "pdf" {
      var o := LoadPdfSource(flagged, entityProcessed, env);
      assert o == LoadPdfSource(src, entityProcessed, env);
      flagged := flagged.(wasLoaded := Some(o.wasLoaded));
      if o.doc.Some? && o.wasLoaded && EntryTruthy(o.entry) {
        docs' := docs' + [o.doc.value];
        cache' := cache'[flagged.filename := o.entry];
      }
    } else if flagged.kind == "wiki_link" {
      var o := LoadWikiSource(flagged, entityProcessed);
      flagged := flagged.(wasLoaded := Some(o.wasLoaded));
    }
  }

  /** The source loop of `load_entity_materials`, in order over the sources. */
  method WalkEntitySources(sources: seq<Source>, cache: Cache, env: Env)
    returns (srcs: seq<Source>, docsToIndex: seq<Document>, entityProcessed: Cache)
    ensures Walk(srcs, docsToIndex, entityProcessed) == WalkSources(sources, cache, env)
  {
    srcs, docsToIndex, entityProcessed := [], [], cache;
    var i := 0;
    while i < |sources|
      invariant 0 <= i <= |sources|
      invariant Walk(srcs, docsToIndex, entityProcessed) == WalkSources(sources[..i], cache, env)
    {
      var src;
      src, docsToIndex, entityProcessed := VisitSource(sources[i], docsToIndex, entityProcessed, env);
      WalkSourcesSnoc(sources, i, cache, env);
      srcs := srcs + [src];
      i := i + 1;
    }
    assert sources == sources[..i];
  }

  /** `load_entity_materials`: walks the sources in order, stores the
      entity's cache, and replaces or initialises its index entry. */
  method LoadEntityMaterials(entity: Entity, entityMaterials: Materials, processedFiles: Processed, env: Env)
    returns (entity': Entity, materials': Materials, processed': Processed, ok: bool)
    ensures EntityOutcome(entity', materials', processed', ok) == EntityPass(entity, entityMaterials, processedFiles, env)
  {
    var entityProcessed := if entity.uuid in processedFiles then processedFiles[entity.uuid] else map[];
    var srcs, docsToIndex;
    srcs, docsToIndex, entityProcessed := WalkEntitySources(entity.sources, entityProcessed, env);
    processed' := processedFiles[entity.uuid := entityProcessed];
    entity' := entity.(sources := srcs);
    materials' := entityMaterials;
    ok := true;
    if docsToIndex != [] {
      if docsToIndex in env.indexFails {
        ok := false;
      } else {
        materials' := entityMaterials[entity.uuid := Some(Index(docsToIndex))];
      }
    } else if entity.uuid !in entityMaterials {
      materials' := entityMaterials[entity.uuid := None];
    }
  }

  /** `c1` and `c2` hold the same entry (or none) for filename `f`. */
  ghost predicate AgreeOn(c1: Cache, c2: Cache, f: string) {
    (f in c1 <==> f in c2) && (f in c1 ==> c1[f] == c2[f])
  }

  /** No two PDF sources of the list share a filename. */
  ghost predicate PdfFilenamesDistinct(srcs: seq<Source>) {
    forall i, j :: 0 <= i < j < |srcs| && srcs[i].kind == "pdf" && srcs[j].kind == "pdf" ==>
      srcs[i].filename != srcs[j].filename
  }

  /** Walking the sources a second time, over the same files, with a cache
      that agrees with the first walk's cache on every PDF filename: every PDF
      that was queued or skipped the first time is now a cache hit, every other
      one is re-tried with the same outcome, so nothing is queued, the cache is
      unchanged and every flag comes out as before. */
  lemma {:induction false} RewalkIsFixpoint(srcs: seq<Source>, cache: Cache, env: Env, c: Cache)
    requires PdfFilenamesDistinct(srcs)
    requires forall i :: 0 <= i < |srcs| && srcs[i].kind == "pdf" ==>
               AgreeOn(WalkSources(srcs, cache, env).cache, c, srcs[i].filename)
    ensures var w := WalkSources(srcs, cache, env);
            WalkSources(w.sources, c, env) == Walk(w.sources, [], c)
    decreases |srcs|
  {
    var w := WalkSources(srcs, cache, env);
    if srcs != [] {
      var n := |srcs| - 1;
      var pre, last := srcs[..n], srcs[n];
      var wp := WalkSources(pre, cache, env);
      assert w == StepSource(wp, last, env);
      forall i | 0 <= i < |pre| && pre[i].kind == "pdf"
        ensures AgreeOn(wp.cache, c, pre[i].filename)
      {
        assert pre[i] == srcs[i];
        assert AgreeOn(w.cache, c, srcs[i].filename);
        assert last.kind == "pdf" ==> srcs[i].filename != last.filename;
      }
      RewalkIsFixpoint(pre, cache, env, c);
      assert w.sources[..n] == wp.sources;
      assert WalkSources(w.sources, c, env) == StepSource(WalkSources(wp.sources, c, env), w.sources[n], env);
      RestepIsFixpoint(wp, last, env, c, wp.sources);
    }
  }

  /** The one-source case of RewalkIsFixpoint. */
  lemma RestepIsFixpoint(w: Walk, src: Source, env: Env, c: Cache, rest: seq<Source>)
    requires src.kind == "pdf" ==> AgreeOn(StepSource(w, src, env).cache, c, src.filename)
    ensures var flagged := src.(wasLoaded := Some(LoadFlag(src, w.cache, env)));
            StepSource(Walk(rest, [], c), flagged, env) == Walk(rest + [flagged], [], c)
  {
    var flagged := src.(wasLoaded := Some(LoadFlag(src, w.cache, env)));
    if src.kind == "pdf" {
      var o1 := LoadPdfSource(src, w.cache, env);
      if Queued(o1) {
        assert CacheHit(flagged, c, env);
      } else {
        assert CacheHit(flagged, c, env) <==> CacheHit(src, w.cache, env);
      }
    }
  }

  /** Whether or not the first pass's index build raised, a second pass over
      an entity whose PDF filenames are distinct, with the files unchanged,
      walks the sources from the cache the first pass stored, queues nothing,
      reproduces every flag and stores the same cache again. */
  lemma RepassQueuesNothing(e: Entity, materials: Materials, processed: Processed, env: Env)
    requires PdfFilenamesDistinct(e.sources)
    ensures var r := EntityPass(e, materials, processed, env);
            var c := CacheOf(r.processed, e.uuid);
            && r.entity.uuid == e.uuid
            && WalkSources(r.entity.sources, c, env) == Walk(r.entity.sources, [], c)
            && r.processed[e.uuid := c] == r.processed
  {
    var w := WalkSources(e.sources, CacheOf(processed, e.uuid), env);
    IndexUpdateRule(e, materials, processed, env);
    var r := EntityPass(e, materials, processed, env);
    assert CacheOf(r.processed, e.uuid) == w.cache;
    RewalkIsFixpoint(e.sources, CacheOf(processed, e.uuid), env, w.cache);
  }

  /** A second pass over an entity whose PDF filenames are distinct, with the
      files unchanged, after a pass that completed, changes nothing: no PDF is
      extracted into the index again, no flag changes, the cache and the index
      entry stay as they are. */
  lemma EntityPassIdempotent(e: Entity, materials: Materials, processed: Processed, env: Env)
    requires PdfFilenamesDistinct(e.sources)
    requires EntityPass(e, materials, processed, env).ok
    ensures var r := EntityPass(e, materials, processed, env);
            EntityPass(r.entity, r.materials, r.processed, env) == r
  {
    var r := EntityPass(e, materials, processed, env);
    RepassQueuesNothing(e, materials, processed, env);
    IndexUpdateRule(r.entity, r.materials, r.processed, env);
  }

  /** The cache is stored before `create_index` runs, so it is kept when the
      index build raises. A second pass over unchanged files then hits the
      cache for every PDF that was queued, queues nothing, and does not try
      the index build again: the entity keeps the entry it had before the
      failed pass, or gets None. */
  lemma FailedIndexNotRetried(e: Entity, materials: Materials, processed: Processed, env: Env)
    requires PdfFilenamesDistinct(e.sources)
    requires !EntityPass(e, materials, processed, env).ok
    ensures var r := EntityPass(e, materials, processed, env);
            var r2 := EntityPass(r.entity, r.materials, r.processed, env);
            && r.materials == materials
            && WalkSources(r.entity.sources, CacheOf(r.processed, e.uuid), env).docs == []
            && r2.ok && r2.entity == r.entity && r2.processed == r.processed
            && r2.materials == if e.uuid in materials then materials else materials[e.uuid := None]
  {
    var r := EntityPass(e, materials, processed, env);
    RepassQueuesNothing(e, materials, processed, env);
    IndexUpdateRule(r.entity, r.materials, r.processed, env);
  }

  /** The distinct-filename hypothesis above is needed. The cache is keyed by
      filename, so two PDF sources with one filename share one entry: a walk
      from an empty cache leaves the second file's mtime there, and a second
      walk over the same, unchanged files misses the cache for both files
      and extracts them again. */
  lemma SharedFilenameReextracts()
    ensures var a := Source("pdf", "notes.pdf", "a/notes.pdf", None);
            var b := Source("pdf", "notes.pdf", "b/notes.pdf", None);
            var env := Env(map["a/notes.pdf" := 1.0, "b/notes.pdf" := 2.0], map["a/notes.pdf" := "A", "b/notes.pdf" := "B"], {});
            var w := WalkSources([a, b], map[], env);
            && !PdfFilenamesDistinct([a, b])
            && w.docs == [Document("notes.pdf", "A"), Document("notes.pdf", "B")]
            && WalkSources(w.sources, w.cache, env).docs == w.docs
  {
    var a := Source("pdf", "notes.pdf", "a/notes.pdf", None);
    var b := Source("pdf", "notes.pdf", "b/notes.pdf", None);
    var env := Env(map["a/notes.pdf" := 1.0, "b/notes.pdf" := 2.0], map["a/notes.pdf" := "A", "b/notes.pdf" := "B"], {});
    SharedFirstWalk(a, b, env);
    SharedSecondWalk(a.(wasLoaded := Some(true)), b.(wasLoaded := Some(true)), env);
    assert !PdfFilenamesDistinct([a, b]) by {
      assert [a, b][0].filename == [a, b][1].filename;
    }
  }

  /** The first walk of SharedFilenameReextracts: both files are extracted
      and flagged loaded, and the second overwrites the first one's entry. */
  lemma SharedFirstWalk(a: Source, b: Source, env: Env)
    requires a == Source("pdf", "notes.pdf", "a/notes.pdf", None) && b == Source("pdf", "notes.pdf", "b/notes.pdf", None)
    requires env == Env(map["a/notes.pdf" := 1.0, "b/notes.pdf" := 2.0], map["a/notes.pdf" := "A", "b/notes.pdf" := "B"], {})
    ensures var w := WalkSources([a, b], map[], env);
            && w.docs == [Document("notes.pdf", "A"), Document("notes.pdf", "B")]
            && w.cache == map["notes.pdf" := Some(2.0)]
            && w.sources == [a.(wasLoaded := Some(true)), b.(wasLoaded := Some(true))]
  {
    assert FileMtime(env, a.filepath) == Some(1.0) && FileMtime(env, b.filepath) == Some(2.0);
    assert env.pdfText[a.filepath] == "A" && env.pdfText[b.filepath] == "B";
    assert [a, b][..1] == [a] && [a][..0] == [];
    var w1 := StepSource(Walk([], [], map[]), a, env);
    assert WalkSources([a], map[], env) == w1;
    assert w1.docs == [Document("notes.pdf", "A")] && w1.cache == map["notes.pdf" := Some(1.0)];
    assert !CacheHit(b, w1.cache, env);
  }

  /** The second walk of SharedFilenameReextracts: the first file misses the
      overwritten entry, and then the second misses the entry the first wrote. */
  lemma SharedSecondWalk(a: Source, b: Source, env: Env)
    requires a == Source("pdf", "notes.pdf", "a/notes.pdf", Some(true)) && b == Source("pdf", "notes.pdf", "b/notes.pdf", Some(true))
    requires env == Env(map["a/notes.pdf" := 1.0, "b/notes.pdf" := 2.0], map["a/notes.pdf" := "A", "b/notes.pdf" := "B"], {})
    ensures WalkSources([a, b], map["notes.pdf" := Some(2.0)], env).docs
              == [Document("notes.pdf", "A"), Document("notes.pdf", "B")]
  {
    var c: Cache := map["notes.pdf" := Some(2.0)];
    assert FileMtime(env, a.filepath) == Some(1.0) && FileMtime(env, b.filepath) == Some(2.0);
    assert env.pdfText[a.filepath] == "A" && env.pdfText[b.filepath] == "B";
    assert [a, b][..1] == [a] && [a][..0] == [];
    assert !CacheHit(a, c, env);
    var v1 := StepSource(Walk([], [], c), a, env);
    assert WalkSources([a], c, env) == v1;
    assert v1.docs == [Document("notes.pdf", "A")] && v1.cache == map["notes.pdf" := Some(1.0)];
    assert !CacheHit(b, v1.cache, env);
  }

  /** The sources and files of ThreeSharedNotIdempotent. */
  function ThreeShared(): seq<Source> {
    [Source("pdf", "notes.pdf", "a/notes.pdf", None),
     Source("pdf", "notes.pdf", "b/notes.pdf", None),
     Source("pdf", "notes.pdf", "c/notes.pdf", None)]
  }

  function ThreeSharedEnv(): Env {
    Env(map["a/notes.pdf" := 1.0, "b/notes.pdf" := 2.0, "c/notes.pdf" := 1.0],
        map["a/notes.pdf" := "A", "b/notes.pdf" := "B", "c/notes.pdf" := "C"], {})
  }

  /** The first walk over ThreeShared queues all three documents and leaves
      the first file's mtime in the entry. */
  lemma ThreeSharedFirstWalk()
    ensures var w := WalkSources(ThreeShared(), map[], ThreeSharedEnv());
            && w.docs == [Document("notes.pdf", "A"), Document("notes.pdf", "B"), Document("notes.pdf", "C")]
            && w.cache == map["notes.pdf" := Some(1.0)]
            && w.sources == [ThreeShared()[0].(wasLoaded := Some(true)), ThreeShared()[1].(wasLoaded := Some(true)),
                             ThreeShared()[2].(wasLoaded := Some(true))]
  {
    var env := ThreeSharedEnv();
    var a, b, c := ThreeShared()[0], ThreeShared()[1], ThreeShared()[2];
    assert FileMtime(env, a.filepath) == Some(1.0) && FileMtime(env, b.filepath) == Some(2.0) && FileMtime(env, c.filepath) == Some(1.0);
    assert env.pdfText[a.filepath] == "A" && env.pdfText[b.filepath] == "B" && env.pdfText[c.filepath] == "C";
    assert ThreeShared()[..2] == [a, b] && [a, b][..1] == [a] && [a][..0] == [];
    var w1 := StepSource(Walk([], [], map[]), a, env);
    assert WalkSources([a], map[], env) == w1;
    assert w1.cache == map["notes.pdf" := Some(1.0)];
    var w2 := StepSource(w1, b, env);
    assert WalkSources([a, b], map[], env) == w2;
    assert w2.cache == map["notes.pdf" := Some(2.0)];
  }

  /** The second walk, over the flagged sources from the entry the first
      walk left, hits the cache for the first file and queues the other two. */
  lemma ThreeSharedSecondWalk(f0: Option<bool>, f1: Option<bool>, f2: Option<bool>)
    ensures var t := ThreeShared();
            WalkSources([t[0].(wasLoaded := f0), t[1].(wasLoaded := f1), t[2].(wasLoaded := f2)],
                        map["notes.pdf" := Some(1.0)], ThreeSharedEnv()).docs
              == [Document("notes.pdf", "B"), Document("notes.pdf", "C")]
  {
    var env := ThreeSharedEnv();
    var cache: Cache := map["notes.pdf" := Some(1.0)];
    var a := Source("pdf", "notes.pdf", "a/notes.pdf", f0);
    var b := Source("pdf", "notes.pdf", "b/notes.pdf", f1);
    var c := Source("pdf", "notes.pdf", "c/notes.pdf", f2);
    assert FileMtime(env, a.filepath) == Some(1.0) && FileMtime(env, b.filepath) == Some(2.0) && FileMtime(env, c.filepath) == Some(1.0);
    assert env.pdfText[b.filepath] == "B" && env.pdfText[c.filepath] == "C";
    assert [a, b, c][..2] == [a, b] && [a, b][..1] == [a] && [a][..0] == [];
    assert CacheHit(a, cache, env);
    var v1 := StepSource(Walk([], [], cache), a, env);
    assert WalkSources([a], cache, env) == v1;
    assert v1.docs == [] && v1.cache == cache;
    var v2 := StepSource(v1, b, env);
    assert WalkSources([a, b], cache, env) == v2;
    assert v2.docs == [Document("notes.pdf", "B")] && v2.cache == map["notes.pdf" := Some(2.0)];
  }

  /** With three PDF sources under one filename whose mtimes are 1.0, 2.0
      and 1.0, a pass is not idempotent: the first pass indexes all three
      documents and leaves the entry at 1.0, so the second pass hits the cache
      for the first file, queues only the other two, and replaces the index by
      one without the first file's document. */
  lemma ThreeSharedNotIdempotent()
    ensures var e := Entity(0, "E", ThreeShared(), None, None, None, false);
            var r := EntityPass(e, map[], map[], ThreeSharedEnv());
            var r2 := EntityPass(r.entity, r.materials, r.processed, ThreeSharedEnv());
            && !PdfFilenamesDistinct(ThreeShared())
            && r.ok && r2.ok
            && r.materials[0] == Some(Index([Document("notes.pdf", "A"), Document("notes.pdf", "B"), Document("notes.pdf", "C")]))
            && r2.materials[0] == Some(Index([Document("notes.pdf", "B"), Document("notes.pdf", "C")]))
            && r2 != r
  {
    var env := ThreeSharedEnv();
    var e := Entity(0, "E", ThreeShared(), None, None, None, false);
    ThreeSharedFirstWalk();
    var w := WalkSources(ThreeShared(), map[], env);
    IndexUpdateRule(e, map[], map[], env);
    var r := EntityPass(e, map[], map[], env);
    assert CacheOf(r.processed, 0) == w.cache;
    ThreeSharedSecondWalk(Some(true), Some(true), Some(true));
    IndexUpdateRule(r.entity, r.materials, r.processed, env);
    assert !PdfFilenamesDistinct(ThreeShared()) by {
      assert ThreeShared()[0].filename == ThreeShared()[1].filename;
    }
  }

  /** A PDF source whose filename has no cache entry, and whose extraction
      fails or whose mtime is falsy (0.0, or no file), gets no entry from the
      step and queues nothing; so the next pass misses the cache for it again
      and, when the file extracts, extracts it again. A file with mtime 0.0 is
      thus extracted on every pass and never indexed. */
  lemma UncachedPdfRetried(w: Walk, src: Source, env: Env)
    requires src.kind == "pdf" && src.filename !in w.cache
    requires src.filepath !in env.pdfText || !EntryTruthy(FileMtime(env, src.filepath))
    ensures var w' := StepSource(w, src, env);
            && w'.docs == w.docs && w'.cache == w.cache
            && !CacheHit(src, w'.cache, env)
            && (src.filepath in env.pdfText ==>
                  LoadPdfSource(src, w.cache, env).doc.Some? && LoadPdfSource(src, w'.cache, env).doc.Some?)
  {
  }

  /** The state of `load_all_entity_materials` after the first `n` entities:
      the entity list (flags updated in place), `entity_materials`,
      `_processed_files`, the number of entities completed, and whether
      `create_index` raised (which ends the loop). */
  datatype PassState = PassState(entities: seq<Entity>, materials: Materials, processed: Processed, done: nat, failed: bool)

  /** A per-entity step of the pass: `load_entity_materials` with its
      collaborators fixed. */
  type EntityStep = (Entity, Materials, Processed) -> EntityOutcome

  /** `load_entity_materials` under the collaborators `env`. */
  function StepOf(env: Env): EntityStep {
    (e, m, p) => EntityPass(e, m, p, env)
  }

  /** What the pass over all entities relies on about one step: it only
      reflags the entity's sources, an exception leaves the index entries
      alone, success leaves the entity with an entry, and no key is dropped. */
  predicate StepFacts(e: Entity, materials: Materials, r: EntityOutcome) {
    && Reflagged(r.entity, e)
    && (!r.ok ==> r.materials == materials)
    && (r.ok ==> e.uuid in r.materials)
    && materials.Keys <= r.materials.Keys
  }

  /** Every application of `step` satisfies StepFacts. */
  ghost predicate WellBehaved(step: EntityStep) {
    forall e, m, p :: StepFacts(e, m, step(e, m, p))
  }

  /** `load_entity_materials` is such a step. */
  lemma StepOfWellBehaved(env: Env)
    ensures WellBehaved(StepOf(env))
  {
    forall e, m, p
      ensures StepFacts(e, m, StepOf(env)(e, m, p))
    {
      EntityPassFrame(e, m, p, env);
    }
  }

  /** The first `n` iterations of the loop of `load_all_entity_materials`,
      each entity through `step`, stopping at the first failure. */
  function LoadPrefix(es: seq<Entity>, n: nat, materials: Materials, processed: Processed, step: EntityStep): (p: PassState)
    requires n <= |es|
    decreases n
    ensures |p.entities| == |es|
    ensures p.done <= n && (!p.failed ==> p.done == n) && (p.failed ==> p.done < n)
    ensures forall i :: n <= i < |es| ==> p.entities[i] == es[i]
  {
    if n == 0 then PassState(es, materials, processed, 0, false)
    else
      var s := LoadPrefix(es, n - 1, materials, processed, step);
      if s.failed then s
      else
        var r := step(s.entities[n - 1], s.materials, s.processed);
        PassState(s.entities[n - 1 := r.entity], r.materials, r.processed, if r.ok then n else n - 1, !r.ok)
  }

  /** Unfolding LoadPrefix one entity further. */
  lemma LoadPrefixStep(es: seq<Entity>, n: nat, materials: Materials, processed: Processed, step: EntityStep, r: EntityOutcome)
    requires n < |es|
    requires !LoadPrefix(es, n, materials, processed, step).failed
    requires var p := LoadPrefix(es, n, materials, processed, step);
             r == step(p.entities[n], p.materials, p.processed)
    ensures var p := LoadPrefix(es, n, materials, processed, step);
            LoadPrefix(es, n + 1, materials, processed, step) ==
              PassState(p.entities[n := r.entity], r.materials, r.processed, if r.ok then n + 1 else n, !r.ok)
  {
  }

  /** Once a step has failed, later entities are not visited. */
  lemma {:induction false} FailedPrefixStable(es: seq<Entity>, n: nat, m: nat, materials: Materials, processed: Processed, step: EntityStep)
    requires n <= m <= |es|
    requires LoadPrefix(es, n, materials, processed, step).failed
    ensures LoadPrefix(es, m, materials, processed, step) == LoadPrefix(es, n, materials, processed, step)
    decreases m - n
  {
    if n < m {
      FailedPrefixStable(es, n, m - 1, materials, processed, step);
    }
  }

  /** After a failure, the entities past the failing one are not visited. */
  lemma {:induction false} LoadPrefixStopsAtFailure(es: seq<Entity>, n: nat, materials: Materials, processed: Processed, step: EntityStep)
    requires n <= |es|
    decreases n
    ensures var p := LoadPrefix(es, n, materials, processed, step);
            p.failed ==> forall i :: p.done < i < |es| ==> p.entities[i] == es[i]
  {
    if n > 0 {
      LoadPrefixStopsAtFailure(es, n - 1, materials, processed, step);
    }
  }

  /** A pass over the first `n` entities changes nothing in the entity list
      but the sources' flags. */
  lemma {:induction false} LoadPrefixKeepsEntities(es: seq<Entity>, n: nat, materials: Materials, processed: Processed, step: EntityStep)
    requires n <= |es|
    requires WellBehaved(step)
    decreases n
    ensures var p := LoadPrefix(es, n, materials, processed, step);
            forall i :: 0 <= i < |es| ==> Reflagged(p.entities[i], es[i])
  {
    if n > 0 {
      LoadPrefixKeepsEntities(es, n - 1, materials, processed, step);
      var s := LoadPrefix(es, n - 1, materials, processed, step);
      if !s.failed {
        assert StepFacts(s.entities[n - 1], s.materials, step(s.entities[n - 1], s.materials, s.processed));
      }
    }
  }

  /** A pass over the first `n` entities keeps every key of
      `entity_materials`; without a failure every visited entity has one. */
  lemma {:induction false} LoadPrefixKeepsKeys(es: seq<Entity>, n: nat, materials: Materials, processed: Processed, step: EntityStep)
    requires n <= |es|
    requires WellBehaved(step)
    decreases n
    ensures var p := LoadPrefix(es, n, materials, processed, step);
            && materials.Keys <= p.materials.Keys
            && (!p.failed ==> forall i :: 0 <= i < n ==> es[i].uuid in p.materials)
  {
    if n > 0 {
      LoadPrefixKeepsKeys(es, n - 1, materials, processed, step);
      var s := LoadPrefix(es, n - 1, materials, processed, step);
      if !s.failed {
        var r := step(s.entities[n - 1], s.materials, s.processed);
        assert StepFacts(s.entities[n - 1], s.materials, r);
        if r.ok {
          forall i | 0 <= i < n
            ensures es[i].uuid in r.materials
          {
            if i < n - 1 {
              assert es[i].uuid in s.materials;
            }
          }
        }
      }
    }
  }

  /** `(idx + 1) / total_entities`, computed exactly (floating-point rounding is not modelled). */
  function Fraction(n: nat, d: nat): real
    requires d > 0
  {
    n as real / d as real
  }

  /** All of the entities done is the whole bar. */
  lemma FractionWhole(d: nat)
    requires d > 0
    ensures Fraction(d, d) == 1.0
  {
  }

  /** `loading_progress` after `done` of `total` entities completed: unchanged if none did. */
  function LoadingProgress(done: nat, total: nat, prior: Option<real>): (r: Option<real>)
    requires done <= total
    ensures done == 0 ==> r == prior
    ensures done > 0 ==> r.Some? && 0.0 < r.value <= 1.0 && (r.value == 1.0 <==> done == total)
  {
    if done == 0 then prior else Some(Fraction(done, total))
  }

  /** The whole effect of `load_all_entity_materials` on the session. */
  function LoadAllEffect(v: SessionView, env: Env): (v': SessionView)
    requires v.entities.Some?
    ensures v'.entities.Some? && |v'.entities.value| == |v.entities.value|
    ensures v'.entityMaterials.Some? && v'.processedFiles.Some?
    ensures v'.query == v.query && v'.context == v.context && v'.answer == v.answer && v'.messages == v.messages
    ensures v'.discussionActive == v.discussionActive && v'.currentTopic == v.currentTopic
    ensures v'.discussionCycle == v.discussionCycle
  {
    var es := v.entities.value;
    ApplyPass(v, LoadPrefix(es, |es|, v.entityMaterials.GetOr(map[]), v.processedFiles.GetOr(map[]), StepOf(env)))
  }

  /** The session after a pass that ended in state `p`. */
  function ApplyPass(v: SessionView, p: PassState): SessionView
    requires v.entities.Some? && p.done <= |v.entities.value|
  {
    v.(entities := Some(p.entities),
       entityMaterials := Some(p.materials),
       processedFiles := Some(p.processed),
       loadingProgress := LoadingProgress(p.done, |v.entities.value|, v.loadingProgress),
       materialsLoaded := Some(!p.failed),
       entitiesChanged := if p.failed then v.entitiesChanged else Some(false))
  }

  /** After a pass without exception the materials are loaded, the changed
      flag is cleared, the progress is complete and every entity has an index
      entry; after an exception the materials are not loaded. */
  lemma LoadAllFlags(v: SessionView, env: Env)
    requires v.entities.Some?
    ensures var es := v.entities.value;
            var p := LoadPrefix(es, |es|, v.entityMaterials.GetOr(map[]), v.processedFiles.GetOr(map[]), StepOf(env));
            var v' := LoadAllEffect(v, env);
            && (!p.failed ==> v'.materialsLoaded == Some(true) && v'.entitiesChanged == Some(false)
                              && (es != [] ==> v'.loadingProgress == Some(1.0))
                              && forall i :: 0 <= i < |es| ==> es[i].uuid in v'.entityMaterials.value)
            && (p.failed ==> v'.materialsLoaded == Some(false) && v'.entitiesChanged == v.entitiesChanged)
  {
    var es := v.entities.value;
    StepOfWellBehaved(env);
    LoadPrefixKeepsKeys(es, |es|, v.entityMaterials.GetOr(map[]), v.processedFiles.GetOr(map[]), StepOf(env));
    if es != [] {
      FractionWhole(|es|);
    }
  }

  /** A pass only rewrites the `was_loaded` flags of the sources: titles,
      ids, documents, links, models and persona modes are as before, and no
      key of `entity_materials` is dropped. */
  lemma LoadAllKeepsEntities(v: SessionView, env: Env)
    requires v.entities.Some?
    ensures var es := v.entities.value;
            var v' := LoadAllEffect(v, env);
            && (forall i :: 0 <= i < |es| ==> Reflagged(v'.entities.value[i], es[i]))
            && (forall u :: u in v.entityMaterials.GetOr(map[]) ==> u in v'.entityMaterials.value)
  {
    var es := v.entities.value;
    StepOfWellBehaved(env);
    LoadPrefixKeepsEntities(es, |es|, v.entityMaterials.GetOr(map[]), v.processedFiles.GetOr(map[]), StepOf(env));
    LoadPrefixKeepsKeys(es, |es|, v.entityMaterials.GetOr(map[]), v.processedFiles.GetOr(map[]), StepOf(env));
  }

  /** The loop of `load_all_entity_materials` over the entity list: each
      entity in order through `load_entity_materials`, stopping at the first
      exception from `create_index`; `done` counts the entities completed. */
  method LoadEntitiesInOrder(es: seq<Entity>, materials: Materials, processed: Processed, env: Env)
    returns (entities: seq<Entity>, entityMaterials: Materials, processedFiles: Processed, done: nat, failed: bool)
    ensures PassState(entities, entityMaterials, processedFiles, done, failed) == LoadPrefix(es, |es|, materials, processed, StepOf(env))
  {
    entities, entityMaterials, processedFiles := es, materials, processed;
    done, failed := 0, false;
    var idx: nat := 0;
    while idx < |es| && !failed
      invariant idx <= |es|
      invariant LoadPrefix(es, idx, materials, processed, StepOf(env)) == PassState(entities, entityMaterials, processedFiles, done, failed)
    {
      var entity', materials', processed', ok := LoadEntityMaterials(entities[idx], entityMaterials, processedFiles, env);
      LoadPrefixStep(es, idx, materials, processed, StepOf(env), EntityOutcome(entity', materials', processed', ok));
      entities := entities[idx := entity'];
      entityMaterials, processedFiles := materials', processed';
      if ok {
        done := idx + 1;
      } else {
        failed := true;
      }
      idx := idx + 1;
    }
    if failed {
      FailedPrefixStable(es, idx, |es|, materials, processed, StepOf(env));
    } else {
      assert idx == |es|;
    }
  }

  /** The final writes of `load_all_entity_materials` after its loop. */
  method StorePass(s: Session, entities: seq<Entity>, entityMaterials: Materials, processedFiles: Processed, done: nat, failed: bool)
    requires s.entities.Some? && done <= |s.entities.value|
    modifies s
    ensures s.View() == ApplyPass(old(s.View()), PassState(entities, entityMaterials, processedFiles, done, failed))
  {
    var total := |s.entities.value|;
    s.entities := Some(entities);
    s.entityMaterials := Some(entityMaterials);
    s.processedFiles := Some(processedFiles);
    s.loadingProgress := LoadingProgress(done, total, s.loadingProgress);
    s.materialsLoaded := Some(!failed);
    if !failed {
      s.entitiesChanged := Some(false);
    }
  }

  /** `load_all_entity_materials`: creates the two dictionaries if absent,
      runs `load_entity_materials` over every entity in order, updating the
      progress after each, and finally sets `materials_loaded` and clears
      `_entities_changed`; an exception from `create_index` ends the loop with
      `materials_loaded` False. */
  method LoadAllEntityMaterials(s: Session, env: Env)
    requires s.entities.Some?
    modifies s
    ensures s.View() == LoadAllEffect(old(s.View()), env)
  {
    var entities, entityMaterials, processedFiles, done, failed :=
      LoadEntitiesInOrder(s.entities.value, s.entityMaterials.GetOr(map[]), s.processedFiles.GetOr(map[]), env);
    StorePass(s, entities, entityMaterials, processedFiles, done, failed);
  }
}
