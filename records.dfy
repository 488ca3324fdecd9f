/** The record shapes the application keeps per entity. The Python code keeps
    each entity as a dictionary; different files read and write different keys
    of it, and this datatype carries all of them side by side:
    the material loader and the sidebar use "sources", the edit and create
    dialogs maintain "documents" and "wiki_links". */
module Records {
  import opened Wrappers

  /** An entity identifier made by `uuid.uuid1()`; only equality is observed. */
  type Uuid = nat

  /** A source dictionary {"type", "filename", "filepath", "was_loaded"}.
      `kind` is the raw "type" string: the loader knows "pdf" and "wiki_link",
      the sidebar counts "pdf" and "wiki". `wasLoaded` is None while the key is absent. */
  datatype Source = Source(kind: string, filename: string, filepath: string, wasLoaded: Option<bool>)

  /** A stored upload as the edit dialog records it: {"filename", "path"}. */
  datatype FileRef = FileRef(filename: string, path: string)

  /** A document handed to the embedder: {"filename", "text"}. */
  datatype Document = Document(filename: string, text: string)

  /** What `embedder.create_index` returns, kept opaque: the index built over exactly `docs`. */
  datatype Index = Index(docs: seq<Document>)

  /** One entity's fingerprint cache (`_processed_files[uuid]`): filename -> stored mtime. */
  type Cache = map<string, Option<real>>

  /** `entity_materials`: uuid -> index, or None for "no retrieval available". */
  type Materials = map<Uuid, Option<Index>>

  /** `_processed_files`: uuid -> that entity's fingerprint cache. */
  type Processed = map<Uuid, Cache>

  datatype Entity = Entity(
    uuid: Uuid,
    title: string,
    sources: seq<Source>,              // "sources"; an absent key reads as []
    documents: Option<seq<FileRef>>,   // "documents"; None while absent
    wikiLinks: Option<seq<string>>,    // "wiki_links"; None while absent
    model: Option<string>,             // "model"; None while absent
    personaMode: bool)                 // "persona_mode"; an absent key reads as False

  /** A chat message {"role", "content"}. */
  datatype Message = Message(role: string, content: string)

  /** Python truthiness of an optional flag such as `src.get("was_loaded")`. */
  predicate Truthy(b: Option<bool>) {
    b == Some(true)
  }

  /** No two entities share a uuid. */
  ghost predicate UniqueUuids(es: seq<Entity>) {
    forall i, j :: 0 <= i < j < |es| ==> es[i].uuid != es[j].uuid
  }

  /** `id` is not the uuid of any entity in `es`. */
  ghost predicate FreshUuid(es: seq<Entity>, id: Uuid) {
    forall i :: 0 <= i < |es| ==> es[i].uuid != id
  }
}
