# discuss — per-entity state of the LLM discussion app, in Dafny

The application lets a user configure several *entities* (LLM personas).
Each entity has a title, an optional model, a persona flag and attached
material (PDF sources, wiki links, uploaded documents). Before a discussion
starts, a loading pass builds a search index for every entity. The app keeps
all of this in the Streamlit session store.

This project models the logic that keeps that state:

- **The incremental material loader.** It walks each entity's sources in
  order and records the `was_loaded` flag of each source. It uses a
  per-entity cache of file modification times, so an unchanged PDF is not
  extracted again. It replaces or initialises the entity's index entry, and
  at the end of a pass over all entities it sets the session flags.
- **The entity dialogs.** Create appends a record. Remove filters the list
  by uuid. Edit renames the entity, drops the unticked documents, appends
  uploads whose filename is new, and appends a wiki link.
- **The model catalogue**, a fixed name-to-id table with a default and a
  prefix-based family name.
- **The sidebar's decisions**: badges and counts, loading statistics, the
  Wikipedia URL used in persona mode, the default title of a new entity,
  and the changed-list reset.
- **The session initialisation**, which sets each key only if it is absent.

How the model is built:

- The session store is a class, `SessionState.Session`. It has one field
  per key, and `None` stands for an absent key. The methods that change the
  store state their whole effect as a function of the old store (its
  `View()`), and the lemmas are proved about those functions.
- Loops in the source are methods with loops, each proved equal to a
  specification function.
- The loader's collaborators are one value, `MaterialLoader.Env`:
  - `os.path.getmtime`: a map from path to time, where a missing path means
    the file does not exist;
  - PDF extraction: a map from path to text, where a missing path means
    extraction raises;
  - `embedder.create_index`: the set of document lists on which it raises.

  `uuid.uuid1()` is a parameter of the operations that call it.

The source files do not agree on data shapes, and each module keeps its
own file's shape:

- The loader reads sources of type `"pdf"` and `"wiki_link"`.
- The sidebar counts types `"pdf"` and `"wiki"`.
- The dialogs maintain `"documents"` and `"wiki_links"`.

## Behaviour of note

- The loader treats `"wiki"` as an unknown type, so every entity pass
  leaves each `"wiki"` source not loaded (`Sidebar.PassLeavesWikiUnloaded`).
  After a pass over all entities that completes, the sidebar's loaded-link
  count is therefore zero (`Sidebar.CompletedPassShowsNoLoadedLinks`). After
  a pass that fails, the entities past the failing one keep their earlier
  flags.
- The fingerprint cache is keyed by filename. When no two PDF sources of an
  entity share a filename, a second pass over unchanged files queues
  nothing and rebuilds no index (`MaterialLoader.RewalkIsFixpoint`,
  `MaterialLoader.EntityPassIdempotent`). Nothing in the modelled code keeps
  filenames distinct. Two PDFs with one filename and different modification
  times overwrite each other's entry, so the next pass extracts both again
  and rebuilds the index (`MaterialLoader.SharedFilenameReextracts`). With
  three such PDFs whose times are 1.0, 2.0 and 1.0, the next pass hits the
  cache for the first file, and the rebuilt index loses that file's
  document: the pass is not idempotent
  (`MaterialLoader.ThreeSharedNotIdempotent`).
- The cache entries are stored before `create_index` runs, so they survive
  an exception from it. The next pass over unchanged files hits the cache
  for the PDFs it failed to index and does not try the build again. The
  entity keeps its earlier index entry, or gets None, until a file changes
  (`MaterialLoader.FailedIndexNotRetried`).
- A PDF is cached only under a truthy modification time. A PDF whose time
  is 0.0 is extracted and reported loaded, but never queued and never
  cached, so every pass extracts it again and no index holds it. A PDF whose
  extraction fails is retried on every pass
  (`MaterialLoader.UncachedPdfRetried`).
- Removing or editing an entity neither clears `materials_loaded` nor drops
  the entity's index and cache entries. Only "Add new entity" sets
  `_entities_changed`.
- An exception from `create_index` ends the whole pass. It does not just
  skip that entity.
- A rebuilt index holds only the documents extracted in that pass. The
  documents of PDFs skipped as unchanged are not carried over.

## Model

| member | source | states |
|---|---|---|
| Models.Lookup | utils/models.py:14-15 | the dictionary lookup finds nothing exactly when no entry has the name, and otherwise returns an id stored under that name |
| Models.GetModelId | utils/models.py:12-15 | a catalogued name maps to its own id, any other name to `DEFAULT_MODEL_ID`, and the result is always an id of the catalogue |
| Models.CatalogueNamesDistinct | utils/models.py:1-10 | no model name is catalogued twice |
| Models.DefaultIsMistral7b | utils/models.py:12 | the default id is the id stored under "mistral-7b" |
| Models.ListAvailableModels | utils/models.py:17-18 | exactly the six catalogue names, in declaration order |
| Models.GetModelFamily | utils/models.py:20-28 | one of the four family strings; "LLaMa", "Mistral" or "Gemma" exactly when the name starts with the family's prefix |
| Models.PrefixesExclusive | utils/models.py:20-28 | no name starts with two family prefixes, so the order of the tests does not matter |
| Models.CatalogueFamiliesKnown | utils/models.py:1-10 | every catalogued model belongs to a known family |
| MaterialLoader.LoadPdfSource | utils/material_loader.py:70-89 | a cache hit returns the cached entry with no document; otherwise a document exists exactly when extraction succeeds, with the current mtime as entry; a failure returns nothing and not loaded |
| MaterialLoader.LoadWikiSource | utils/material_loader.py:91-92 | a wiki link is reported loaded, with no document and no cache entry, so it is never queued |
| MaterialLoader.LoadFlag | utils/material_loader.py:15-27 | the flag a source ends with: wiki links loaded, unknown types not loaded (the reset to False stays), a PDF loaded exactly when it hits the cache or extracts |
| MaterialLoader.CacheOf | utils/material_loader.py:12 | `processed_files.get(uuid, {})`; the lemmas that use it are IndexUpdateRule (the entry stored back) and EntityPassIdempotent (a second pass reads the first pass's cache) |
| MaterialLoader.StepSource | utils/material_loader.py:14-27 | one source is appended with its new flag; a document is queued and the cache entry set to the current mtime exactly when the source is a PDF that misses the cache, extracts, and has a truthy mtime; otherwise the queue and the cache are unchanged |
| MaterialLoader.WalkSources | utils/material_loader.py:14-27 | the source loop as a fold of StepSource keeps one source per input; its flags are stated by WalkSourcesFlags, its queue by WalkDocsInSourceOrder and WalkDocsBounded, its cache by WalkWritesTruthyEntries |
| MaterialLoader.WalkSourcesFlags | utils/material_loader.py:14-27 | after the source loop every source keeps its other keys and has a flag: wiki links loaded, unknown types not loaded, extractable PDFs loaded |
| MaterialLoader.WalkDocsInSourceOrder | utils/material_loader.py:14-23 | the queued documents are extracted documents of PDF sources, in source order |
| MaterialLoader.WalkWritesTruthyEntries | utils/material_loader.py:21-23 | the cache only gains or changes entries for PDF filenames, and never writes a falsy entry |
| MaterialLoader.WalkDocsBounded | utils/material_loader.py:14-22 | at most one document is queued per source |
| MaterialLoader.EntityPass | utils/material_loader.py:9-37 | a failed index build leaves the index entries unchanged, a success leaves the entity with an entry, and only the source flags of the entity change: the other fields, the number of sources and every source's type, filename and path are kept |
| MaterialLoader.EntityPassFrame | utils/material_loader.py:30-35 | the index and cache entries of other entities are untouched and no key is dropped |
| MaterialLoader.IndexUpdateRule | utils/material_loader.py:30-35 | queued documents replace the entry by an index of exactly those documents (or raise); no documents initialise a missing entry to None and keep an existing one; the cache entry is stored either way |
| MaterialLoader.VisitSource | utils/material_loader.py:15-27 | one iteration of the source loop is one step of the walk |
| MaterialLoader.WalkEntitySources | utils/material_loader.py:14-27 | the source loop computes the walk over all sources |
| MaterialLoader.LoadEntityMaterials | utils/material_loader.py:9-37 | `load_entity_materials` computes the entity pass |
| MaterialLoader.RestepIsFixpoint | utils/material_loader.py:77-78 | repeating one source step with an agreeing cache is a cache hit or the same outcome, and queues nothing |
| MaterialLoader.RewalkIsFixpoint | utils/material_loader.py:70-89 | when no two PDF sources share a filename, a second walk over unchanged files, with a cache agreeing with the first walk's, queues nothing, keeps the cache and reproduces every flag |
| MaterialLoader.RepassQueuesNothing | utils/material_loader.py:9-37 | when no two PDF sources share a filename, a second pass over unchanged files, whether or not the first index build raised, queues nothing, reproduces every flag and stores the same cache again |
| MaterialLoader.EntityPassIdempotent | utils/material_loader.py:9-37 | when no two PDF sources of the entity share a filename, a second pass over unchanged files after a successful one changes nothing |
| MaterialLoader.FailedIndexNotRetried | utils/material_loader.py:30-35 | the cache is stored before the index build, so after a build that raised (distinct PDF filenames, unchanged files) the next pass queues nothing and never retries the build: the entity keeps its old entry, or gets None |
| MaterialLoader.SharedFilenameReextracts | utils/material_loader.py:14-27 | two PDF sources with one filename and different mtimes share one cache entry, so a second walk over the unchanged files extracts both again |
| MaterialLoader.SharedFirstWalk | utils/material_loader.py:14-27 | the first walk of that case extracts both files, flags both loaded, and leaves the second file's mtime in the shared entry |
| MaterialLoader.SharedSecondWalk | utils/material_loader.py:14-27 | the second walk of that case misses the cache for both files and queues both documents again |
| MaterialLoader.ThreeSharedNotIdempotent | utils/material_loader.py:9-37 | three PDF sources with one filename and mtimes 1.0, 2.0 and 1.0: the first pass indexes all three documents, the second hits the cache for the first file and replaces the index by one with only the other two |
| MaterialLoader.ThreeSharedFirstWalk | utils/material_loader.py:14-27 | the first walk over those sources queues all three documents, flags all three loaded and leaves the entry at 1.0 |
| MaterialLoader.ThreeSharedSecondWalk | utils/material_loader.py:14-27 | the second walk, from that entry and whatever the flags, queues only the second and third documents |
| MaterialLoader.UncachedPdfRetried | utils/material_loader.py:21-23 | a PDF without an entry whose extraction fails or whose mtime is falsy queues nothing and gets no entry, so the next pass misses the cache for it and extracts it again when it extracts |
| MaterialLoader.StepOfWellBehaved | utils/material_loader.py:9-37 | every entity pass only reflags (every other entity field, and every source key but `was_loaded`, is kept), keeps entries on failure, creates the entity's entry on success and drops no key |
| MaterialLoader.LoadPrefix | utils/material_loader.py:47-57 | passing the first n entities keeps the list length, completes at most n of them (all n unless it failed), and leaves the later entities untouched |
| MaterialLoader.FailedPrefixStable | utils/material_loader.py:47-65 | after an exception, later iterations change nothing |
| MaterialLoader.LoadPrefixStopsAtFailure | utils/material_loader.py:47-65 | when the pass fails, the entities after the failing one are not touched |
| MaterialLoader.LoadPrefixKeepsEntities | utils/material_loader.py:48-53 | every entity only gets new source flags: each source keeps every key but `was_loaded`, and each entity every field but its sources |
| MaterialLoader.LoadPrefixKeepsKeys | utils/material_loader.py:48-53 | no index key is dropped, and a completed pass leaves every entity with an entry |
| MaterialLoader.LoadAllEffect | utils/material_loader.py:39-67 | the pass keeps the number of entities, creates both dictionaries and leaves the chat keys alone |
| MaterialLoader.ApplyPass | utils/material_loader.py:57-67 | the session after a pass; what it sets is stated by LoadAllEffect, LoadAllFlags and StorePass |
| MaterialLoader.LoadingProgress | utils/material_loader.py:55-57 | `loading_progress` is left alone when no entity completed, and is otherwise a fraction in (0, 1] that is 1 exactly when every entity completed |
| MaterialLoader.LoadAllFlags | utils/material_loader.py:55-67 | a completed pass sets `materials_loaded` true, clears `_entities_changed`, reaches progress 1 and indexes every entity; after an exception `materials_loaded` is false and the change flag is kept |
| MaterialLoader.LoadAllKeepsEntities | utils/material_loader.py:48-53 | the pass changes only source flags, keeping every other key of each source and each entity, and drops no index key |
| MaterialLoader.LoadEntitiesInOrder | utils/material_loader.py:47-58 | the entity loop computes the pass over all entities, stopping at the first exception |
| MaterialLoader.StorePass | utils/material_loader.py:57-67 | the session receives the entities, dictionaries, progress and flags of the pass |
| MaterialLoader.LoadAllEntityMaterials | utils/material_loader.py:39-67 | `load_all_entity_materials` changes the session exactly as the pass function says |
| EditEntity.Unticked | entities/edit_entity.py:25-35 | the documents whose box is cleared, in list order; stated by UntickedMembers, UntickedPartition and UntickedInOrder |
| EditEntity.Kept | entities/edit_entity.py:25-35 | the documents whose box stays ticked, in list order; stated by UntickedMembers, UntickedPartition and RemoveUntickedLeavesKept |
| EditEntity.FilesToRemove | entities/edit_entity.py:25-35 | the selection for an optional entity, empty without an entity or documents; stated by SelectFilesToRemove |
| EditEntity.UntickedMembers | entities/edit_entity.py:25-35 | a document is selected exactly when it is stored and its checkbox is cleared, and kept exactly when stored with its checkbox ticked |
| EditEntity.UntickedPartition | entities/edit_entity.py:25-35 | selected and kept documents together are the stored ones, with multiplicity |
| EditEntity.UntickedInOrder | entities/edit_entity.py:25-35 | the selection keeps the documents' order |
| EditEntity.SelectFilesToRemove | entities/edit_entity.py:25-35 | the checkbox loop computes the selection, and the selection is empty when there is no entity or it has no documents |
| EditEntity.FirstPosition | entities/edit_entity.py:55 | the position `list.remove` deletes: it holds the document, and no earlier element is equal to it |
| EditEntity.RemoveFirst | entities/edit_entity.py:55 | `list.remove` deletes the element at the first position holding the document and keeps the others in place, so the list is one shorter |
| EditEntity.RemoveFirstMultiset | entities/edit_entity.py:55 | `list.remove` takes away exactly one occurrence |
| EditEntity.RemoveFirstSubsequence | entities/edit_entity.py:55 | `list.remove` keeps the order of the rest |
| EditEntity.RemoveAll | entities/edit_entity.py:52-55 | the removal loop as a fold of RemoveFirst; stated by RemoveAllMultiset, RemoveAllSubsequence and RemoveUntickedLeavesKept |
| EditEntity.RemoveAllMultiset | entities/edit_entity.py:52-55 | the removal loop takes away exactly the selected documents, counted with multiplicity |
| EditEntity.RemoveAllSubsequence | entities/edit_entity.py:52-55 | the removal loop keeps the order of the remaining documents |
| EditEntity.RemoveUntickedLeavesKept | entities/edit_entity.py:25-55 | removing the selection leaves exactly the ticked documents, in order |
| EditEntity.RemoveSelected | entities/edit_entity.py:52-59 | the removal loop computes the removal function |
| EditEntity.AddIfNew | entities/edit_entity.py:66-67 | an upload whose filename is present leaves the list unchanged, otherwise it is appended at the end; afterwards the filename is present, and unique filenames stay unique |
| EditEntity.AppendNew | entities/edit_entity.py:61-67 | the upload loop as a fold of AddIfNew; stated by AppendNewExtends, AppendNewContents and AppendNewUnique |
| EditEntity.AppendNewExtends | entities/edit_entity.py:61-67 | uploads only extend the list at its end |
| EditEntity.AppendNewContents | entities/edit_entity.py:61-67 | the list after the upload loop is the stored documents followed by exactly the uploads whose filename is neither stored nor taken by an earlier upload, in upload order, so of one batch's uploads with one filename the first is kept; every uploaded filename is present |
| EditEntity.AppendNewUnique | entities/edit_entity.py:61-67 | unique filenames stay unique, also when one batch repeats a filename |
| EditEntity.AnyWithFilename | entities/edit_entity.py:66 | the scan answers whether some stored document has the filename |
| EditEntity.AddUploads | entities/edit_entity.py:61-67 | the upload loop computes the upload function |
| EditEntity.AddWikiLink | entities/edit_entity.py:69-73 | an empty link changes nothing; otherwise the link ends up in the list, which is created if absent, and is appended only if new |
| EditEntity.AddWikiLinkNoDuplicates | entities/edit_entity.py:69-73 | the link list never gains a duplicate |
| EditEntity.EditedEntity | entities/edit_entity.py:50-73 | only the title, documents and links of the entity change, the title to the submitted one; with nothing removed or uploaded the documents are as before; an empty link leaves the links as they were, any other is appended unless already present, the list being created if absent |
| EditEntity.EditedEntityFacts | entities/edit_entity.py:50-73 | the entity takes the new title, keeps its uuid, sources, model and persona flag, keeps its documents when nothing is removed or uploaded, keeps unique filenames and holds every upload's filename; an empty link leaves the links alone, any other ends up in them after the old ones, and they never gain a duplicate |
| EditEntity.EditedDocuments | entities/edit_entity.py:52-67 | an edited entity's documents start with those left after the removal, hold every uploaded filename, and keep unique filenames unique |
| EditEntity.FirstIndex | entities/edit_entity.py:41 | the first position whose uuid matches, or none exactly when no entity has that uuid |
| EditEntity.CurrentEntity | entities/edit_entity.py:41 | `next(...)` finds nothing exactly when no entity has the uuid, and otherwise an entity of the list with that uuid |
| EditEntity.EditEffect | entities/edit_entity.py:47-74 | the edit keeps the number of entities and every entity's uuid |
| EditEntity.EditEffectOnlyFirstMatch | entities/edit_entity.py:48-74 | only the first matching entity changes, it gets the title and holds a non-empty submitted link (an empty one leaves its links alone), no entity changes uuid, sources, model or persona flag, and without a match the list is unchanged |
| EditEntity.EditEffectDocuments | entities/edit_entity.py:52-67 | the edited documents start with exactly the ticked ones, then hold every uploaded filename; unique filenames stay unique |
| EditEntity.EditEffectLinks | entities/edit_entity.py:69-73 | the links of the edited entity: unchanged for an empty link, unchanged for one already present, otherwise the old ones followed by the link; they never gain a duplicate |
| EditEntity.Submit | entities/edit_entity.py:47-74 | the Submit block changes only the entity list, as the edit function says |
| RemoveEntity.Without | entities/remove_entity.py:13 | an entity stays exactly when it was there and its uuid differs |
| RemoveEntity.RemovedIsGone | entities/remove_entity.py:13 | no entity with the removed uuid remains |
| RemoveEntity.WithoutInOrder | entities/remove_entity.py:13 | the remaining entities keep their order |
| RemoveEntity.WithoutLength | entities/remove_entity.py:13 | the length drops by the number of entities with that uuid |
| RemoveEntity.WithoutAbsent | entities/remove_entity.py:13 | removing an absent uuid leaves the list unchanged |
| RemoveEntity.WithoutIdempotent | entities/remove_entity.py:13 | removing twice is removing once |
| RemoveEntity.WithoutKeepsUnique | entities/remove_entity.py:13 | removal never creates a uuid clash |
| RemoveEntity.Submit | entities/remove_entity.py:12-13 | Submit changes only the entity list, to the filtered one |
| CreateEntity.NewEntityRecord | entities/create_entity.py:21-26 | the record the dialog appends; CreatedShape states its title, uuid, empty documents and links, no sources, no model and persona mode off |
| CreateEntity.CreatedShape | entities/create_entity.py:20-26 | one entity is appended with the title, the new uuid, empty documents and links, no sources, no model and persona mode off; the existing ones are unchanged |
| CreateEntity.Created | entities/create_entity.py:20-26 | the list grows by one entity with the new uuid, after the unchanged old list |
| CreateEntity.CreatedFresh | entities/create_entity.py:22 | a fresh uuid keeps uuids unique, and the edit dialog then finds the new entity |
| CreateEntity.RemoveUndoesCreate | entities/create_entity.py:21-26 | removing the created entity restores the list |
| CreateEntity.Submit | entities/create_entity.py:20-27 | Submit changes only the entity list, by the append |
| Sidebar.OfKind | sidebar.py:77-78 | a source is counted exactly when its type matches |
| Sidebar.LoadedOfKind | sidebar.py:127 | a source is counted as loaded exactly when its type matches and `was_loaded` is truthy |
| Sidebar.OfKindCounts | sidebar.py:77-78 | each comprehension keeps every qualifying source as often as it occurs and nothing else, so `len(...)` is the number of sources of the type, and of loaded ones |
| Sidebar.LoadedWithinKind | sidebar.py:125-128 | one entity's loaded count is at most its count of that type |
| Sidebar.SourceBadges | sidebar.py:75-89 | the PDF badge comes before the Wiki badge, and the warning is only ever shown alone |
| Sidebar.BadgeWarningRule | sidebar.py:80-89 | the warning appears exactly for an empty source list; no badge at all means there are sources but none of type pdf or wiki |
| Sidebar.BadgeCountRule | sidebar.py:77-84 | a count badge shows the number of its type, exactly when that number is positive |
| Sidebar.TotalOfKind | sidebar.py:125-126 | the summed count of sources of a type; stated by LoadedWithinTotal, CreateKeepsStats and CompletedPassShowsNoLoadedLinks |
| Sidebar.TotalLoaded | sidebar.py:127-128 | the summed count of loaded sources of a type; stated by LoadedWithinTotal, CreateKeepsStats and CompletedPassShowsNoLoadedLinks |
| Sidebar.LoadedWithinTotal | sidebar.py:122-135 | summed over all entities, loaded is at most total for a type |
| Sidebar.SourceLoadingStats | sidebar.py:122-135 | both displayed fractions are at most one |
| Sidebar.CreateKeepsStats | sidebar.py:122-135 | a freshly created entity changes no statistic |
| Sidebar.PassLeavesWikiUnloaded | sidebar.py:131-135 | after one entity's loading pass its "wiki" sources all count in the total but none count as loaded |
| Sidebar.PrefixUnloadsWiki | utils/material_loader.py:47-57 | every entity the pass over all entities has visited, up to and including a failing one, has no loaded "wiki" source |
| Sidebar.CompletedPassShowsNoLoadedLinks | sidebar.py:131-135 | after a pass over all entities that completes, the statistics show no loaded wiki link |
| Sidebar.KindCountReflagged | sidebar.py:125-135 | counting by type ignores flags, and a type unknown to the loader is never counted loaded after a pass |
| Sidebar.FirstWikipedia | sidebar.py:61-64 | the first wiki source whose path holds "wikipedia.org", or none exactly when there is no such source |
| Sidebar.PersonaWikiUrl | sidebar.py:56-64 | the URL `render_persona_info` picks; stated by PersonaWikiUrlRules |
| Sidebar.PersonaWikiUrlRules | sidebar.py:56-64 | a URL is chosen only in persona mode and it contains "wikipedia.org"; in persona mode one is chosen exactly when such a source exists |
| Sidebar.RenderPersonaInfo | sidebar.py:56-73 | the early return, the loop with `break` and the caption choice |
| Sidebar.DisplayedModelName | sidebar.py:48 | `entity.get("model", "mistral-7b")`; stated by DefaultModelCaption |
| Sidebar.DefaultModelCaption | sidebar.py:48-49 | an entity without a model is shown as "mistral-7b", the catalogued default of the Mistral family |
| Sidebar.NatToString | sidebar.py:44 | `str` of a count is non-empty decimal digits without a leading zero |
| Sidebar.NatToStringRoundTrip | sidebar.py:44 | reading the digits back gives the number |
| Sidebar.NatToStringInjective | sidebar.py:44 | different counts have different decimal strings |
| Sidebar.NewEntityTitle | sidebar.py:44 | the default title is "Entity " followed by a number with no leading zero; distinct counts are stated by NewEntityTitleInjective |
| Sidebar.NewEntityTitleInjective | sidebar.py:44 | different counts give different default titles, and an empty list gives "Entity 1" |
| Sidebar.ClearIfChangedRules | sidebar.py:35-41 | a marked non-empty list clears `materials_loaded` and the progress, an unmarked store is left alone, and repeating changes nothing more |
| Sidebar.LoadedSurvivesRedraw | sidebar.py:39-41 | after a completed loading pass the next redraw keeps the materials loaded |
| Sidebar.ClearIfChanged | sidebar.py:35-41 | the entity loop can change only `materials_loaded` and `loading_progress`, and `materials_loaded` only to False |
| Sidebar.RenderEntitiesLoop | sidebar.py:35-41 | the entity loop changes the store as the reset rule says |
| Sidebar.AddNewEntityClicked | sidebar.py:43-45 | the dialog opens with the default title for the current count, and the list is marked changed |
| Sidebar.AddedEntityUnloadsMaterials | sidebar.py:39-45 | after adding an entity the next redraw shows the materials as not loaded |
| Setup.InitFillsGaps | utils/setup.py:9-28 | afterwards all ten keys are present, each of the ten keys that was present keeps its value, and other keys are untouched |
| Setup.InitIdempotent | utils/setup.py:9-28 | a second call changes nothing |
| Setup.InitFresh | utils/setup.py:15-28 | on a fresh store the defaults are: not loaded, no discussion, cycle 0, progress 0, the welcome message and a single "Entity 1" with only a uuid and a title |
| Setup.DefaultEntity | utils/setup.py:16 | the single default entity; InitFresh states its uuid, its title, no sources, documents, links or model, and persona mode off |
| Setup.InitDefaults | utils/setup.py:9-28 | afterwards all ten keys are present, and the keys the function does not set are untouched |
| Setup.InitializeSessionState | utils/setup.py:9-28 | the function changes the store as the defaults function says |

## Left out

- Drawing the UI is not modelled: widgets, dialogs, captions, `st.progress`,
  `st.error` and `st.rerun`. Button presses and checkbox values become
  parameters.
- Filesystem effects are not modelled: the upload writes in
  `handle_file_uploads` (entities/edit_entity.py:12-23), `os.makedirs` and
  `os.remove`. The uploads arrive as a finished list of file records, and a
  failed delete has no effect on the list.
- Aliasing is not modelled. Python updates entity and source dictionaries in
  place; the model computes new values and writes them back.
- MaterialLoader.Fraction: the progress is an exact real number, with no
  floating-point rounding.
- MaterialLoader.LoadAllEntityMaterials: the only exception modelled is one
  from `create_index`. A `KeyError` from a malformed record is not
  modelled, because every record field is always present here.
- An absent `"sources"` key is the empty list. Every reader uses
  `.get("sources", [])`.
- `"persona_mode"` and `"model"` are optional as in the source, and an
  absent `"persona_mode"` is False.
- RemoveEntity.Submit, CreateEntity.Submit, EditEntity.Submit,
  Sidebar.RenderEntitiesLoop, Sidebar.AddNewEntityClicked,
  MaterialLoader.LoadAllEffect and MaterialLoader.LoadAllEntityMaterials
  require the entity list to be present. The source raises when it is
  absent (for the loader, `len(st.session_state.entities)` at
  utils/material_loader.py:42 lies outside the `try`), and the
  initialisation always creates it.
- EditEntity.Unticked: the checkbox key `keep_{id}_{filename}` identifies a
  box by filename, so two stored documents with one filename share one box.
  Streamlit would raise a duplicate-key error for them instead. The dialog's
  own uploads keep filenames unique (EditEntity.AppendNewUnique).
- CreateEntity.Submit does not take the uploaded files or the link, because
  the dialog never stores them.
- Sidebar.RenderPersonaInfo does not extract the persona name from the URL.
  The function is imported from utils/docloader.py, which does not define
  it.
- Sidebar.DefaultModelCaption: `get_model_family` is applied to a model
  name. Entities store the name here, and the model id is not shown.
- The following are not part of this model:
  - the discussion loop, context assembly and prompts;
  - `render_global_settings`;
  - the "Activate & Load All Materials" button;
  - chat_openrouter.py, streamlit_app.py, ui/create_entity.py;
  - both docloader.py files and utils/embedder.py, which are reached only
    through `Env`.
