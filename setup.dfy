/** `initialize_session_state`: every session key the app relies on gets a
    default value, but only when the key is absent. */
module Setup {
  import opened Wrappers
  import opened Records
  import opened SessionState

  /** `WELCOME_MESSAGE` of utils/constants.py. */
  const WelcomeMessage: string :=
    "Welcome to the LLM Discussions Bot! \U{1F44B}\n\n"
    + "Enter a topic below, and the configured entities will discuss it in multiple cycles. \n"
    + "Each entity will see and respond to what others have said, including previous discussion cycles. \n"
    + "Use the 'Discuss circles' slider in the sidebar to control how many rounds of discussion to have. \n"
    + "Entities are encouraged to be controversial and take strong stances on topics, so expect lively debates!"

  /** Line 16: the first entity has only a uuid and the title "Entity 1". */
  function DefaultEntity(id: Uuid): Entity {
    Entity(id, "Entity 1", [], None, None, None, false)
  }

  /** `x if key present else default`. */
  function OrDefault<T>(o: Option<T>, default: T): Option<T> {
    if o.Some? then o else Some(default)
  }

  /** The store after the call; `newId` is the `uuid.uuid1()` used for the
      default entity. The keys the function does not mention are kept. */
  function InitDefaults(v: SessionView, newId: Uuid): (r: SessionView)
    ensures Initialized(r)
    ensures r.entitiesChanged == v.entitiesChanged && r.entityMaterials == v.entityMaterials
            && r.processedFiles == v.processedFiles
  {
    v.(query := OrDefault(v.query, ""),
       context := OrDefault(v.context, ""),
       answer := OrDefault(v.answer, ""),
       entities := OrDefault(v.entities, [DefaultEntity(newId)]),
       materialsLoaded := OrDefault(v.materialsLoaded, false),
       loadingProgress := OrDefault(v.loadingProgress, 0.0),
       discussionActive := OrDefault(v.discussionActive, false),
       currentTopic := OrDefault(v.currentTopic, ""),
       discussionCycle := OrDefault(v.discussionCycle, 0),
       messages := OrDefault(v.messages, [Message("assistant", WelcomeMessage)]))
  }

  /** Every key the app reads is present. */
  predicate Initialized(v: SessionView) {
    && v.query.Some? && v.context.Some? && v.answer.Some? && v.entities.Some?
    && v.materialsLoaded.Some? && v.loadingProgress.Some? && v.discussionActive.Some?
    && v.currentTopic.Some? && v.discussionCycle.Some? && v.messages.Some?
  }

  /** Afterwards all ten keys are present, and every key that was present
      keeps its value: the call only ever fills gaps. */
  lemma InitFillsGaps(v: SessionView, newId: Uuid)
    ensures var r := InitDefaults(v, newId);
            && Initialized(r)
            && (forall w :: Initialized(w) ==> InitDefaults(w, newId) == w)
            && (v.entities.Some? ==> r.entities == v.entities)
            && (v.messages.Some? ==> r.messages == v.messages)
            && (v.materialsLoaded.Some? ==> r.materialsLoaded == v.materialsLoaded)
            && (v.discussionCycle.Some? ==> r.discussionCycle == v.discussionCycle)
            && (v.query.Some? ==> r.query == v.query)
            && (v.context.Some? ==> r.context == v.context)
            && (v.answer.Some? ==> r.answer == v.answer)
            && (v.loadingProgress.Some? ==> r.loadingProgress == v.loadingProgress)
            && (v.discussionActive.Some? ==> r.discussionActive == v.discussionActive)
            && (v.currentTopic.Some? ==> r.currentTopic == v.currentTopic)
            && r.entitiesChanged == v.entitiesChanged && r.entityMaterials == v.entityMaterials
            && r.processedFiles == v.processedFiles
  {
  }

  /** A second call, whatever uuid it would generate, changes nothing. */
  lemma InitIdempotent(v: SessionView, id1: Uuid, id2: Uuid)
    ensures InitDefaults(InitDefaults(v, id1), id2) == InitDefaults(v, id1)
  {
  }

  /** On a fresh store the defaults are the documented ones; the single
      entity has only a uuid and a title, so no sources, documents, links or
      model, and persona mode off. */
  lemma InitFresh(newId: Uuid)
    ensures var r := InitDefaults(EmptyView, newId);
            && r.materialsLoaded == Some(false) && r.discussionActive == Some(false)
            && r.discussionCycle == Some(0) && r.loadingProgress == Some(0.0)
            && r.query == Some("") && r.currentTopic == Some("")
            && r.entities == Some([DefaultEntity(newId)])
            && r.entities.value[0].title == "Entity 1"
            && (var d := r.entities.value[0];
                d.uuid == newId && d.sources == [] && d.documents.None? && d.wikiLinks.None?
                && d.model.None? && !d.personaMode)
            && r.messages == Some([Message("assistant", WelcomeMessage)])
  {
  }

  /** Lines 9-28 (the directory creation of line 30 is not modelled). Each
      `if key not in st.session_state: ... = default` is one `OrDefault`. */
  method InitializeSessionState(s: Session, newId: Uuid)
    modifies s
    ensures s.View() == InitDefaults(old(s.View()), newId)
  {
    s.query := OrDefault(s.query, "");
    s.context := OrDefault(s.context, "");
    s.answer := OrDefault(s.answer, "");
    s.entities := OrDefault(s.entities, [DefaultEntity(newId)]);
    s.materialsLoaded := OrDefault(s.materialsLoaded, false);
    s.loadingProgress := OrDefault(s.loadingProgress, 0.0);
    s.discussionActive := OrDefault(s.discussionActive, false);
    s.currentTopic := OrDefault(s.currentTopic, "");
    s.discussionCycle := OrDefault(s.discussionCycle, 0);
    s.messages := OrDefault(s.messages, [Message("assistant", WelcomeMessage)]);
  }
}
