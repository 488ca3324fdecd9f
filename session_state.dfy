/** The application's session store, `st.session_state`: a dictionary whose
    keys the code tests for presence, reads and assigns in place. Each key the
    core uses is a field holding None while the key is absent. */
module SessionState {
  import opened Wrappers
  import opened Records

  /** The value of every session key at one moment. */
  datatype SessionView = SessionView(
    query: Option<string>,
    context: Option<string>,
    answer: Option<string>,
    entities: Option<seq<Entity>>,
    materialsLoaded: Option<bool>,
    loadingProgress: Option<real>,
    discussionActive: Option<bool>,
    currentTopic: Option<string>,
    discussionCycle: Option<int>,
    messages: Option<seq<Message>>,
    entitiesChanged: Option<bool>,          // "_entities_changed"
    entityMaterials: Option<Materials>,     // "entity_materials"
    processedFiles: Option<Processed>)      // "_processed_files"

  /** The session of a browser tab before anything has been stored. */
  const EmptyView := SessionView(None, None, None, None, None, None, None, None, None, None, None, None, None)

  class Session {
    var query: Option<string>
    var context: Option<string>
    var answer: Option<string>
    var entities: Option<seq<Entity>>
    var materialsLoaded: Option<bool>
    var loadingProgress: Option<real>
    var discussionActive: Option<bool>
    var currentTopic: Option<string>
    var discussionCycle: Option<int>
    var messages: Option<seq<Message>>
    var entitiesChanged: Option<bool>
    var entityMaterials: Option<Materials>
    var processedFiles: Option<Processed>

    constructor ()
      ensures View() == EmptyView
    {
      query, context, answer := None, None, None;
      entities, materialsLoaded, loadingProgress := None, None, None;
      discussionActive, currentTopic, discussionCycle := None, None, None;
      messages, entitiesChanged := None, None;
      entityMaterials, processedFiles := None, None;
    }

    /** The abstract value of the store. */
    function View(): SessionView
      reads this
    {
      SessionView(query, context, answer, entities, materialsLoaded, loadingProgress,
                  discussionActive, currentTopic, discussionCycle, messages,
                  entitiesChanged, entityMaterials, processedFiles)
    }
  }
}
