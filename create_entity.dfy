/** The "Create New Entity" dialog: Submit appends a fresh entity record with
    the entered title. The files and link the dialog asks for are never
    stored. */
module CreateEntity {
  import opened Wrappers
  import opened Records
  import opened SessionState
  import RemoveEntity
  import EditEntity

  /** Lines 21-26: the appended record. `"sources"` and `"model"` are
      absent, and `"persona_mode"` reads as False. */
  function NewEntityRecord(id: Uuid, title: string): Entity {
    Entity(id, title, [], Some([]), Some([]), None, false)
  }

  /** The entity list after Submit. */
  function Created(es: seq<Entity>, title: string, id: Uuid): (r: seq<Entity>)
    ensures |r| == |es| + 1 && r[..|es|] == es && r[|es|].uuid == id
  {
    es + [NewEntityRecord(id, title)]
  }

  /** Submit adds exactly one entity, at the end, with the entered title,
      the generated uuid, empty "documents" and "wiki_links", and neither a
      "model" key nor persona mode; every existing entity stays where it was. */
  lemma CreatedShape(es: seq<Entity>, title: string, id: Uuid)
    ensures var r := Created(es, title, id);
            && |r| == |es| + 1
            && r[..|es|] == es
            && r[|es|].uuid == id && r[|es|].title == title
            && r[|es|].documents == Some([]) && r[|es|].wikiLinks == Some([])
            && r[|es|].sources == []
            && r[|es|].model.None? && !r[|es|].personaMode
  {
  }

  /** A fresh uuid keeps uuids unique, and the new entity is the one the
      edit dialog finds for that uuid. */
  lemma CreatedFresh(es: seq<Entity>, title: string, id: Uuid)
    requires UniqueUuids(es) && FreshUuid(es, id)
    ensures UniqueUuids(Created(es, title, id))
    ensures EditEntity.FirstIndex(Created(es, title, id), id) == Some(|es|)
  {
    var r := Created(es, title, id);
    forall i, j | 0 <= i < j < |r|
      ensures r[i].uuid != r[j].uuid
    {
      assert r[i] == es[i];
      if j < |es| {
        assert r[j] == es[j];
      }
    }
    assert r[|es|].uuid == id;
    var k := EditEntity.FirstIndex(r, id);
    assert k.Some?;
  }

  /** Removing the entity just created restores the previous list. */
  lemma RemoveUndoesCreate(es: seq<Entity>, title: string, id: Uuid)
    requires FreshUuid(es, id)
    ensures RemoveEntity.Without(Created(es, title, id), id) == es
  {
    WithoutAppend(es, NewEntityRecord(id, title), id);
    RemoveEntity.WithoutAbsent(es, id);
  }

  /** The filter distributes over an append of one entity. */
  lemma {:induction false} WithoutAppend(es: seq<Entity>, x: Entity, id: Uuid)
    ensures RemoveEntity.Without(es + [x], id) == RemoveEntity.Without(es, id) + RemoveEntity.Without([x], id)
  {
    if es != [] {
      var rest := es[1..];
      WithoutAppend(rest, x, id);
      var h := if es[0].uuid == id then [] else [es[0]];
      assert (es + [x])[0] == es[0] && (es + [x])[1..] == rest + [x];
      assert RemoveEntity.Without(es + [x], id) == h + RemoveEntity.Without(rest + [x], id);
      assert RemoveEntity.Without(es, id) == h + RemoveEntity.Without(rest, id);
    }
  }

  /** Lines 20-27: Submit. `uuid.uuid1()` is the parameter `newId`. */
  method Submit(s: Session, title: string, newId: Uuid)
    requires s.entities.Some?
    modifies s
    ensures s.View() == old(s.View()).(entities := Some(Created(old(s.entities.value), title, newId)))
  {
    s.entities := Some(s.entities.value + [NewEntityRecord(newId, title)]);
  }
}
