/** The "Remove Entity" dialog: Submit keeps every entity whose uuid differs
    from the one being removed. */
module RemoveEntity {
  import opened Wrappers
  import opened Seqs
  import opened Records
  import opened SessionState

  /** `[x for x in entities if x["uuid"] != id]`. */
  function Without(es: seq<Entity>, id: Uuid): (r: seq<Entity>)
    ensures forall e :: e in r <==> e in es && e.uuid != id
  {
    if es == [] then []
    else (if es[0].uuid == id then [] else [es[0]]) + Without(es[1..], id)
  }

  /** Number of entities carrying uuid `id`. */
  function CountUuid(es: seq<Entity>, id: Uuid): nat {
    if es == [] then 0
    else (if es[0].uuid == id then 1 else 0) + CountUuid(es[1..], id)
  }

  /** After removal no entity with uuid `id` remains. */
  lemma RemovedIsGone(es: seq<Entity>, id: Uuid)
    ensures FreshUuid(Without(es, id), id)
  {
    var r := Without(es, id);
    forall i | 0 <= i < |r|
      ensures r[i].uuid != id
    {
      assert r[i] in r;
    }
  }

  /** The entities that stay are kept in their original relative order. */
  lemma {:induction false} WithoutInOrder(es: seq<Entity>, id: Uuid)
    ensures Subsequence(Without(es, id), es)
  {
    if es != [] {
      var rest := es[1..];
      WithoutInOrder(rest, id);
      assert es == [es[0]] + rest;
      if es[0].uuid == id {
        assert Without(es, id) == Without(rest, id);
        SubsequenceSkip(es[0], Without(rest, id), rest);
      } else {
        assert Without(es, id) == [es[0]] + Without(rest, id);
        SubsequenceCons(es[0], Without(rest, id), rest);
      }
    }
  }

  /** One entity disappears for each entity that carried the uuid. */
  lemma {:induction false} WithoutLength(es: seq<Entity>, id: Uuid)
    ensures |Without(es, id)| == |es| - CountUuid(es, id)
  {
    if es != [] {
      WithoutLength(es[1..], id);
    }
  }

  /** Removing an id no entity carries leaves the list as it was. */
  lemma {:induction false} WithoutAbsent(es: seq<Entity>, id: Uuid)
    requires FreshUuid(es, id)
    ensures Without(es, id) == es
  {
    if es != [] {
      assert FreshUuid(es[1..], id) by {
        forall i | 0 <= i < |es[1..]|
          ensures es[1..][i].uuid != id
        {
          assert es[1..][i] == es[i + 1];
        }
      }
      WithoutAbsent(es[1..], id);
      assert es[0].uuid != id;
      assert es == [es[0]] + es[1..];
    }
  }

  /** Submitting the dialog twice for the same uuid removes no more than
      submitting it once. */
  lemma WithoutIdempotent(es: seq<Entity>, id: Uuid)
    ensures Without(Without(es, id), id) == Without(es, id)
  {
    RemovedIsGone(es, id);
    WithoutAbsent(Without(es, id), id);
  }

  /** Removal never introduces a uuid clash. */
  lemma {:induction false} WithoutKeepsUnique(es: seq<Entity>, id: Uuid)
    requires UniqueUuids(es)
    ensures UniqueUuids(Without(es, id))
  {
    if es != [] {
      var rest := es[1..];
      UniqueSplit(es);
      WithoutKeepsUnique(rest, id);
      if es[0].uuid != id {
        assert Without(es, id) == [es[0]] + Without(rest, id);
        UniqueCons(es[0], Without(rest, id));
      }
    }
  }

  /** The tail of a list with unique uuids has unique uuids, none of them
      the head's. */
  lemma UniqueSplit(es: seq<Entity>)
    requires es != [] && UniqueUuids(es)
    ensures UniqueUuids(es[1..])
    ensures forall e :: e in es[1..] ==> e.uuid != es[0].uuid
  {
    var rest := es[1..];
    forall i, j | 0 <= i < j < |rest|
      ensures rest[i].uuid != rest[j].uuid
    {
      assert rest[i] == es[i + 1] && rest[j] == es[j + 1];
    }
    forall e | e in rest
      ensures e.uuid != es[0].uuid
    {
      var k :| 0 <= k < |rest| && rest[k] == e;
      assert es[k + 1] == e;
    }
  }

  /** Prepending an entity whose uuid is new keeps uuids unique. */
  lemma UniqueCons(x: Entity, t: seq<Entity>)
    requires UniqueUuids(t)
    requires forall e :: e in t ==> e.uuid != x.uuid
    ensures UniqueUuids([x] + t)
  {
    var r := [x] + t;
    forall i, j | 0 <= i < j < |r|
      ensures r[i].uuid != r[j].uuid
    {
      assert r[j] == t[j - 1];
      if i == 0 {
        assert t[j - 1] in t;
      } else {
        assert r[i] == t[i - 1];
      }
    }
  }

  /** Line 13: Submit replaces the entity list by the filtered one. */
  method Submit(s: Session, id: Uuid)
    requires s.entities.Some?
    modifies s
    ensures s.View() == old(s.View()).(entities := Some(Without(old(s.entities.value), id)))
  {
    s.entities := Some(Without(s.entities.value, id));
  }
}
