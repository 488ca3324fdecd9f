/** The decisions the sidebar makes while drawing: per-entity source badges,
    the loading statistics over all entities, the Wikipedia source used in
    persona mode, the model caption, the default title of a new entity, and
    the rule that a changed entity list marks the materials as not loaded.
    The sidebar reads source types "pdf" and "wiki". */
module Sidebar {
  import opened Wrappers
  import opened Seqs
  import opened Records
  import opened SessionState
  import Models
  import MaterialLoader
  import CreateEntity

  // ---------------------------------------------------------------------
  // Source counts and badges (lines 75-89)
  // ---------------------------------------------------------------------

  /** `[src for src in sources if src["type"] == kind]`. */
  function OfKind(srcs: seq<Source>, kind: string): (r: seq<Source>)
    ensures forall s :: s in r <==> s in srcs && s.kind == kind
  {
    if srcs == [] then []
    else (if srcs[0].kind == kind then [srcs[0]] else []) + OfKind(srcs[1..], kind)
  }

  /** `[src for src in sources if src["type"] == kind and src.get("was_loaded")]`. */
  function LoadedOfKind(srcs: seq<Source>, kind: string): (r: seq<Source>)
    ensures forall s :: s in r <==> s in srcs && s.kind == kind && Truthy(s.wasLoaded)
  {
    if srcs == [] then []
    else (if srcs[0].kind == kind && Truthy(srcs[0].wasLoaded) then [srcs[0]] else []) + LoadedOfKind(srcs[1..], kind)
  }

  /** The two comprehensions keep every qualifying source as often as it
      occurs and nothing else, so the lengths `len(...)` the sidebar shows
      are the numbers of sources of the type, and of loaded ones. */
  lemma {:induction false} OfKindCounts(srcs: seq<Source>, kind: string)
    ensures forall s :: multiset(OfKind(srcs, kind))[s] == if s.kind == kind then multiset(srcs)[s] else 0
    ensures forall s :: multiset(LoadedOfKind(srcs, kind))[s] ==
              if s.kind == kind && Truthy(s.wasLoaded) then multiset(srcs)[s] else 0
  {
    if srcs != [] {
      OfKindCounts(srcs[1..], kind);
      assert srcs == [srcs[0]] + srcs[1..];
    }
  }

  /** A source counted as loaded is counted in the total as well. */
  lemma {:induction false} LoadedWithinKind(srcs: seq<Source>, kind: string)
    ensures |LoadedOfKind(srcs, kind)| <= |OfKind(srcs, kind)|
  {
    if srcs != [] {
      LoadedWithinKind(srcs[1..], kind);
    }
  }

  datatype Badge = PdfBadge(count: nat) | WikiBadge(count: nat) | NoSourcesBadge

  /** What `render_source_badges` shows: the PDF and Wiki badges for the
      types present, or the warning when the entity has no sources at all. */
  function SourceBadges(srcs: seq<Source>): (r: seq<Badge>)
    ensures forall i, j :: 0 <= i < j < |r| ==> r[i].PdfBadge? && r[j].WikiBadge?
    ensures NoSourcesBadge in r ==> r == [NoSourcesBadge]
  {
    var pdfCount := |OfKind(srcs, "pdf")|;
    var wikiCount := |OfKind(srcs, "wiki")|;
    var badges := (if pdfCount > 0 then [PdfBadge(pdfCount)] else []) + (if wikiCount > 0 then [WikiBadge(wikiCount)] else []);
    if badges != [] then badges
    else if srcs == [] then [NoSourcesBadge]
    else []
  }

  /** The warning appears exactly for an empty source list, and nothing at
      all is shown exactly when there are sources but none of type "pdf" or
      "wiki". */
  lemma BadgeWarningRule(srcs: seq<Source>)
    ensures NoSourcesBadge in SourceBadges(srcs) <==> srcs == []
    ensures SourceBadges(srcs) == [] <==> srcs != [] && forall s :: s in srcs ==> s.kind != "pdf" && s.kind != "wiki"
  {
    var pdfs := OfKind(srcs, "pdf");
    var wikis := OfKind(srcs, "wiki");
    assert pdfs != [] ==> pdfs[0] in pdfs;
    assert wikis != [] ==> wikis[0] in wikis;
  }

  /** Each count badge carries the number of sources of its type and
      appears exactly when that number is positive. */
  lemma BadgeCountRule(srcs: seq<Source>)
    ensures forall n :: PdfBadge(n) in SourceBadges(srcs) <==> n == |OfKind(srcs, "pdf")| && n > 0
    ensures forall n :: WikiBadge(n) in SourceBadges(srcs) <==> n == |OfKind(srcs, "wiki")| && n > 0
  {
  }

  // ---------------------------------------------------------------------
  // Loading statistics (lines 122-135)
  // ---------------------------------------------------------------------

  /** `sum(len([... type == kind]) for entity in entities)`. */
  function TotalOfKind(es: seq<Entity>, kind: string): nat {
    if es == [] then 0 else |OfKind(es[0].sources, kind)| + TotalOfKind(es[1..], kind)
  }

  /** `sum(len([... type == kind and was_loaded]) for entity in entities)`. */
  function TotalLoaded(es: seq<Entity>, kind: string): nat {
    if es == [] then 0 else |LoadedOfKind(es[0].sources, kind)| + TotalLoaded(es[1..], kind)
  }

  datatype LoadingStats = LoadingStats(loadedPdfs: nat, totalPdfs: nat, loadedLinks: nat, totalLinks: nat)

  /** The two lines of `render_source_loading_stats`; both displayed
      fractions are at most one. */
  function SourceLoadingStats(es: seq<Entity>): (st: LoadingStats)
    ensures st.loadedPdfs <= st.totalPdfs && st.loadedLinks <= st.totalLinks
  {
    LoadedWithinTotal(es, "pdf");
    LoadedWithinTotal(es, "wiki");
    LoadingStats(TotalLoaded(es, "pdf"), TotalOfKind(es, "pdf"), TotalLoaded(es, "wiki"), TotalOfKind(es, "wiki"))
  }

  /** The loaded count never exceeds the total, for a single type. */
  lemma {:induction false} LoadedWithinTotal(es: seq<Entity>, kind: string)
    ensures TotalLoaded(es, kind) <= TotalOfKind(es, kind)
  {
    if es != [] {
      LoadedWithinKind(es[0].sources, kind);
      LoadedWithinTotal(es[1..], kind);
    }
  }

  /** The sums split over a concatenation of entity lists. */
  lemma {:induction false} TotalsAppend(es: seq<Entity>, more: seq<Entity>, kind: string)
    ensures TotalOfKind(es + more, kind) == TotalOfKind(es, kind) + TotalOfKind(more, kind)
    ensures TotalLoaded(es + more, kind) == TotalLoaded(es, kind) + TotalLoaded(more, kind)
  {
    if es == [] {
      assert es + more == more;
    } else {
      assert (es + more)[0] == es[0] && (es + more)[1..] == es[1..] + more;
      TotalsAppend(es[1..], more, kind);
    }
  }

  /** A freshly created entity has no sources, so it changes neither count
      nor total. */
  lemma CreateKeepsStats(es: seq<Entity>, title: string, id: Uuid)
    ensures SourceLoadingStats(CreateEntity.Created(es, title, id)) == SourceLoadingStats(es)
  {
    var x := [CreateEntity.NewEntityRecord(id, title)];
    TotalsAppend(es, x, "pdf");
    TotalsAppend(es, x, "wiki");
    assert x[1..] == [];
  }

  /** The loader reflags only sources of type "pdf" and "wiki_link"; a
      source of type "wiki" – the only link type the sidebar counts – ends
      every loading pass not loaded. So after a pass the entity still
      contributes as many links to the total as before, and none to the
      loaded count. */
  lemma PassLeavesWikiUnloaded(e: Entity, materials: Materials, processed: Processed, env: MaterialLoader.Env)
    ensures var r := MaterialLoader.EntityPass(e, materials, processed, env);
            && LoadedOfKind(r.entity.sources, "wiki") == []
            && |OfKind(r.entity.sources, "wiki")| == |OfKind(e.sources, "wiki")|
  {
    var w := MaterialLoader.WalkSources(e.sources, MaterialLoader.CacheOf(processed, e.uuid), env);
    MaterialLoader.IndexUpdateRule(e, materials, processed, env);
    MaterialLoader.WalkSourcesFlags(e.sources, MaterialLoader.CacheOf(processed, e.uuid), env);
    KindCountReflagged(w.sources, e.sources, "wiki", env);
  }

  /** Every application of `step` leaves the entity without a loaded
      "wiki" source. */
  ghost predicate UnloadsWiki(step: MaterialLoader.EntityStep) {
    forall e, m, p :: LoadedOfKind(step(e, m, p).entity.sources, "wiki") == []
  }

  /** `load_entity_materials` is such a step (PassLeavesWikiUnloaded). */
  lemma StepOfUnloadsWiki(env: MaterialLoader.Env)
    ensures UnloadsWiki(MaterialLoader.StepOf(env))
  {
    forall e, m, p
      ensures LoadedOfKind(MaterialLoader.StepOf(env)(e, m, p).entity.sources, "wiki") == []
    {
      PassLeavesWikiUnloaded(e, m, p, env);
    }
  }

  /** The entities of `p` before position `n` have no loaded "wiki" source. */
  ghost predicate WikiUnloadedBefore(p: MaterialLoader.PassState, n: nat) {
    forall i :: 0 <= i < n && i < |p.entities| ==> LoadedOfKind(p.entities[i].sources, "wiki") == []
  }

  /** The entities a pass over the first `n` entities has visited — all `n`
      of them, or up to and including the one whose index build raised —
      have no loaded "wiki" source. */
  lemma {:induction false} PrefixUnloadsWiki(es: seq<Entity>, n: nat, materials: Materials, processed: Processed, step: MaterialLoader.EntityStep)
    requires n <= |es|
    requires UnloadsWiki(step)
    decreases n
    ensures var p := MaterialLoader.LoadPrefix(es, n, materials, processed, step);
            WikiUnloadedBefore(p, if p.failed then p.done + 1 else n)
  {
    if n > 0 {
      PrefixUnloadsWiki(es, n - 1, materials, processed, step);
      var s := MaterialLoader.LoadPrefix(es, n - 1, materials, processed, step);
      var p := MaterialLoader.LoadPrefix(es, n, materials, processed, step);
      if !s.failed {
        var r := step(s.entities[n - 1], s.materials, s.processed);
        assert LoadedOfKind(r.entity.sources, "wiki") == [];
        assert p.entities == s.entities[n - 1 := r.entity];
        assert WikiUnloadedBefore(s, n - 1);
        forall i | 0 <= i < n
          ensures LoadedOfKind(p.entities[i].sources, "wiki") == []
        {
          if i < n - 1 {
            assert p.entities[i] == s.entities[i];
          }
        }
      }
    }
  }

  /** No entity with a loaded source of the type, no loaded count. */
  lemma {:induction false} NoneLoaded(es: seq<Entity>, kind: string)
    requires forall i :: 0 <= i < |es| ==> LoadedOfKind(es[i].sources, kind) == []
    ensures TotalLoaded(es, kind) == 0
  {
    if es != [] {
      assert forall i :: 0 <= i < |es[1..]| ==> es[1..][i] == es[i + 1];
      NoneLoaded(es[1..], kind);
    }
  }

  /** After a loading pass over all entities that completes, the "Wiki
      links" line of the statistics shows no loaded link, whatever the
      sources are. */
  lemma CompletedPassShowsNoLoadedLinks(v: SessionView, env: MaterialLoader.Env)
    requires v.entities.Some?
    requires !MaterialLoader.LoadPrefix(v.entities.value, |v.entities.value|, v.entityMaterials.GetOr(map[]),
                                        v.processedFiles.GetOr(map[]), MaterialLoader.StepOf(env)).failed
    ensures SourceLoadingStats(MaterialLoader.LoadAllEffect(v, env).entities.value).loadedLinks == 0
  {
    var es := v.entities.value;
    StepOfUnloadsWiki(env);
    PrefixUnloadsWiki(es, |es|, v.entityMaterials.GetOr(map[]), v.processedFiles.GetOr(map[]), MaterialLoader.StepOf(env));
    NoneLoaded(MaterialLoader.LoadAllEffect(v, env).entities.value, "wiki");
  }

  /** Counting by type ignores the flags, and a type the loader does not
      know is never counted as loaded after it. */
  lemma {:induction false} KindCountReflagged(a: seq<Source>, b: seq<Source>, kind: string, env: MaterialLoader.Env)
    requires |a| == |b|
    requires forall i :: 0 <= i < |a| ==> MaterialLoader.FlagRule(a[i], b[i], env)
    ensures |OfKind(a, kind)| == |OfKind(b, kind)|
    ensures kind != "pdf" && kind != "wiki_link" ==> LoadedOfKind(a, kind) == []
  {
    if a != [] {
      assert MaterialLoader.FlagRule(a[0], b[0], env);
      assert forall i :: 0 <= i < |a[1..]| ==> MaterialLoader.FlagRule(a[1..][i], b[1..][i], env) by {
        forall i | 0 <= i < |a[1..]|
          ensures MaterialLoader.FlagRule(a[1..][i], b[1..][i], env)
        {
          assert a[1..][i] == a[i + 1] && b[1..][i] == b[i + 1];
        }
      }
      KindCountReflagged(a[1..], b[1..], kind, env);
    }
  }

  // ---------------------------------------------------------------------
  // Persona mode (lines 56-64)
  // ---------------------------------------------------------------------

  /** `src["type"] == "wiki" and "wikipedia.org" in src["filepath"]`. */
  predicate IsWikipediaSource(src: Source) {
    src.kind == "wiki" && Contains(src.filepath, "wikipedia.org")
  }

  /** Position of the first Wikipedia source. */
  function FirstWikipedia(srcs: seq<Source>): (r: Option<nat>)
    ensures r.None? <==> forall i :: 0 <= i < |srcs| ==> !IsWikipediaSource(srcs[i])
    ensures r.Some? ==> r.value < |srcs| && IsWikipediaSource(srcs[r.value])
                        && forall j :: 0 <= j < r.value ==> !IsWikipediaSource(srcs[j])
  {
    if srcs == [] then None
    else if IsWikipediaSource(srcs[0]) then Some(0)
    else
      var k := FirstWikipedia(srcs[1..]);
      if k.None? then None else Some(k.value + 1)
  }

  /** The URL `render_persona_info` settles on: none outside persona mode,
      else the file path of the first Wikipedia source, if any. */
  function PersonaWikiUrl(e: Entity): Option<string> {
    if !e.personaMode then None
    else
      var k := FirstWikipedia(e.sources);
      if k.None? then None else Some(e.sources[k.value].filepath)
  }

  /** A URL is chosen only in persona mode, it is the path of a Wikipedia
      source (so it contains "wikipedia.org"), and in persona mode one is
      chosen exactly when such a source exists. */
  lemma PersonaWikiUrlRules(e: Entity)
    ensures PersonaWikiUrl(e).Some? ==> e.personaMode
    ensures PersonaWikiUrl(e).Some? ==> Contains(PersonaWikiUrl(e).value, "wikipedia.org")
    ensures e.personaMode ==> (PersonaWikiUrl(e).None? <==> forall s :: s in e.sources ==> !IsWikipediaSource(s))
  {
    if e.personaMode && FirstWikipedia(e.sources).None? {
      forall s | s in e.sources
        ensures !IsWikipediaSource(s)
      {
        var i :| 0 <= i < |e.sources| && e.sources[i] == s;
      }
    }
  }

  /** The caption `render_persona_info` writes; the persona name extracted
      from the URL is not part of this model. */
  datatype PersonaInfo = NoPersonaCaption | NeedsWikipediaLink | WithWikipediaUrl(url: string)

  /** Lines 56-73: the early return, the loop with `break`, and the caption
      choice. A selected path is never empty, so `if wiki_url:` is the same
      as "a URL was found". */
  method RenderPersonaInfo(e: Entity) returns (info: PersonaInfo)
    ensures e.personaMode ==> info != NoPersonaCaption
    ensures info == (if !e.personaMode then NoPersonaCaption
                     else if PersonaWikiUrl(e).None? then NeedsWikipediaLink
                     else WithWikipediaUrl(PersonaWikiUrl(e).value))
  {
    if !e.personaMode {
      return NoPersonaCaption;
    }
    var wikiUrl: Option<string> := None;
    var i := 0;
    while i < |e.sources|
      invariant 0 <= i <= |e.sources|
      invariant forall j :: 0 <= j < i ==> !IsWikipediaSource(e.sources[j])
    {
      var src := e.sources[i];
      if src.kind == "wiki" && Contains(src.filepath, "wikipedia.org") {
        wikiUrl := Some(src.filepath);
        break;
      }
      i := i + 1;
    }
    if wikiUrl.Some? {
      info := WithWikipediaUrl(wikiUrl.value);
    } else {
      info := NeedsWikipediaLink;
    }
  }

  // ---------------------------------------------------------------------
  // Model caption (lines 47-50)
  // ---------------------------------------------------------------------

  /** `entity.get("model", "mistral-7b")`. */
  function DisplayedModelName(e: Entity): string {
    e.model.GetOr("mistral-7b")
  }

  /** An entity without a model is shown as the catalogue's default model,
      of the Mistral family. */
  lemma DefaultModelCaption(e: Entity)
    requires e.model.None?
    ensures DisplayedModelName(e) == "mistral-7b"
    ensures Models.IsCatalogued(DisplayedModelName(e))
    ensures Models.GetModelFamily(DisplayedModelName(e)) == "Mistral"
    ensures Models.GetModelId(DisplayedModelName(e)) == Models.DefaultModelId
  {
    Models.DefaultIsMistral7b();
  }

  // ---------------------------------------------------------------------
  // New-entity title (lines 43-44)
  // ---------------------------------------------------------------------

  function DigitChar(d: nat): char
    requires d < 10
  {
    ('0' as int + d) as char
  }

  /** Python's `str(n)` for a non-negative integer: decimal digits, no
      leading zero. */
  function NatToString(n: nat): (r: string)
    ensures |r| >= 1 && forall i :: 0 <= i < |r| ==> '0' <= r[i] <= '9'
    ensures |r| > 1 ==> r[0] != '0'
  {
    if n < 10 then [DigitChar(n)]
    else
      var p := NatToString(n / 10);
      assert p[0] != '0' by {
        if |p| == 1 { assert n / 10 >= 1; }
      }
      p + [DigitChar(n % 10)]
  }

  /** The value of a string of decimal digits. */
  function DigitsValue(s: string): nat
    requires forall i :: 0 <= i < |s| ==> '0' <= s[i] <= '9'
  {
    if s == [] then 0 else 10 * DigitsValue(s[..|s| - 1]) + (s[|s| - 1] as int - '0' as int)
  }

  /** Reading back the digits gives the number. */
  lemma {:induction false} NatToStringRoundTrip(n: nat)
    ensures DigitsValue(NatToString(n)) == n
  {
    if n >= 10 {
      NatToStringRoundTrip(n / 10);
      var r := NatToString(n);
      assert r[..|r| - 1] == NatToString(n / 10);
    }
  }

  /** The default title offered by "Add new entity". */
  function NewEntityTitle(count: nat): (r: string)
    ensures |r| > 7 && r[..7] == "Entity " && r[7] != '0'
  {
    "Entity " + NatToString(count + 1)
  }

  /** Different numbers have different decimal strings. */
  lemma NatToStringInjective(a: nat, b: nat)
    ensures NatToString(a) == NatToString(b) ==> a == b
  {
    NatToStringRoundTrip(a);
    NatToStringRoundTrip(b);
  }

  /** Different entity counts give different default titles, and the title
      for an empty list matches the first default entity's "Entity 1". */
  lemma NewEntityTitleInjective(a: nat, b: nat)
    ensures NewEntityTitle(a) == NewEntityTitle(b) ==> a == b
    ensures NewEntityTitle(0) == "Entity 1"
  {
    var p := "Entity ";
    var x, y := NatToString(a + 1), NatToString(b + 1);
    if p + x == p + y {
      assert x == (p + x)[|p|..] && y == (p + y)[|p|..];
      NatToStringInjective(a + 1, b + 1);
    }
  }

  // ---------------------------------------------------------------------
  // Session updates of `render_entities_section` (lines 35-45)
  // ---------------------------------------------------------------------

  /** The store after the entity loop: each iteration clears
      `materials_loaded` and `loading_progress` while `_entities_changed` is
      truthy, so this happens once there is at least one entity. */
  function ClearIfChanged(v: SessionView): (r: SessionView)
    requires v.entities.Some?
    ensures r == v.(materialsLoaded := r.materialsLoaded, loadingProgress := r.loadingProgress)
    ensures r.materialsLoaded == Some(false) || r.materialsLoaded == v.materialsLoaded
  {
    if v.entities.value != [] && Truthy(v.entitiesChanged)
    then v.(materialsLoaded := Some(false), loadingProgress := Some(0.0))
    else v
  }

  /** While the entity list is marked changed the materials are shown as
      not loaded; an unmarked store is left alone; repeating the loop
      changes nothing more. */
  lemma ClearIfChangedRules(v: SessionView)
    requires v.entities.Some?
    ensures v.entities.value != [] && Truthy(v.entitiesChanged) ==>
              ClearIfChanged(v).materialsLoaded == Some(false) && ClearIfChanged(v).loadingProgress == Some(0.0)
    ensures !Truthy(v.entitiesChanged) ==> ClearIfChanged(v) == v
    ensures ClearIfChanged(ClearIfChanged(v)) == ClearIfChanged(v)
    ensures ClearIfChanged(v) == v.(materialsLoaded := ClearIfChanged(v).materialsLoaded, loadingProgress := ClearIfChanged(v).loadingProgress)
  {
  }

  /** A loading pass that completes clears the changed flag, so the next
      drawing of the sidebar keeps the materials loaded. */
  lemma LoadedSurvivesRedraw(v: SessionView, env: MaterialLoader.Env)
    requires v.entities.Some?
    requires !MaterialLoader.LoadPrefix(v.entities.value, |v.entities.value|, v.entityMaterials.GetOr(map[]),
                                        v.processedFiles.GetOr(map[]), MaterialLoader.StepOf(env)).failed
    ensures ClearIfChanged(MaterialLoader.LoadAllEffect(v, env)).materialsLoaded == Some(true)
  {
    MaterialLoader.LoadAllFlags(v, env);
  }

  /** Lines 35-41: the entity loop, as far as it changes the store (the
      expander contents and the Edit/Remove buttons only draw or open
      dialogs). */
  method RenderEntitiesLoop(s: Session)
    requires s.entities.Some?
    modifies s
    ensures s.View() == ClearIfChanged(old(s.View()))
  {
    var n := |s.entities.value|;
    for idx := 0 to n
      invariant s.entities == old(s.entities)
      invariant s.View() == if idx == 0 then old(s.View()) else ClearIfChanged(old(s.View()))
    {
      if Truthy(s.entitiesChanged) {
        s.materialsLoaded := Some(false);
        s.loadingProgress := Some(0.0);
      }
    }
  }

  /** Lines 43-45: "Add new entity" opens the create dialog with the default
      title and marks the list changed at once, whether or not the dialog is
      later submitted (its Submit is `CreateEntity.Submit`). */
  method AddNewEntityClicked(s: Session) returns (defaultTitle: string)
    requires s.entities.Some?
    modifies s
    ensures defaultTitle == NewEntityTitle(|old(s.entities.value)|)
    ensures s.View() == old(s.View()).(entitiesChanged := Some(true))
  {
    defaultTitle := NewEntityTitle(|s.entities.value|);
    s.entitiesChanged := Some(true);
  }

  /** After "Add new entity" and the create dialog's Submit, the next
      drawing shows the materials as not loaded. */
  lemma AddedEntityUnloadsMaterials(v: SessionView, title: string, id: Uuid)
    requires v.entities.Some?
    ensures var added := v.(entitiesChanged := Some(true));
            var submitted := added.(entities := Some(CreateEntity.Created(v.entities.value, title, id)));
            ClearIfChanged(submitted).materialsLoaded == Some(false)
  {
  }
}
