/** The "Edit Entity" dialog: the selection of stored files to drop, and the
    Submit block that renames the first entity with the edited uuid, removes
    the selected documents, appends new uploads whose filename is new, and
    appends a new wiki link. */
module EditEntity {
  import opened Wrappers
  import opened Seqs
  import opened Records
  import opened SessionState

  // ---------------------------------------------------------------------
  // Which stored files the user unticked
  // ---------------------------------------------------------------------

  /** The documents whose "keep" checkbox is cleared, in list order. A
      checkbox is keyed by the filename, so `unchecked` is a set of filenames.
      Two stored documents with one filename would give two widgets with one
      key, which Streamlit refuses; the model instead lets them share one box.
      The dialog itself keeps filenames unique (AddIfNew, AppendNewUnique). */
  function Unticked(docs: seq<FileRef>, unchecked: set<string>): seq<FileRef> {
    if docs == [] then []
    else (if docs[0].filename in unchecked then [docs[0]] else []) + Unticked(docs[1..], unchecked)
  }

  /** The documents whose checkbox stays ticked, in list order. */
  function Kept(docs: seq<FileRef>, unchecked: set<string>): seq<FileRef> {
    if docs == [] then []
    else (if docs[0].filename in unchecked then [] else [docs[0]]) + Kept(docs[1..], unchecked)
  }

  /** A document is selected exactly when it is stored and its box is
      cleared, and one that stays is stored with its box ticked. */
  lemma {:induction false} UntickedMembers(docs: seq<FileRef>, unchecked: set<string>)
    ensures forall d :: d in Unticked(docs, unchecked) <==> d in docs && d.filename in unchecked
    ensures forall d :: d in Kept(docs, unchecked) <==> d in docs && d.filename !in unchecked
  {
    if docs != [] {
      UntickedMembers(docs[1..], unchecked);
      assert docs == [docs[0]] + docs[1..];
    }
  }

  /** Every document is either unticked or kept, with its multiplicity. */
  lemma {:induction false} UntickedPartition(docs: seq<FileRef>, unchecked: set<string>)
    ensures multiset(Unticked(docs, unchecked)) + multiset(Kept(docs, unchecked)) == multiset(docs)
  {
    if docs != [] {
      var rest := docs[1..];
      UntickedPartition(rest, unchecked);
      assert docs == [docs[0]] + rest;
      var u := if docs[0].filename in unchecked then [docs[0]] else [];
      var k := if docs[0].filename in unchecked then [] else [docs[0]];
      assert Unticked(docs, unchecked) == u + Unticked(rest, unchecked);
      assert Kept(docs, unchecked) == k + Kept(rest, unchecked);
      assert multiset(u) + multiset(k) == multiset{docs[0]};
    }
  }

  /** The unticked documents keep their relative order. */
  lemma {:induction false} UntickedInOrder(docs: seq<FileRef>, unchecked: set<string>)
    ensures Subsequence(Unticked(docs, unchecked), docs)
  {
    if docs != [] {
      var rest := docs[1..];
      UntickedInOrder(rest, unchecked);
      assert docs == [docs[0]] + rest;
      if docs[0].filename in unchecked {
        assert Unticked(docs, unchecked) == [docs[0]] + Unticked(rest, unchecked);
        SubsequenceCons(docs[0], Unticked(rest, unchecked), rest);
      } else {
        assert Unticked(docs, unchecked) == Unticked(rest, unchecked);
        SubsequenceSkip(docs[0], Unticked(rest, unchecked), rest);
      }
    }
  }

  /** `files_to_remove` as `show_and_select_files_to_remove` computes it:
      nothing when there is no current entity or its "documents" is absent or
      empty. */
  function FilesToRemove(current: Option<Entity>, unchecked: set<string>): seq<FileRef> {
    if current.Some? && current.value.documents.Some? then Unticked(current.value.documents.value, unchecked)
    else []
  }

  /** `show_and_select_files_to_remove`: one checkbox per stored document,
      collecting those the user unticked. */
  method SelectFilesToRemove(current: Option<Entity>, unchecked: set<string>) returns (filesToRemove: seq<FileRef>)
    ensures filesToRemove == FilesToRemove(current, unchecked)
    ensures filesToRemove != [] ==> current.Some? && current.value.documents.Some?
  {
    filesToRemove := [];
    if current.Some? && current.value.documents.Some? && current.value.documents.value != [] {
      var docs := current.value.documents.value;
      var i := 0;
      while i < |docs|
        invariant 0 <= i <= |docs|
        invariant filesToRemove + Unticked(docs[i..], unchecked) == Unticked(docs, unchecked)
      {
        assert docs[i..] == [docs[i]] + docs[i + 1..];
        if docs[i].filename in unchecked {
          filesToRemove := filesToRemove + [docs[i]];
        }
        i := i + 1;
      }
      assert docs[i..] == [];
    }
  }

  // ---------------------------------------------------------------------
  // Removing the selected documents
  // ---------------------------------------------------------------------

  /** The position of the first element equal to `d`. */
  function FirstPosition(docs: seq<FileRef>, d: FileRef): (i: nat)
    requires d in docs
    ensures i < |docs| && docs[i] == d && d !in docs[..i]
  {
    if docs[0] == d then 0
    else
      var k := FirstPosition(docs[1..], d);
      assert docs[..k + 1] == [docs[0]] + docs[1..][..k];
      k + 1
  }

  /** Python's `list.remove(d)`: drops the first element equal to `d` and
      keeps the others, in place. */
  function RemoveFirst(docs: seq<FileRef>, d: FileRef): (r: seq<FileRef>)
    requires d in docs
    ensures r == docs[..FirstPosition(docs, d)] + docs[FirstPosition(docs, d) + 1..]
    ensures |r| == |docs| - 1
  {
    var i := FirstPosition(docs, d);
    if docs[0] == d then
      docs[1..]
    else
      var tail := docs[1..];
      var k := FirstPosition(tail, d);
      assert i == k + 1;
      var rest := RemoveFirst(tail, d);
      assert [docs[0]] + rest == docs[..i] + docs[i + 1..] by {
        assert rest == tail[..k] + tail[k + 1..];
        assert docs[..i] == [docs[0]] + tail[..k];
        assert docs[i + 1..] == tail[k + 1..];
      }
      [docs[0]] + rest
  }

  /** `list.remove` takes away exactly one occurrence of `d`. */
  lemma RemoveFirstMultiset(docs: seq<FileRef>, d: FileRef)
    requires d in docs
    ensures multiset(RemoveFirst(docs, d)) == multiset(docs) - multiset{d}
  {
    var i := FirstPosition(docs, d);
    assert docs == docs[..i] + [d] + docs[i + 1..];
  }

  /** `list.remove` keeps the order of the other elements. */
  lemma {:induction false} RemoveFirstSubsequence(docs: seq<FileRef>, d: FileRef)
    requires d in docs
    ensures Subsequence(RemoveFirst(docs, d), docs)
  {
    assert docs == [docs[0]] + docs[1..];
    if docs[0] == d {
      SubsequenceRefl(docs[1..]);
      SubsequenceSkip(docs[0], docs[1..], docs[1..]);
    } else {
      RemoveFirstSubsequence(docs[1..], d);
      SubsequenceCons(docs[0], RemoveFirst(docs[1..], d), docs[1..]);
    }
  }

  /** The removal loop: each selected document present in the list is
      removed once (its first equal occurrence); one already gone is skipped. */
  function RemoveAll(docs: seq<FileRef>, toRemove: seq<FileRef>): seq<FileRef>
    decreases |toRemove|
  {
    if toRemove == [] then docs
    else RemoveAll(if toRemove[0] in docs then RemoveFirst(docs, toRemove[0]) else docs, toRemove[1..])
  }

  /** The removal loop takes away exactly the selected documents, counted
      with multiplicity, and no more than the list holds. */
  lemma {:induction false} RemoveAllMultiset(docs: seq<FileRef>, toRemove: seq<FileRef>)
    ensures multiset(RemoveAll(docs, toRemove)) == multiset(docs) - multiset(toRemove)
    decreases |toRemove|
  {
    if toRemove != [] {
      var x := toRemove[0];
      var docs' := if x in docs then RemoveFirst(docs, x) else docs;
      if x in docs {
        RemoveFirstMultiset(docs, x);
      }
      RemoveAllMultiset(docs', toRemove[1..]);
      assert toRemove == [x] + toRemove[1..];
      assert multiset(docs') == multiset(docs) - multiset{x};
    }
  }

  /** The removal loop keeps the order of the documents that stay. */
  lemma {:induction false} RemoveAllSubsequence(docs: seq<FileRef>, toRemove: seq<FileRef>)
    ensures Subsequence(RemoveAll(docs, toRemove), docs)
    decreases |toRemove|
  {
    if toRemove == [] {
      SubsequenceRefl(docs);
    } else {
      var x := toRemove[0];
      var docs' := if x in docs then RemoveFirst(docs, x) else docs;
      RemoveAllSubsequence(docs', toRemove[1..]);
      if x in docs {
        RemoveFirstSubsequence(docs, x);
        SubsequenceTrans(RemoveAll(docs, toRemove), docs', docs);
      }
    }
  }

  /** Removing the unticked documents leaves exactly the ticked ones, with
      their multiplicities, in their original order. */
  lemma RemoveUntickedLeavesKept(docs: seq<FileRef>, unchecked: set<string>)
    ensures multiset(RemoveAll(docs, Unticked(docs, unchecked))) == multiset(Kept(docs, unchecked))
    ensures Subsequence(RemoveAll(docs, Unticked(docs, unchecked)), docs)
  {
    UntickedPartition(docs, unchecked);
    RemoveAllMultiset(docs, Unticked(docs, unchecked));
    RemoveAllSubsequence(docs, Unticked(docs, unchecked));
    UntickedInOrder(docs, unchecked);
  }

  /** Lines 53-59: the removal loop over `files_to_remove`. `os.remove` on
      the stored file is not modelled: its failure is swallowed and the list
      update does not depend on it. */
  method RemoveSelected(docs: seq<FileRef>, filesToRemove: seq<FileRef>) returns (docs': seq<FileRef>)
    ensures docs' == RemoveAll(docs, filesToRemove)
  {
    docs' := docs;
    var i := 0;
    while i < |filesToRemove|
      invariant 0 <= i <= |filesToRemove|
      invariant RemoveAll(docs', filesToRemove[i..]) == RemoveAll(docs, filesToRemove)
    {
      assert filesToRemove[i..][1..] == filesToRemove[i + 1..];
      var doc := filesToRemove[i];
      if doc in docs' {
        docs' := RemoveFirst(docs', doc);
      }
      i := i + 1;
    }
    assert filesToRemove[i..] == [];
  }

  // ---------------------------------------------------------------------
  // Appending uploads
  // ---------------------------------------------------------------------

  /** `any(existing["filename"] == name for existing in docs)`. */
  predicate HasFilename(docs: seq<FileRef>, name: string) {
    exists i | 0 <= i < |docs| :: docs[i].filename == name
  }

  /** No two documents share a filename. */
  ghost predicate UniqueFilenames(docs: seq<FileRef>) {
    forall i, j :: 0 <= i < j < |docs| ==> docs[i].filename != docs[j].filename
  }

  /** One upload: appended at the end unless a document with its filename is
      already there. */
  function AddIfNew(docs: seq<FileRef>, up: FileRef): (r: seq<FileRef>)
    ensures HasFilename(docs, up.filename) ==> r == docs
    ensures !HasFilename(docs, up.filename) ==> r == docs + [up]
    ensures HasFilename(r, up.filename)
    ensures UniqueFilenames(docs) ==> UniqueFilenames(r)
  {
    if HasFilename(docs, up.filename) then docs
    else
      assert (docs + [up])[|docs|].filename == up.filename;
      docs + [up]
  }

  /** The upload loop, in upload order; later uploads see the earlier ones. */
  function AppendNew(docs: seq<FileRef>, uploads: seq<FileRef>): seq<FileRef>
    decreases |uploads|
  {
    if uploads == [] then docs
    else AppendNew(AddIfNew(docs, uploads[0]), uploads[1..])
  }

  /** Uploads only ever extend the list at its end: the documents already
      there are kept, in place. */
  lemma {:induction false} AppendNewExtends(docs: seq<FileRef>, uploads: seq<FileRef>)
    ensures StartsWith(AppendNew(docs, uploads), docs)
    decreases |uploads|
  {
    if uploads != [] {
      var docs' := AddIfNew(docs, uploads[0]);
      AppendNewExtends(docs', uploads[1..]);
      assert docs'[..|docs|] == docs;
      assert AppendNew(docs, uploads)[..|docs|] == AppendNew(docs, uploads)[..|docs'|][..|docs|];
    }
  }

  /** The uploads the loop stores, in upload order: upload `n` is stored
      exactly when no stored document and no earlier upload of the batch has
      its filename, so of several uploads with one filename the first wins. */
  function NewUploads(docs: seq<FileRef>, uploads: seq<FileRef>): seq<FileRef>
    decreases |uploads|
  {
    if uploads == [] then []
    else
      var n := |uploads| - 1;
      var name := uploads[n].filename;
      NewUploads(docs, uploads[..n]) + (if HasFilename(docs, name) || HasFilename(uploads[..n], name) then [] else [uploads[n]])
  }

  /** A filename occurs in a concatenation when it occurs in either part. */
  lemma HasFilenameConcat(a: seq<FileRef>, b: seq<FileRef>, name: string)
    ensures HasFilename(a + b, name) <==> HasFilename(a, name) || HasFilename(b, name)
  {
    if HasFilename(a, name) {
      var k :| 0 <= k < |a| && a[k].filename == name;
      assert (a + b)[k] == a[k];
    }
    if HasFilename(b, name) {
      var k :| 0 <= k < |b| && b[k].filename == name;
      assert (a + b)[|a| + k] == b[k];
    }
    if HasFilename(a + b, name) {
      var k :| 0 <= k < |a + b| && (a + b)[k].filename == name;
      if k >= |a| {
        assert b[k - |a|] == (a + b)[k];
      } else {
        assert a[k] == (a + b)[k];
      }
    }
  }

  /** Together with the stored documents, the stored uploads cover every
      uploaded filename, and no other. */
  lemma {:induction false} NewUploadsCover(docs: seq<FileRef>, uploads: seq<FileRef>, name: string)
    ensures HasFilename(docs, name) || HasFilename(NewUploads(docs, uploads), name)
            <==> HasFilename(docs, name) || HasFilename(uploads, name)
    decreases |uploads|
  {
    if uploads != [] {
      var n := |uploads| - 1;
      var pre, u := uploads[..n], uploads[n];
      NewUploadsCover(docs, pre, name);
      NewUploadsCover(docs, pre, u.filename);
      assert uploads == pre + [u];
      HasFilenameConcat(pre, [u], name);
      var t := if HasFilename(docs, u.filename) || HasFilename(pre, u.filename) then [] else [u];
      HasFilenameConcat(NewUploads(docs, pre), t, name);
      assert HasFilename([u], name) <==> u.filename == name by {
        assert [u][0] == u;
      }
    }
  }

  /** One more upload at the end of the batch is one more AddIfNew. */
  lemma {:induction false} AppendNewSnoc(docs: seq<FileRef>, uploads: seq<FileRef>, up: FileRef)
    ensures AppendNew(docs, uploads + [up]) == AddIfNew(AppendNew(docs, uploads), up)
    decreases |uploads|
  {
    if uploads == [] {
      assert [up][1..] == [];
    } else {
      assert (uploads + [up])[0] == uploads[0] && (uploads + [up])[1..] == uploads[1..] + [up];
      AppendNewSnoc(AddIfNew(docs, uploads[0]), uploads[1..], up);
    }
  }

  /** The upload loop appends exactly NewUploads. */
  lemma {:induction false} AppendNewIsNewUploads(docs: seq<FileRef>, uploads: seq<FileRef>)
    ensures AppendNew(docs, uploads) == docs + NewUploads(docs, uploads)
    decreases |uploads|
  {
    if uploads == [] {
      assert docs + [] == docs;
    } else {
      var n := |uploads| - 1;
      var pre, u := uploads[..n], uploads[n];
      assert uploads == pre + [u];
      AppendNewIsNewUploads(docs, pre);
      AppendNewSnoc(docs, pre, u);
      HasFilenameConcat(docs, NewUploads(docs, pre), u.filename);
      NewUploadsCover(docs, pre, u.filename);
    }
  }

  /** The upload loop leaves the stored documents followed by the uploads
      whose filename is new, in upload order, the first of a batch's uploads
      with one filename winning; every appended document is one of the
      uploads, and every uploaded filename is in the list. */
  lemma AppendNewContents(docs: seq<FileRef>, uploads: seq<FileRef>)
    ensures var r := AppendNew(docs, uploads);
            && r == docs + NewUploads(docs, uploads)
            && (forall d :: d in r ==> d in docs || d in uploads)
            && (forall j :: 0 <= j < |uploads| ==> HasFilename(r, uploads[j].filename))
  {
    AppendNewIsNewUploads(docs, uploads);
    NewUploadsFromUploads(docs, uploads);
    var n := NewUploads(docs, uploads);
    forall j | 0 <= j < |uploads|
      ensures HasFilename(docs + n, uploads[j].filename)
    {
      var name := uploads[j].filename;
      HasFilenameConcat(docs, n, name);
      NewUploadsCover(docs, uploads, name);
    }
  }

  /** Every stored upload is one of the uploads. */
  lemma {:induction false} NewUploadsFromUploads(docs: seq<FileRef>, uploads: seq<FileRef>)
    ensures forall d :: d in NewUploads(docs, uploads) ==> d in uploads
    decreases |uploads|
  {
    if uploads != [] {
      var n := |uploads| - 1;
      NewUploadsFromUploads(docs, uploads[..n]);
      assert uploads == uploads[..n] + [uploads[n]];
    }
  }

  /** Filenames unique before the upload loop stay unique after it, even when
      one batch uploads the same filename twice. */
  lemma {:induction false} AppendNewUnique(docs: seq<FileRef>, uploads: seq<FileRef>)
    requires UniqueFilenames(docs)
    ensures UniqueFilenames(AppendNew(docs, uploads))
    decreases |uploads|
  {
    if uploads != [] {
      AppendNewUnique(AddIfNew(docs, uploads[0]), uploads[1..]);
    }
  }

  /** `any(existing["filename"] == name for existing in docs)`, scanning
      the list until a match. */
  method AnyWithFilename(docs: seq<FileRef>, name: string) returns (present: bool)
    ensures present == HasFilename(docs, name)
  {
    present := false;
    var j := 0;
    while j < |docs| && !present
      invariant 0 <= j <= |docs|
      invariant present <==> exists k | 0 <= k < j :: docs[k].filename == name
    {
      if docs[j].filename == name {
        present := true;
      }
      j := j + 1;
    }
  }

  /** Lines 65-67: the upload loop. */
  method AddUploads(docs: seq<FileRef>, uploads: seq<FileRef>) returns (docs': seq<FileRef>)
    ensures docs' == AppendNew(docs, uploads)
  {
    docs' := docs;
    var i := 0;
    while i < |uploads|
      invariant 0 <= i <= |uploads|
      invariant AppendNew(docs', uploads[i..]) == AppendNew(docs, uploads)
    {
      assert uploads[i..][1..] == uploads[i + 1..];
      var doc := uploads[i];
      var present := AnyWithFilename(docs', doc.filename);
      if !present {
        docs' := docs' + [doc];
      }
      i := i + 1;
    }
    assert uploads[i..] == [];
  }

  // ---------------------------------------------------------------------
  // Appending a wiki link
  // ---------------------------------------------------------------------

  /** Lines 69-73: a non-empty link is appended to "wiki_links" (created if
      absent) unless it is already there; an empty link changes nothing. */
  function AddWikiLink(links: Option<seq<string>>, link: string): (r: Option<seq<string>>)
    ensures link == "" ==> r == links
    ensures link != "" ==> r.Some? && link in r.value && StartsWith(r.value, links.GetOr([]))
    ensures link != "" ==> (link in links.GetOr([]) ==> r.value == links.GetOr([]))
                           && (link !in links.GetOr([]) ==> r.value == links.GetOr([]) + [link])
  {
    if link == "" then links
    else
      var l := links.GetOr([]);
      assert (l + [link])[..|l|] == l;
      Some(if link in l then l else l + [link])
  }

  /** "wiki_links" never gains a duplicate. */
  lemma AddWikiLinkNoDuplicates(links: Option<seq<string>>, link: string)
    requires NoDuplicates(links.GetOr([]))
    ensures NoDuplicates(AddWikiLink(links, link).GetOr([]))
  {
    var l := links.GetOr([]);
    if link != "" && link !in l {
      var r := l + [link];
      forall i, j | 0 <= i < j < |r|
        ensures r[i] != r[j]
      {
        if j == |l| {
          assert r[i] == l[i];
        }
      }
    }
  }

  // ---------------------------------------------------------------------
  // The Submit block
  // ---------------------------------------------------------------------

  /** The edit applied to the matching entity: the new title, the selected
      documents removed, then the uploads appended ("documents" created if
      absent, but only when something was uploaded), then the link. The
      requirement holds because `files_to_remove` comes from this entity's
      own "documents" list. */
  function EditedEntity(item: Entity, title: string, filesToRemove: seq<FileRef>, uploads: seq<FileRef>, link: string): (r: Entity)
    requires filesToRemove != [] ==> item.documents.Some?
    ensures r == item.(title := title, documents := r.documents, wikiLinks := r.wikiLinks)
    ensures filesToRemove == [] && uploads == [] ==> r.documents == item.documents
    ensures link == "" ==> r.wikiLinks == item.wikiLinks
    ensures link != "" ==> r.wikiLinks == Some(if link in item.wikiLinks.GetOr([]) then item.wikiLinks.GetOr([])
                                                else item.wikiLinks.GetOr([]) + [link])
  {
    var docs1 := if filesToRemove != [] then Some(RemoveAll(item.documents.value, filesToRemove)) else item.documents;
    var docs2 := if uploads != [] then Some(AppendNew(docs1.GetOr([]), uploads)) else docs1;
    item.(title := title, documents := docs2, wikiLinks := AddWikiLink(item.wikiLinks, link))
  }

  /** The edited entity has the submitted title and keeps its uuid, sources,
      model and persona flag; with nothing selected or uploaded its
      documents are as before; unique filenames stay unique, and every
      uploaded filename is present; an empty link leaves "wiki_links" alone,
      any other ends up in it, and the links never gain a duplicate. */
  lemma EditedEntityFacts(item: Entity, title: string, filesToRemove: seq<FileRef>, uploads: seq<FileRef>, link: string)
    requires filesToRemove != [] ==> item.documents.Some?
    ensures var r := EditedEntity(item, title, filesToRemove, uploads, link);
            && r.title == title
            && r == item.(title := r.title, documents := r.documents, wikiLinks := r.wikiLinks)
            && (filesToRemove == [] && uploads == [] ==> r.documents == item.documents)
            && (UniqueFilenames(item.documents.GetOr([])) ==> UniqueFilenames(r.documents.GetOr([])))
            && (forall j :: 0 <= j < |uploads| ==> r.documents.Some? && HasFilename(r.documents.value, uploads[j].filename))
            && (link == "" ==> r.wikiLinks == item.wikiLinks)
            && (link != "" ==> r.wikiLinks.Some? && link in r.wikiLinks.value
                               && StartsWith(r.wikiLinks.value, item.wikiLinks.GetOr([])))
            && (NoDuplicates(item.wikiLinks.GetOr([])) ==> NoDuplicates(r.wikiLinks.GetOr([])))
  {
    if NoDuplicates(item.wikiLinks.GetOr([])) {
      AddWikiLinkNoDuplicates(item.wikiLinks, link);
    }
    var docs0 := item.documents.GetOr([]);
    var docs1 := if filesToRemove != [] then Some(RemoveAll(item.documents.value, filesToRemove)) else item.documents;
    if filesToRemove != [] {
      RemoveAllMultiset(docs0, filesToRemove);
      RemoveAllSubsequence(docs0, filesToRemove);
      if UniqueFilenames(docs0) {
        SubsequenceUnique(docs1.value, docs0);
      }
    }
    if uploads != [] {
      AppendNewContents(docs1.GetOr([]), uploads);
      if UniqueFilenames(docs1.GetOr([])) {
        AppendNewUnique(docs1.GetOr([]), uploads);
      }
    }
  }

  /** A subsequence of a list with unique filenames has unique filenames. */
  lemma {:induction false} SubsequenceUnique(a: seq<FileRef>, b: seq<FileRef>)
    requires Subsequence(a, b) && UniqueFilenames(b)
    ensures UniqueFilenames(a)
    decreases |b|
  {
    if a != [] && b != [] {
      assert UniqueFilenames(b[1..]) by {
        forall i, j | 0 <= i < j < |b[1..]|
          ensures b[1..][i].filename != b[1..][j].filename
        {
          assert b[1..][i] == b[i + 1] && b[1..][j] == b[j + 1];
        }
      }
      if a[0] == b[0] && Subsequence(a[1..], b[1..]) {
        SubsequenceUnique(a[1..], b[1..]);
        SubsequenceMembers(a[1..], b[1..]);
        forall i, j | 0 <= i < j < |a|
          ensures a[i].filename != a[j].filename
        {
          if i == 0 {
            assert a[j] == a[1..][j - 1];
            assert a[j] in b[1..];
            var k :| 0 <= k < |b[1..]| && b[1..][k] == a[j];
            assert b[k + 1] == a[j];
          } else {
            assert a[i] == a[1..][i - 1] && a[j] == a[1..][j - 1];
          }
        }
      } else {
        SubsequenceUnique(a, b[1..]);
      }
    }
  }

  /** Index of the first entity with uuid `id`, as the loop with `break`
      and `next(...)` both find it. */
  function FirstIndex(es: seq<Entity>, id: Uuid): (r: Option<nat>)
    ensures r.None? <==> FreshUuid(es, id)
    ensures r.Some? ==> r.value < |es| && es[r.value].uuid == id
                        && forall j :: 0 <= j < r.value ==> es[j].uuid != id
  {
    if es == [] then None
    else if es[0].uuid == id then Some(0)
    else
      var k := FirstIndex(es[1..], id);
      if k.None? then None else Some(k.value + 1)
  }

  /** `next((item for item in entities if item["uuid"] == id), None)`. */
  function CurrentEntity(es: seq<Entity>, id: Uuid): (r: Option<Entity>)
    ensures r.None? <==> FreshUuid(es, id)
    ensures r.Some? ==> r.value in es && r.value.uuid == id
  {
    var k := FirstIndex(es, id);
    if k.Some? then Some(es[k.value]) else None
  }

  /** The entity list after Submit: only the first entity with uuid `id` is
      edited, with the files the user unticked on it. */
  function EditEffect(es: seq<Entity>, id: Uuid, title: string, unchecked: set<string>, uploads: seq<FileRef>, link: string): (r: seq<Entity>)
    ensures |r| == |es|
    ensures forall j :: 0 <= j < |es| ==> r[j].uuid == es[j].uuid
  {
    var k := FirstIndex(es, id);
    if k.None? then es
    else es[k.value := EditedEntity(es[k.value], title, FilesToRemove(Some(es[k.value]), unchecked), uploads, link)]
  }

  /** Only the first matching entity changes: every other position holds the
      same entity as before, the length is unchanged, the edited one gets the
      submitted title and holds a non-empty submitted link (an empty one leaves
      its links alone), and no entity's uuid, sources, model or persona flag
      changes. Without a match the list is unchanged. */
  lemma EditEffectOnlyFirstMatch(es: seq<Entity>, id: Uuid, title: string, unchecked: set<string>, uploads: seq<FileRef>, link: string)
    ensures var r := EditEffect(es, id, title, unchecked, uploads, link);
            var k := FirstIndex(es, id);
            && |r| == |es|
            && (k.None? ==> r == es)
            && (k.Some? ==> r[k.value].title == title && forall j :: 0 <= j < |es| && j != k.value ==> r[j] == es[j])
            && (k.Some? && link == "" ==> r[k.value].wikiLinks == es[k.value].wikiLinks)
            && (k.Some? && link != "" ==> r[k.value].wikiLinks.Some? && link in r[k.value].wikiLinks.value)
            && (forall j :: 0 <= j < |es| ==>
                  r[j] == es[j].(title := r[j].title, documents := r[j].documents, wikiLinks := r[j].wikiLinks))
  {
    var k := FirstIndex(es, id);
    if k.Some? {
      var item := es[k.value];
      EditedEntityFacts(item, title, FilesToRemove(Some(item), unchecked), uploads, link);
    }
  }

  /** The documents of an edited entity: those left after removing the
      unticked ones, followed by the new uploads; filenames unique before
      stay unique, and every uploaded filename is present. */
  lemma EditedDocuments(item: Entity, title: string, unchecked: set<string>, uploads: seq<FileRef>, link: string)
    ensures var before := item.documents.GetOr([]);
            var after := EditedEntity(item, title, FilesToRemove(Some(item), unchecked), uploads, link).documents.GetOr([]);
            && StartsWith(after, RemoveAll(before, Unticked(before, unchecked)))
            && (UniqueFilenames(before) ==> UniqueFilenames(after))
            && (forall j :: 0 <= j < |uploads| ==> HasFilename(after, uploads[j].filename))
  {
    var before := item.documents.GetOr([]);
    var toRemove := FilesToRemove(Some(item), unchecked);
    var docs1 := if toRemove != [] then RemoveAll(before, toRemove) else before;
    assert docs1 == RemoveAll(before, Unticked(before, unchecked));
    if UniqueFilenames(before) {
      RemoveAllSubsequence(before, toRemove);
      SubsequenceUnique(RemoveAll(before, toRemove), before);
    }
    if uploads != [] {
      AppendNewExtends(docs1, uploads);
      AppendNewContents(docs1, uploads);
      if UniqueFilenames(docs1) {
        AppendNewUnique(docs1, uploads);
      }
    } else {
      assert docs1[..|docs1|] == docs1;
    }
  }

  /** The documents of the entity Submit edits: the ticked ones (all of
      them, as a multiset, each unticked one gone) followed by the uploads
      with a new filename; unique filenames stay unique. */
  lemma EditEffectDocuments(es: seq<Entity>, id: Uuid, title: string, unchecked: set<string>, uploads: seq<FileRef>, link: string)
    requires FirstIndex(es, id).Some?
    ensures var k := FirstIndex(es, id).value;
            var r := EditEffect(es, id, title, unchecked, uploads, link);
            var before := es[k].documents.GetOr([]);
            var after := r[k].documents.GetOr([]);
            var kept := RemoveAll(before, Unticked(before, unchecked));
            && multiset(kept) == multiset(Kept(before, unchecked))
            && StartsWith(after, kept)
            && (UniqueFilenames(before) ==> UniqueFilenames(after))
            && (forall j :: 0 <= j < |uploads| ==> HasFilename(after, uploads[j].filename))
  {
    var k := FirstIndex(es, id).value;
    RemoveUntickedLeavesKept(es[k].documents.GetOr([]), unchecked);
    EditedDocuments(es[k], title, unchecked, uploads, link);
  }

  /** The links of the entity Submit edits: an empty link leaves them
      alone; any other is appended unless already present, the list being
      created if absent; and they never gain a duplicate. */
  lemma EditEffectLinks(es: seq<Entity>, id: Uuid, title: string, unchecked: set<string>, uploads: seq<FileRef>, link: string)
    requires FirstIndex(es, id).Some?
    ensures var k := FirstIndex(es, id).value;
            var before := es[k].wikiLinks;
            var after := EditEffect(es, id, title, unchecked, uploads, link)[k].wikiLinks;
            && (link == "" ==> after == before)
            && (link != "" && link in before.GetOr([]) ==> after == Some(before.GetOr([])))
            && (link != "" && link !in before.GetOr([]) ==> after == Some(before.GetOr([]) + [link]))
            && (NoDuplicates(before.GetOr([])) ==> NoDuplicates(after.GetOr([])))
  {
    var k := FirstIndex(es, id).value;
    EditedEntityFacts(es[k], title, FilesToRemove(Some(es[k]), unchecked), uploads, link);
  }

  /** Lines 47-74: the Submit block. The entity loop stops at the first
      entity with uuid `id`; `files_to_remove` was computed from that same
      entity when the dialog was drawn (lines 41-42). */
  method Submit(s: Session, id: Uuid, title: string, unchecked: set<string>, uploads: seq<FileRef>, link: string)
    requires s.entities.Some?
    modifies s
    ensures s.View() == old(s.View()).(entities := Some(EditEffect(old(s.entities.value), id, title, unchecked, uploads, link)))
  {
    var entities := s.entities.value;
    var current := CurrentEntity(entities, id);
    var filesToRemove := SelectFilesToRemove(current, unchecked);
    var i := 0;
    while i < |entities|
      invariant 0 <= i <= |entities|
      invariant forall j :: 0 <= j < i ==> entities[j].uuid != id
    {
      if entities[i].uuid == id {
        var item := entities[i];
        assert FirstIndex(entities, id) == Some(i);
        item := item.(title := title);
        if filesToRemove != [] {
          var docs := RemoveSelected(item.documents.value, filesToRemove);
          item := item.(documents := Some(docs));
        }
        if uploads != [] {
          var docs := AddUploads(item.documents.GetOr([]), uploads);
          item := item.(documents := Some(docs));
        }
        if link != "" {
          var links := item.wikiLinks.GetOr([]);
          if link !in links {
            links := links + [link];
          }
          item := item.(wikiLinks := Some(links));
        }
        entities := entities[i := item];
        break;
      }
      i := i + 1;
    }
    s.entities := Some(entities);
  }

}
