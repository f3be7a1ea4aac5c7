/** What uploading and deleting do to the documents of a store, one by one. */
module Documents {
  import opened Options
  import opened Tables
  import opened KnowledgeStore
  import opened Commits
  import opened Runs
  import Sections

  // ----- when a document is stored -----

  predicate AllNamed(names: seq<string>) {
    forall j :: 0 <= j < |names| ==> Sections.Clean(names[j]) != ""
  }

  /** The piece has a vector of the field's length, and all its entities have record ids. */
  predicate PieceFits(env: Env, s: Store, c: Config, piece: Piece) {
    env.embed(c, piece.content) == Some(s.fieldDim) && AllNamed(env.entities(piece.content))
  }

  /** The tokenizer accepts the content, every piece fits, and the nested sections
      can be linked. */
  predicate Fits(env: Env, s: Store, c: Config, content: string) {
    && env.split(c, content).Some?
    && (forall i :: 0 <= i < |env.split(c, content).value| ==> PieceFits(env, s, c, env.split(c, content).value[i]))
    && Sections.Links(content)
  }

  lemma FitsIff(env: Env, s: Store, c: Config, content: string)
    requires env.split(c, content).Some?
    ensures Fits(env, s, c, content) <==> Indexes(env, s, c, content, env.split(c, content).value)
  {
    var pieces := env.split(c, content).value;
    EntitiesNamedIff(env, pieces);
    forall i | 0 <= i < |pieces|
      ensures Nameable(env.entities(pieces[i].content)) <==> AllNamed(env.entities(pieces[i].content))
    {
      NameableIff(env.entities(pieces[i].content));
    }
  }

  /** A content is stored exactly when it fits and either is new and comes as new, or is
      already there and comes to replace. */
  lemma SavesIff(env: Env, s: Store, c: Config, title: string, content: string, replace: bool)
    ensures Save(env, s, c, title, content, replace).Some? <==>
            Fits(env, s, c, content) && (replace <==> ShaStored(s.docs, env.sha(content)))
  {
    if env.split(c, content).Some? {
      FitsIff(env, s, c, content);
    }
  }

  /** All the rest of the store is as it was. */
  predicate SameSettings(s: Store, t: Store) {
    t.created == s.created && t.metas == s.metas && t.fieldDim == s.fieldDim && t.indexDim == s.indexDim
  }

  /** Document `id` has the rows of a fresh indexing of the content; no other
      document's rows have changed. */
  ghost predicate OnlyIndexed(env: Env, s: Store, t: Store, c: Config, content: string, id: nat)
    requires env.split(c, content).Some?
  {
    && FreshRows(env, c, Contents(t, id), env.split(c, content).value)
    && forall d: nat :: d != id ==> Contents(t, d) == Contents(s, d)
  }

  /** Filling a cleared document indexes it, and leaves the rest as in `s`. */
  lemma FillIndexes(env: Env, s: Store, u: Store, c: Config, content: string, id: nat)
    requires WellFormed(u) && RowsOf(u.chunks, id) == [] && env.split(c, content).Some?
    requires Embeddable(env, c, env.split(c, content).value, s.fieldDim)
    requires forall d: nat :: d != id ==> Contents(u, d) == Contents(s, d)
    ensures OnlyIndexed(env, s, FillDocument(env, u, c, id, env.split(c, content).value), c, content, id)
  {
    var pieces := env.split(c, content).value;
    IndexedIsFresh(env, c, pieces, s.fieldDim);
    forall d: nat
      ensures Contents(FillDocument(env, u, c, id, pieces), d) ==
              if d == id then IndexedView(env, c, pieces) else Contents(u, d)
    {
      FillContents(env, u, c, id, pieces, d);
    }
  }

  // ----- uploads -----

  /** A new content: one more document, with its rows, and nothing else. */
  lemma Creates(env: Env, s: Store, c: Config, title: string, content: string)
    requires WellFormed(s) && Fits(env, s, c, content) && !ShaStored(s.docs, env.sha(content))
    ensures var t := Save(env, s, c, title, content, false);
            && t.Some? && SameSettings(s, t.value)
            && t.value.docs == s.docs + [Document(s.next, title, env.sha(content), content)]
            && OnlyIndexed(env, s, t.value, c, content, s.next)
  {
    var sha := env.sha(content);
    var u := s.(docs := s.docs + [Document(s.next, title, sha, content)], next := s.next + 1);
    FitsIff(env, s, c, content);
    AddedDocumentWellFormed(s, title, sha, content);
    SameRowsSameContents(s, u);
    FillIndexes(env, s, u, c, content, s.next);
    NewIsSaved(env, s, c, title, content);
  }

  lemma SameRowsSameContents(s: Store, u: Store)
    requires u.chunks == s.chunks && u.mentions == s.mentions
    ensures forall d: nat :: Contents(u, d) == Contents(s, d)
  {
  }

  lemma NewIsSaved(env: Env, s: Store, c: Config, title: string, content: string)
    requires Fits(env, s, c, content) && !ShaStored(s.docs, env.sha(content))
    ensures var u := s.(docs := s.docs + [Document(s.next, title, env.sha(content), content)], next := s.next + 1);
            Save(env, s, c, title, content, false)
            == Some(FillDocument(env, u, c, s.next, env.split(c, content).value))
  {
    SavesIff(env, s, c, title, content, false);
  }

  /** A content that is there already: its document keeps its place and its id, and gets
      the new title, text and rows. */
  lemma Replaces(env: Env, s: Store, c: Config, title: string, content: string, i: nat)
    requires WellFormed(s) && Fits(env, s, c, content) && i < |s.docs| && s.docs[i].sha == env.sha(content)
    ensures var t := Save(env, s, c, title, content, true);
            && t.Some? && SameSettings(s, t.value)
            && t.value.docs == s.docs[i := Document(s.docs[i].id, title, env.sha(content), content)]
            && OnlyIndexed(env, s, t.value, c, content, s.docs[i].id)
  {
    var doc := s.docs[i].(title := title, content := content);
    var u := s.(docs := s.docs[i := doc]);
    FitsIff(env, s, c, content);
    SavesIff(env, s, c, title, content, true);
    assert FindSha(s.docs, env.sha(content)) == Some(i);
    UpdatedDocumentWellFormed(s, i, title, content);
    ClearKeepsWellFormed(u, doc.id);
    OnlyCleared(s, u, doc.id);
    FillIndexes(env, s, ClearDocument(u, doc.id), c, content, doc.id);
  }

  lemma OnlyCleared(s: Store, u: Store, id: nat)
    requires WellFormed(u) && u.chunks == s.chunks && u.mentions == s.mentions
    ensures forall d: nat :: d != id ==> Contents(ClearDocument(u, id), d) == Contents(s, d)
  {
    forall d: nat | d != id
      ensures Contents(ClearDocument(u, id), d) == Contents(s, d)
    {
      ClearContents(u, id, d);
    }
  }

  /** The content is the i-th document now, with rows to match, and the rest is as before. */
  ghost predicate Stored(env: Env, s: Store, t: Store, c: Config, title: string, content: string, i: nat)
    requires i <= |s.docs| && env.split(c, content).Some?
  {
    var id := if i < |s.docs| then s.docs[i].id else s.next;
    && SameSettings(s, t)
    && t.docs == s.docs[..i] + [Document(id, title, env.sha(content), content)]
                 + (if i < |s.docs| then s.docs[i + 1..] else [])
    && OnlyIndexed(env, s, t, c, content, id)
  }

  lemma CreatedIsStored(env: Env, s: Store, c: Config, title: string, content: string)
    requires WellFormed(s) && Fits(env, s, c, content) && !ShaStored(s.docs, env.sha(content))
    ensures var t := Save(env, s, c, title, content, false);
            t.Some? && Stored(env, s, t.value, c, title, content, |s.docs|)
  {
    Creates(env, s, c, title, content);
    assert s.docs[..|s.docs|] == s.docs;
  }

  lemma ReplacedIsStored(env: Env, s: Store, c: Config, title: string, content: string, i: nat)
    requires WellFormed(s) && Fits(env, s, c, content) && i < |s.docs| && s.docs[i].sha == env.sha(content)
    ensures var t := Save(env, s, c, title, content, true);
            t.Some? && Stored(env, s, t.value, c, title, content, i)
  {
    Replaces(env, s, c, title, content, i);
  }

  /** An upload that changes nothing. */
  predicate LeavesAlone(env: Env, s: Store, c: Config, content: string, force: bool) {
    || (ShaStored(s.docs, env.sha(content)) && !force)
    || env.split(c, content) == Some([])
    || !Fits(env, s, c, content)
  }

  lemma UploadSkips(env: Env, s: Store, c: Config, title: string, content: string, force: bool)
    requires LeavesAlone(env, s, c, content, force)
    ensures UploadTo(env, s, c, title, content, force) == s
  {
    var stored := ShaStored(s.docs, env.sha(content));
    if !Fits(env, s, c, content) {
      SavesIff(env, s, c, title, content, force && stored);
    }
  }

  lemma UploadSaves(env: Env, s: Store, c: Config, title: string, content: string, force: bool)
    requires ShaStored(s.docs, env.sha(content)) ==> force
    requires env.split(c, content).Some? && env.split(c, content) != Some([])
    ensures var saved := Save(env, s, c, title, content, ShaStored(s.docs, env.sha(content)));
            saved.Some? ==> UploadTo(env, s, c, title, content, force) == saved.value
  {
    var stored := ShaStored(s.docs, env.sha(content));
    assert (force && stored) == stored;
    assert Apply(env, s, SaveDocument(c, title, content, stored)) == Save(env, s, c, title, content, stored);
  }

  /** `upload`, told by its tests: an unforced upload of a stored content, a content
      without pieces, and one that does not fit leave the store alone; any other is
      stored, in the place of the document with the same hash if there is one. */
  lemma {:induction false} UploadStores(env: Env, s: Store, c: Config, title: string, content: string, force: bool)
      returns (i: nat)
    requires WellFormed(s)
    ensures i <= |s.docs| && (i < |s.docs| ==> s.docs[i].sha == env.sha(content))
    ensures i == |s.docs| ==> !ShaStored(s.docs, env.sha(content))
    ensures var t := UploadTo(env, s, c, title, content, force);
            if LeavesAlone(env, s, c, content, force) then t == s else Stored(env, s, t, c, title, content, i)
  {
    if LeavesAlone(env, s, c, content, force) {
      UploadSkips(env, s, c, title, content, force);
    } else {
      UploadSaves(env, s, c, title, content, force);
    }
    if ShaStored(s.docs, env.sha(content)) {
      i :| 0 <= i < |s.docs| && s.docs[i].sha == env.sha(content);
      if !LeavesAlone(env, s, c, content, force) {
        ReplacedIsStored(env, s, c, title, content, i);
      }
    } else {
      i := |s.docs|;
      if !LeavesAlone(env, s, c, content, force) {
        CreatedIsStored(env, s, c, title, content);
      }
    }
  }

  // ----- deletions -----

  lemma {:induction false} DocsWithoutOther(docs: seq<Document>, id: nat)
    requires !HasDocument(docs, id)
    ensures DocsWithout(docs, id) == docs
  {
    if docs == [] {
    } else {
      assert docs[0].id != id;
      forall i | 0 <= i < |docs[1..]|
        ensures docs[1..][i].id != id
      {
        assert docs[1..][i] == docs[i + 1];
      }
      DocsWithoutOther(docs[1..], id);
    }
  }

  lemma {:induction false} DocsWithoutAt(docs: seq<Document>, k: nat)
    requires DistinctDocs(docs) && k < |docs|
    ensures DocsWithout(docs, docs[k].id) == docs[..k] + docs[k + 1..]
  {
    assert DistinctDocs(docs[1..]);
    if k == 0 {
      DocsWithoutOther(docs[1..], docs[0].id);
    } else {
      DocsWithoutAt(docs[1..], k - 1);
    }
  }

  /** A deletion takes out the document and its rows; a missing id changes nothing. */
  lemma {:induction false} DeleteRemoves(env: Env, s: Store, id: nat)
    requires WellFormed(s)
    ensures var t := DeleteFrom(env, s, id);
            && (!HasDocument(s.docs, id) ==> t == s)
            && SameSettings(s, t) && !HasDocument(t.docs, id)
            && (forall k :: 0 <= k < |s.docs| && s.docs[k].id == id ==> t.docs == s.docs[..k] + s.docs[k + 1..])
            && forall d: nat :: Contents(t, d) == if d == id then [] else Contents(s, d)
  {
    var t := DeleteFrom(env, s, id);
    if k :| 0 <= k < |s.docs| && s.docs[k].id == id {
      assert HasDocument(s.docs, id);
      DocsWithoutAt(s.docs, k);
      DeletedContents(env, s, id);
      DeletedIsGone(s.docs, id);
    } else {
      MissingContents(s, id);
    }
  }

  lemma DeletedIsGone(docs: seq<Document>, id: nat)
    ensures !HasDocument(DocsWithout(docs, id), id)
  {
    forall i | 0 <= i < |DocsWithout(docs, id)|
      ensures DocsWithout(docs, id)[i].id != id
    {
      DocsWithoutMember(docs, id, DocsWithout(docs, id)[i]);
    }
  }

  lemma MissingContents(s: Store, id: nat)
    requires WellFormed(s) && !HasDocument(s.docs, id)
    ensures Contents(s, id) == []
  {
    NoRows(s.chunks, id);
  }

  lemma DeletedContents(env: Env, s: Store, id: nat)
    requires WellFormed(s) && HasDocument(s.docs, id)
    ensures forall d: nat :: Contents(DeleteFrom(env, s, id), d) == if d == id then [] else Contents(s, d)
  {
    forall d: nat
      ensures Contents(DeleteFrom(env, s, id), d) == if d == id then [] else Contents(s, d)
    {
      ClearContents(s, id, d);
      assert Contents(DeleteFrom(env, s, id), d) == Contents(ClearDocument(s, id), d);
    }
  }
}
