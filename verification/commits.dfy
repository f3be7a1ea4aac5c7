/** Every write that is committed to the store as one unit.  A process that is
    killed, or whose commit fails, leaves the store as the last commit left it,
    so a multi-step operation is a sequence of commits and a crash keeps a
    prefix of it. */
module Commits {
  import opened Options
  import opened Tables
  import opened KnowledgeStore
  import opened Versions

  datatype Commit =
    | ApplySchema(dimension: nat)
    | MarkDupChecked
    | InitMetas(config: Config)
    | SetModel(model: string)
    | SetDimension(dimension: nat)
    | SetMaxInput(tokens: nat)
    | SetInfo(key: InfoKey, text: string)
    | SetFingerprint(fingerprint: string)
    | SetMarker(marker: Marker)
    | ClearMarker
    | Transition(dimension: nat)
    | RebuildDocument(config: Config, doc: Document)
    | DefineIndex(dimension: nat)
    | UpdateMetas(config: Config)
    | SaveDocument(config: Config, title: string, content: string, replace: bool)
    | RemoveDocument(id: nat)

  // ----- document table -----

  function FindSha(docs: seq<Document>, sha: string): (r: Option<nat>)
    ensures r.Some? ==> r.value < |docs| && docs[r.value].sha == sha
    ensures r.None? <==> !ShaStored(docs, sha)
  {
    if docs == [] then None
    else if docs[0].sha == sha then Some(0)
    else
      assert !ShaStored(docs[1..], sha) ==> !ShaStored(docs, sha) by {
        if ShaStored(docs, sha) {
          var i :| 0 <= i < |docs| && docs[i].sha == sha;
          assert docs[1..][i - 1].sha == sha;
        }
      }
      match FindSha(docs[1..], sha)
      case None => None
      case Some(i) => Some(i + 1)
  }

  function DocsWithout(docs: seq<Document>, id: nat): seq<Document> {
    if docs == [] then []
    else (if docs[0].id == id then [] else [docs[0]]) + DocsWithout(docs[1..], id)
  }

  // ----- metadata -----

  /** `save_tokenizer_meta` as part of a transaction. */
  function TokenizerMetas(m: Metas, c: Config): Metas {
    m.(info := map[Tokenizer := c.tokenizer, TokenizerSource := c.source, TokenizerAlgorithm := c.algorithm,
                   TokenizerVersion := TOKENIZER_CRATE_VERSION, FingerprintSchema := TOKENIZER_FINGERPRINT_SCHEMA],
       fingerprint := Some(c.fingerprint))
  }

  function ModelMetas(m: Metas, c: Config): Metas {
    m.(model := Some(c.model), dimension := Some(c.dimension),
       maxInput := Some(c.maxInput), schemaVersion := Some(SCHEMA_VERSION))
  }

  // ----- one commit -----

  /** Rebuild one document's chunks and mentions; `None` when the tokenizer
      fails, a vector does not fit the schema, an entity has no record id, or the
      sections cannot be linked. */
  function Rebuild(env: Env, s: Store, c: Config, doc: Document): Option<Store> {
    match env.split(c, doc.content)
    case None => None
    case Some(pieces) =>
      var cleared := ClearDocument(s, doc.id);
      if Indexes(env, cleared, c, doc.content, pieces)
      then Some(FillDocument(env, cleared, c, doc.id, pieces)) else None
  }

  /** Create a document, or with `replace` update the one with the same hash in
      place, together with its chunks and mentions. */
  function Save(env: Env, s: Store, c: Config, title: string, content: string, replace: bool): Option<Store> {
    var sha := env.sha(content);
    match env.split(c, content)
    case None => None
    case Some(pieces) =>
      if !Indexes(env, s, c, content, pieces) then None
      else match FindSha(s.docs, sha)
        case Some(i) =>
          if !replace then None  // document_sha256 is a UNIQUE index
          else
            var doc := s.docs[i].(title := title, content := content);
            Some(FillDocument(env, ClearDocument(s.(docs := s.docs[i := doc]), doc.id), c, doc.id, pieces))
        case None =>
          if replace then None  // "document vanished during upload"
          else
            var doc := Document(s.next, title, sha, content);
            Some(FillDocument(env, s.(docs := s.docs + [doc], next := s.next + 1), c, doc.id, pieces))
  }

  /** Every stored vector has length `d`. */
  predicate Indexable(s: Store, d: nat) {
    forall i :: 0 <= i < |s.chunks| ==> s.chunks[i].vector == d
  }

  /** Defining the index scans the rows that are there, and is refused over a
      vector of another length. */
  function BuildIndex(s: Store, d: nat): Option<Store> {
    if Indexable(s, d) then Some(s.(indexDim := Some(d))) else None
  }

  /** The store after one commit; `None` when the database refuses it. */
  function Apply(env: Env, s: Store, a: Commit): Option<Store> {
    match a
    case ApplySchema(d) =>
      // DEFINE ... IF NOT EXISTS: only what is missing is defined.
      if !s.created then Some(s.(created := true, fieldDim := d, indexDim := Some(d)))
      else if s.indexDim.Some? then Some(s)
      else BuildIndex(s, d)
    case MarkDupChecked => Some(s.(metas := s.metas.(dupChecked := true)))
    case InitMetas(c) => Some(s.(metas := ModelMetas(s.metas, c)))
    case SetModel(m) => Some(s.(metas := s.metas.(model := Some(m))))
    case SetDimension(d) => Some(s.(metas := s.metas.(dimension := Some(d))))
    case SetMaxInput(n) => Some(s.(metas := s.metas.(maxInput := Some(n))))
    case SetInfo(k, v) => Some(s.(metas := s.metas.(info := s.metas.info[k := v])))
    case SetFingerprint(f) => Some(s.(metas := s.metas.(fingerprint := Some(f))))
    case SetMarker(m) => Some(s.(metas := s.metas.(marker := Some(m))))
    case ClearMarker => Some(s.(metas := s.metas.(marker := None)))
    case Transition(d) => Some(s.(mentions := [], chunks := [], indexDim := None, fieldDim := d))
    case RebuildDocument(c, doc) => Rebuild(env, s, c, doc)
    case DefineIndex(d) => if s.indexDim.None? then BuildIndex(s, d) else None
    case UpdateMetas(c) => Some(s.(metas := TokenizerMetas(ModelMetas(s.metas, c), c)))
    case SaveDocument(c, title, content, replace) => Save(env, s, c, title, content, replace)
    case RemoveDocument(id) =>
      if HasDocument(s.docs, id)
      then var cleared := ClearDocument(s, id); Some(cleared.(docs := DocsWithout(cleared.docs, id)))
      else None
  }

  // ----- a sequence of commits -----

  /** The store after all of `plan`; `None` when some commit is refused. */
  function Exec(env: Env, s: Store, plan: seq<Commit>): Option<Store>
    decreases |plan|
  {
    if plan == [] then Some(s)
    else match Apply(env, s, plan[0])
      case None => None
      case Some(t) => Exec(env, t, plan[1..])
  }

  lemma ExecCons(env: Env, s: Store, a: Commit, rest: seq<Commit>)
    ensures Exec(env, s, [a] + rest) == (match Apply(env, s, a) case None => None case Some(t) => Exec(env, t, rest))
  {
    assert ([a] + rest)[1..] == rest;
  }

  lemma ExecSnoc(env: Env, s: Store, p: seq<Commit>, a: Commit)
    ensures Exec(env, s, p + [a]) == (match Exec(env, s, p) case None => None case Some(t) => Apply(env, t, a))
  {
    ExecConcat(env, s, p, [a]);
    if Exec(env, s, p).Some? {
      ExecCons(env, Exec(env, s, p).value, a, []);
      assert [a] == [a] + [];
    }
  }

  lemma {:induction false} ExecConcat(env: Env, s: Store, p: seq<Commit>, q: seq<Commit>)
    ensures Exec(env, s, p + q) == (match Exec(env, s, p) case None => None case Some(t) => Exec(env, t, q))
    decreases |p|
  {
    if p == [] {
      assert p + q == q;
    } else {
      assert (p + q)[1..] == p[1..] + q;
      if Apply(env, s, p[0]).Some? {
        ExecConcat(env, Apply(env, s, p[0]).value, p[1..], q);
      }
    }
  }

  // ----- every commit keeps the tables well formed -----

  /** A rebuild names a stored document; no other commit has a condition. */
  predicate Applicable(s: Store, a: Commit) {
    a.RebuildDocument? ==> HasDocument(s.docs, a.doc.id)
  }

  lemma {:induction false} DocsWithoutMember(docs: seq<Document>, id: nat, doc: Document)
    ensures doc in DocsWithout(docs, id) <==> doc in docs && doc.id != id
  {
    if docs == [] {
    } else {
      DocsWithoutMember(docs[1..], id, doc);
      assert docs == [docs[0]] + docs[1..];
    }
  }

  predicate DistinctDocs(docs: seq<Document>) {
    && (forall i, j :: 0 <= i < j < |docs| ==> docs[i].id != docs[j].id)
    && (forall i, j :: 0 <= i < j < |docs| ==> docs[i].sha != docs[j].sha)
  }

  lemma {:induction false} DocsWithoutDistinct(docs: seq<Document>, id: nat)
    requires DistinctDocs(docs)
    ensures DistinctDocs(DocsWithout(docs, id))
  {
    if docs == [] {
    } else {
      assert DistinctDocs(docs[1..]);
      DocsWithoutDistinct(docs[1..], id);
      forall doc | doc in DocsWithout(docs[1..], id)
        ensures doc.id != docs[0].id && doc.sha != docs[0].sha
      {
        DocsWithoutMember(docs[1..], id, doc);
      }
    }
  }

  lemma UpdatedDocumentWellFormed(s: Store, i: nat, title: string, content: string)
    requires WellFormed(s) && i < |s.docs|
    ensures WellFormed(s.(docs := s.docs[i := s.docs[i].(title := title, content := content)]))
  {
    var u := s.(docs := s.docs[i := s.docs[i].(title := title, content := content)]);
    forall d | HasDocument(s.docs, d)
      ensures HasDocument(u.docs, d)
    {
      var k :| 0 <= k < |s.docs| && s.docs[k].id == d;
      assert u.docs[k].id == d;
    }
  }

  lemma AddedDocumentWellFormed(s: Store, title: string, sha: string, content: string)
    requires WellFormed(s) && !ShaStored(s.docs, sha)
    ensures var u := s.(docs := s.docs + [Document(s.next, title, sha, content)], next := s.next + 1);
            WellFormed(u) && RowsOf(u.chunks, s.next) == []
  {
    var u := s.(docs := s.docs + [Document(s.next, title, sha, content)], next := s.next + 1);
    forall d | HasDocument(s.docs, d)
      ensures HasDocument(u.docs, d)
    {
      var k :| 0 <= k < |s.docs| && s.docs[k].id == d;
      assert u.docs[k].id == d;
    }
    NoRows(s.chunks, s.next);
  }

  lemma {:induction false} NoRows(rows: seq<ChunkRow>, d: nat)
    requires forall i :: 0 <= i < |rows| ==> rows[i].document != d
    ensures RowsOf(rows, d) == []
  {
    if rows == [] {
    } else {
      NoRows(rows[1..], d);
    }
  }

  lemma ReplacedWellFormed(env: Env, s: Store, c: Config, i: nat, title: string, content: string, pieces: seq<Piece>)
    requires WellFormed(s) && i < |s.docs| && VectorsFit(env, s, c, pieces)
    ensures var doc := s.docs[i].(title := title, content := content);
            WellFormed(FillDocument(env, ClearDocument(s.(docs := s.docs[i := doc]), doc.id), c, doc.id, pieces))
  {
    var doc := s.docs[i].(title := title, content := content);
    var u := s.(docs := s.docs[i := doc]);
    UpdatedDocumentWellFormed(s, i, title, content);
    ClearKeepsWellFormed(u, doc.id);
    assert u.docs[i].id == doc.id;
    FillKeepsWellFormed(env, ClearDocument(u, doc.id), c, doc.id, pieces);
  }

  lemma AddedWellFormed(env: Env, s: Store, c: Config, doc: Document, pieces: seq<Piece>)
    requires WellFormed(s) && !ShaStored(s.docs, doc.sha) && doc.id == s.next && VectorsFit(env, s, c, pieces)
    ensures WellFormed(FillDocument(env, s.(docs := s.docs + [doc], next := s.next + 1), c, doc.id, pieces))
  {
    var u := s.(docs := s.docs + [doc], next := s.next + 1);
    AddedDocumentWellFormed(s, doc.title, doc.sha, doc.content);
    assert u.docs[|s.docs|].id == doc.id;
    FillKeepsWellFormed(env, u, c, doc.id, pieces);
  }

  /** What a save that succeeds has met, and what it leaves. */
  lemma SaveResult(env: Env, s: Store, c: Config, title: string, content: string, replace: bool)
    requires Save(env, s, c, title, content, replace).Some?
    ensures env.split(c, content).Some? && VectorsFit(env, s, c, env.split(c, content).value)
    ensures var pieces := env.split(c, content).value;
            Save(env, s, c, title, content, replace).value ==
            match FindSha(s.docs, env.sha(content))
            case Some(i) =>
              var doc := s.docs[i].(title := title, content := content);
              FillDocument(env, ClearDocument(s.(docs := s.docs[i := doc]), doc.id), c, doc.id, pieces)
            case None =>
              var doc := Document(s.next, title, env.sha(content), content);
              FillDocument(env, s.(docs := s.docs + [doc], next := s.next + 1), c, doc.id, pieces)
  {
  }

  lemma SaveKeepsWellFormed(env: Env, s: Store, c: Config, title: string, content: string, replace: bool)
    requires WellFormed(s) && Save(env, s, c, title, content, replace).Some?
    ensures WellFormed(Save(env, s, c, title, content, replace).value)
  {
    var sha := env.sha(content);
    var pieces := env.split(c, content).value;
    SaveResult(env, s, c, title, content, replace);
    match FindSha(s.docs, sha)
    case Some(i) => ReplacedWellFormed(env, s, c, i, title, content, pieces);
    case None => AddedWellFormed(env, s, c, Document(s.next, title, sha, content), pieces);
  }

  lemma RemoveKeepsWellFormed(s: Store, id: nat)
    requires WellFormed(s)
    ensures var t := ClearDocument(s, id); WellFormed(t.(docs := DocsWithout(t.docs, id)))
  {
    var t := ClearDocument(s, id);
    var u := t.(docs := DocsWithout(t.docs, id));
    ClearKeepsWellFormed(s, id);
    DocsWithoutDistinct(s.docs, id);
    forall i | 0 <= i < |u.docs|
      ensures u.docs[i].id < u.next
    {
      DocsWithoutMember(s.docs, id, u.docs[i]);
      assert u.docs[i] in s.docs;
    }
    forall i | 0 <= i < |u.chunks|
      ensures HasDocument(u.docs, u.chunks[i].document)
    {
      var d := u.chunks[i].document;
      RowsWithoutMember(s.chunks, id, u.chunks[i]);
      var k :| 0 <= k < |s.docs| && s.docs[k].id == d;
      DocsWithoutMember(s.docs, id, s.docs[k]);
      assert s.docs[k] in u.docs;
    }
  }

  lemma RebuildKeepsWellFormed(env: Env, s: Store, c: Config, doc: Document)
    requires WellFormed(s) && HasDocument(s.docs, doc.id) && Rebuild(env, s, c, doc).Some?
    ensures WellFormed(Rebuild(env, s, c, doc).value)
  {
    ClearKeepsWellFormed(s, doc.id);
    FillKeepsWellFormed(env, ClearDocument(s, doc.id), c, doc.id, env.split(c, doc.content).value);
  }

  lemma SchemaKeepsWellFormed(env: Env, s: Store, a: Commit)
    requires WellFormed(s) && (!s.created ==> s.chunks == [])
    requires (a.ApplySchema? || a.DefineIndex?) && Apply(env, s, a).Some?
    ensures WellFormed(Apply(env, s, a).value)
  {
  }

  lemma TransitionWellFormed(env: Env, s: Store, d: nat)
    requires WellFormed(s)
    ensures WellFormed(Apply(env, s, Transition(d)).value)
  {
  }

  /** Writes to the `meta` table only. */
  predicate MetaOnly(a: Commit) {
    match a
    case MarkDupChecked => true
    case InitMetas(_) => true
    case SetModel(_) => true
    case SetDimension(_) => true
    case SetMaxInput(_) => true
    case SetInfo(_, _) => true
    case SetFingerprint(_) => true
    case SetMarker(_) => true
    case ClearMarker => true
    case UpdateMetas(_) => true
    case _ => false
  }

  lemma MetaLeavesTables(env: Env, s: Store, a: Commit)
    requires MetaOnly(a)
    ensures Apply(env, s, a).Some? && Apply(env, s, a).value == s.(metas := Apply(env, s, a).value.metas)
  {
  }

  lemma MetaKeepsWellFormed(env: Env, s: Store, a: Commit)
    requires WellFormed(s) && MetaOnly(a)
    ensures WellFormed(Apply(env, s, a).value)
  {
    MetaLeavesTables(env, s, a);
  }

  lemma ApplyKeepsWellFormed(env: Env, s: Store, a: Commit)
    requires WellFormed(s) && (!s.created ==> s.chunks == [])
    requires Applicable(s, a) && Apply(env, s, a).Some?
    ensures WellFormed(Apply(env, s, a).value)
  {
    match a
    case RebuildDocument(c, doc) => RebuildKeepsWellFormed(env, s, c, doc);
    case SaveDocument(c, title, content, replace) => SaveKeepsWellFormed(env, s, c, title, content, replace);
    case RemoveDocument(id) => RemoveKeepsWellFormed(s, id);
    case ApplySchema(d) => SchemaKeepsWellFormed(env, s, a);
    case DefineIndex(d) => SchemaKeepsWellFormed(env, s, a);
    case Transition(d) => TransitionWellFormed(env, s, d);
    case _ => MetaKeepsWellFormed(env, s, a);
  }
}
