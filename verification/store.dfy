/** The persistent store of one knowledge base, and the writes that are
    committed to it one at a time. */
module KnowledgeStore {
  import opened Options
  import opened Tables
  import Sections

  /** A resolved configuration (`resolve_embedding_settings` has run). */
  datatype Config = Config(
    model: string, dimension: nat, maxInput: nat,
    tokenizer: string, source: string, algorithm: string, fingerprint: string,
    maxTokens: nat, overlap: nat)

  /** The code that runs between the queries: the tokenizer (`None` is a
      tokenizer error), the length of the vector the embedder returns for a
      text (`None` is an embedder error), entity extraction, and the content hash. */
  datatype Env = Env(
    split: (Config, string) -> Option<seq<Piece>>,
    embed: (Config, string) -> Option<nat>,
    entities: string -> seq<string>,
    sha: string -> string)

  /** Value of `reindex_in_progress`: what an unfinished reindex was doing. */
  datatype Marker = Dim | Meta

  datatype InfoKey = Tokenizer | TokenizerSource | TokenizerAlgorithm | TokenizerVersion | FingerprintSchema

  /** The `meta` table, one component per key. */
  datatype Metas = Metas(
    model: Option<string>, dimension: Option<nat>, maxInput: Option<nat>, schemaVersion: Option<string>,
    info: map<InfoKey, string>, fingerprint: Option<string>,
    marker: Option<Marker>, dupChecked: bool)

  datatype Document = Document(id: nat, title: string, sha: string, content: string)

  /** `fieldDim` is the length the `embedding` field asserts; `indexDim` the
      dimension of the HNSW index, if it is defined. */
  datatype Store = Store(
    created: bool, metas: Metas, fieldDim: nat, indexDim: Option<nat>,
    docs: seq<Document>, chunks: seq<ChunkRow>, mentions: seq<Mention>, next: nat)

  const SCHEMA_VERSION := "1"

  const NO_METAS := Metas(None, None, None, None, map[], None, None, false)

  /** A data directory before its first open. */
  const EMPTY_STORE := Store(false, NO_METAS, 0, None, [], [], [], 0)

  // ----- rows of one document -----

  /** Length of a text's vector, where the embedder returns one. */
  function VectorOf(env: Env, c: Config, text: string): nat {
    match env.embed(c, text)
    case Some(n) => n
    case None => 0
  }

  /** Ids of the entity records that go by these names. */
  function Ids(names: seq<string>): seq<string> {
    if names == [] then [] else Ids(names[..|names| - 1]) + [Sections.Clean(names[|names| - 1])]
  }

  /** The entities a text mentions. */
  function EntityIds(env: Env, text: string): seq<string> {
    Ids(env.entities(text))
  }

  function NewRows(env: Env, c: Config, d: nat, pieces: seq<Piece>, next: nat): seq<ChunkRow> {
    seq(|pieces|, i requires 0 <= i < |pieces| =>
      ChunkRow(next + i, d, i, pieces[i], VectorOf(env, c, pieces[i].content), c.model, c.fingerprint))
  }

  function NewMentions(env: Env, pieces: seq<Piece>, next: nat): seq<Mention> {
    if pieces == [] then []
    else Relate(next, EntityIds(env, pieces[0].content)) + NewMentions(env, pieces[1..], next + 1)
  }

  /** `DELETE FROM mentions WHERE in.document = d; DELETE FROM chunk WHERE document = d`. */
  function ClearDocument(s: Store, d: nat): Store {
    s.(mentions := MentionsWithout(s.mentions, s.chunks, d), chunks := RowsWithout(s.chunks, d))
  }

  /** Create the rows and mentions of document `d` for the given pieces. */
  function FillDocument(env: Env, s: Store, c: Config, d: nat, pieces: seq<Piece>): Store {
    s.(chunks := s.chunks + NewRows(env, c, d, pieces, s.next),
       mentions := s.mentions + NewMentions(env, pieces, s.next),
       next := s.next + |pieces|)
  }

  /** Every text is embedded, as a vector of length `dim`. */
  predicate Embeddable(env: Env, c: Config, pieces: seq<Piece>, dim: nat) {
    forall i :: 0 <= i < |pieces| ==> env.embed(c, pieces[i].content) == Some(dim)
  }

  /** The vectors have the length the schema asserts. */
  predicate VectorsFit(env: Env, s: Store, c: Config, pieces: seq<Piece>) {
    Embeddable(env, c, pieces, s.fieldDim)
  }

  /** Each of the names is left with a record id. */
  predicate Nameable(names: seq<string>) {
    names == [] || (Nameable(names[..|names| - 1]) && Sections.Clean(names[|names| - 1]) != "")
  }

  /** So is each name extracted from the pieces. */
  predicate EntitiesNamed(env: Env, pieces: seq<Piece>) {
    pieces == [] ||
    (EntitiesNamed(env, pieces[..|pieces| - 1]) && Nameable(env.entities(pieces[|pieces| - 1].content)))
  }

  lemma {:induction false} NameableIff(names: seq<string>)
    ensures Nameable(names) <==> forall i :: 0 <= i < |names| ==> Sections.Clean(names[i]) != ""
  {
    if names == [] {
    } else {
      NameableIff(names[..|names| - 1]);
    }
  }

  lemma {:induction false} EntitiesNamedIff(env: Env, pieces: seq<Piece>)
    ensures EntitiesNamed(env, pieces) <==>
            forall i :: 0 <= i < |pieces| ==> Nameable(env.entities(pieces[i].content))
  {
    if pieces == [] {
    } else {
      EntitiesNamedIff(env, pieces[..|pieces| - 1]);
    }
  }

  /** Naming stops at the first name without a record id. */
  lemma NamedUpTo(names: seq<string>, j: nat)
    requires j < |names|
    ensures Nameable(names[..j + 1]) <==> Nameable(names[..j]) && Sections.Clean(names[j]) != ""
    ensures Nameable(names) ==> Nameable(names[..j + 1])
    ensures Ids(names[..j + 1]) == Ids(names[..j]) + [Sections.Clean(names[j])]
  {
    assert names[..j + 1][..j] == names[..j];
    NameableIff(names);
    NameableIff(names[..j + 1]);
  }

  lemma EntitiesNamedUpTo(env: Env, pieces: seq<Piece>, i: nat)
    requires i < |pieces|
    ensures EntitiesNamed(env, pieces[..i + 1]) <==>
            EntitiesNamed(env, pieces[..i]) && Nameable(env.entities(pieces[i].content))
    ensures EntitiesNamed(env, pieces) ==> EntitiesNamed(env, pieces[..i + 1])
  {
    assert pieces[..i + 1][..i] == pieces[..i];
    EntitiesNamedIff(env, pieces);
    EntitiesNamedIff(env, pieces[..i + 1]);
  }

  /** A document that can be indexed: its vectors fit, its entities have records,
      and its sections can be linked. */
  predicate Indexes(env: Env, s: Store, c: Config, content: string, pieces: seq<Piece>) {
    VectorsFit(env, s, c, pieces) && EntitiesNamed(env, pieces) && Sections.Links(content)
  }

  // ----- what a document looks like, record ids left out -----

  datatype RowView = RowView(idx: nat, piece: Piece, vector: nat, model: string, fingerprint: string,
                             entities: seq<string>)

  function View(rows: seq<ChunkRow>, mentions: seq<Mention>): seq<RowView> {
    seq(|rows|, i requires 0 <= i < |rows| =>
      RowView(rows[i].idx, rows[i].piece, rows[i].vector, rows[i].model, rows[i].fingerprint,
              MentionsOn(mentions, rows[i].id)))
  }

  /** The chunks of one document in order, with the entities each mentions. */
  function Contents(s: Store, d: nat): seq<RowView> {
    View(RowsOf(s.chunks, d), s.mentions)
  }

  /** What a document's chunks look like right after indexing under `c`. */
  function IndexedView(env: Env, c: Config, pieces: seq<Piece>): seq<RowView> {
    seq(|pieces|, i requires 0 <= i < |pieces| =>
      RowView(i, pieces[i], VectorOf(env, c, pieces[i].content), c.model, c.fingerprint,
              EntityIds(env, pieces[i].content)))
  }

  /** The record ids of these names, in order. */
  predicate NamedBy(ids: seq<string>, names: seq<string>) {
    |ids| == |names| && forall j :: 0 <= j < |names| ==> ids[j] == Sections.Clean(names[j])
  }

  /** Row number i of a document: the piece, its vector under `c`, the model and
      tokenizer of `c`, and the entities extracted from it. */
  predicate FreshRow(env: Env, c: Config, row: RowView, i: nat, piece: Piece) {
    && row.idx == i && row.piece == piece && env.embed(c, piece.content) == Some(row.vector)
    && row.model == c.model && row.fingerprint == c.fingerprint
    && NamedBy(row.entities, env.entities(piece.content))
  }

  /** One row per piece, numbered from zero. */
  predicate FreshRows(env: Env, c: Config, rows: seq<RowView>, pieces: seq<Piece>) {
    |rows| == |pieces| && forall i :: 0 <= i < |pieces| ==> FreshRow(env, c, rows[i], i, pieces[i])
  }

  lemma {:induction false} IdsNamed(names: seq<string>)
    ensures NamedBy(Ids(names), names)
  {
    if names == [] {
    } else {
      IdsNamed(names[..|names| - 1]);
    }
  }

  lemma IndexedIsFresh(env: Env, c: Config, pieces: seq<Piece>, dim: nat)
    requires Embeddable(env, c, pieces, dim)
    ensures FreshRows(env, c, IndexedView(env, c, pieces), pieces)
  {
    forall i | 0 <= i < |pieces|
      ensures FreshRow(env, c, IndexedView(env, c, pieces)[i], i, pieces[i])
    {
      IdsNamed(env.entities(pieces[i].content));
    }
  }

  // ----- structural invariant -----

  predicate HasDocument(docs: seq<Document>, id: nat) {
    exists i :: 0 <= i < |docs| && docs[i].id == id
  }

  predicate ShaStored(docs: seq<Document>, sha: string) {
    exists i :: 0 <= i < |docs| && docs[i].sha == sha
  }

  /** Document ids are fresh and at most one document has a given hash. */
  predicate DocumentsOk(s: Store) {
    && (forall i :: 0 <= i < |s.docs| ==> s.docs[i].id < s.next)
    && (forall i, j :: 0 <= i < j < |s.docs| ==> s.docs[i].id != s.docs[j].id)
    && (forall i, j :: 0 <= i < j < |s.docs| ==> s.docs[i].sha != s.docs[j].sha)
  }

  /** Every chunk belongs to a stored document and fits the schema. */
  ghost predicate ChunksOk(s: Store) {
    && Increasing(s.chunks)
    && (forall i :: 0 <= i < |s.chunks| ==>
          s.chunks[i].id < s.next && s.chunks[i].vector == s.fieldDim && HasDocument(s.docs, s.chunks[i].document))
    && (forall d: nat :: Numbered(RowsOf(s.chunks, d)))
  }

  ghost predicate WellFormed(s: Store) {
    DocumentsOk(s) && ChunksOk(s) && Anchored(s.mentions, s.chunks)
  }

  // ----- laws of filling and clearing -----

  lemma MentionsOnFirst(next: nat, ids: seq<string>, rest: seq<Mention>, chunk: nat)
    ensures MentionsOn(Relate(next, ids) + rest, chunk) ==
            (if chunk == next then ids else []) + MentionsOn(rest, chunk)
  {
    MentionsOnConcat(Relate(next, ids), rest, chunk);
    if chunk == next {
      MentionsOnRelate(next, ids);
    } else {
      MentionsOnAbsent(Relate(next, ids), chunk);
    }
  }

  lemma {:induction false} MentionsOnNew(env: Env, pieces: seq<Piece>, next: nat, chunk: nat)
    ensures MentionsOn(NewMentions(env, pieces, next), chunk)
         == if next <= chunk < next + |pieces| then EntityIds(env, pieces[chunk - next].content) else []
  {
    if pieces == [] {
    } else {
      var ids, rest := EntityIds(env, pieces[0].content), NewMentions(env, pieces[1..], next + 1);
      MentionsOnFirst(next, ids, rest, chunk);
      MentionsOnNew(env, pieces[1..], next + 1, chunk);
      assert ids + [] == ids && [] + MentionsOn(rest, chunk) == MentionsOn(rest, chunk);
      if next < chunk < next + |pieces| {
        assert pieces[1..][chunk - (next + 1)] == pieces[chunk - next];
      }
    }
  }

  lemma {:induction false} NewMentionsRange(env: Env, pieces: seq<Piece>, next: nat, i: nat)
    requires i < |NewMentions(env, pieces, next)|
    ensures next <= NewMentions(env, pieces, next)[i].chunk < next + |pieces|
  {
    var first := Relate(next, EntityIds(env, pieces[0].content));
    if i < |first| {
    } else {
      NewMentionsRange(env, pieces[1..], next + 1, i - |first|);
    }
  }

  lemma {:induction false} ClearKeepsWellFormed(s: Store, d: nat)
    requires WellFormed(s)
    ensures WellFormed(ClearDocument(s, d))
    ensures RowsOf(ClearDocument(s, d).chunks, d) == []
  {
    var t := ClearDocument(s, d);
    RowsWithoutIncreasing(s.chunks, d);
    DeleteKeepsAnchored(s.mentions, s.chunks, d);
    forall i | 0 <= i < |t.chunks|
      ensures t.chunks[i].id < t.next && t.chunks[i].vector == t.fieldDim && HasDocument(t.docs, t.chunks[i].document)
    {
      RowsWithoutMember(s.chunks, d, t.chunks[i]);
      assert t.chunks[i] in s.chunks;
    }
    forall e: nat
      ensures Numbered(RowsOf(t.chunks, e))
    {
      RowsOfWithout(s.chunks, d, e);
    }
    RowsOfWithout(s.chunks, d, d);
  }

  lemma FillKeepsNumbering(env: Env, s: Store, c: Config, d: nat, pieces: seq<Piece>, e: nat)
    requires WellFormed(s) && RowsOf(s.chunks, d) == []
    ensures Numbered(RowsOf(FillDocument(env, s, c, d, pieces).chunks, e))
  {
    FillRows(env, s, c, d, pieces, e);
  }

  lemma FillKeepsAnchored(env: Env, s: Store, c: Config, d: nat, pieces: seq<Piece>)
    requires Anchored(s.mentions, s.chunks)
    ensures var t := FillDocument(env, s, c, d, pieces); Anchored(t.mentions, t.chunks)
  {
    var t := FillDocument(env, s, c, d, pieces);
    forall i | 0 <= i < |t.mentions|
      ensures HasRow(t.chunks, t.mentions[i].chunk)
    {
      var chunk := t.mentions[i].chunk;
      if i < |s.mentions| {
        var k :| 0 <= k < |s.chunks| && s.chunks[k].id == s.mentions[i].chunk;
        assert t.chunks[k].id == chunk;
      } else {
        NewMentionsRange(env, pieces, s.next, i - |s.mentions|);
        var k := |s.chunks| + (chunk - s.next);
        assert t.chunks[k].id == chunk;
      }
    }
  }

  lemma {:induction false} FillKeepsWellFormed(env: Env, s: Store, c: Config, d: nat, pieces: seq<Piece>)
    requires WellFormed(s) && HasDocument(s.docs, d) && RowsOf(s.chunks, d) == []
    requires VectorsFit(env, s, c, pieces)
    ensures WellFormed(FillDocument(env, s, c, d, pieces))
  {
    var t := FillDocument(env, s, c, d, pieces);
    FillKeepsAnchored(env, s, c, d, pieces);
    forall e: nat
      ensures Numbered(RowsOf(t.chunks, e))
    {
      FillKeepsNumbering(env, s, c, d, pieces, e);
    }
    assert Increasing(t.chunks);
    assert DocumentsOk(t);
  }

  /** Clearing a document leaves every other document exactly as it was. */
  lemma ClearContents(s: Store, d: nat, e: nat)
    requires WellFormed(s)
    ensures Contents(ClearDocument(s, d), e) == if d == e then [] else Contents(s, e)
  {
    RowsOfWithout(s.chunks, d, e);
    if d != e {
      var rows := RowsOf(s.chunks, e);
      forall i | 0 <= i < |rows|
        ensures MentionsOn(ClearDocument(s, d).mentions, rows[i].id) == MentionsOn(s.mentions, rows[i].id)
      {
        RowsOfMember(s.chunks, e, rows[i]);
        MentionsOnWithout(s.mentions, s.chunks, d, rows[i].id);
        IdDeterminesRow(s, rows[i]);
      }
    }
  }

  lemma IdDeterminesRow(s: Store, r: ChunkRow)
    requires WellFormed(s) && r in s.chunks
    ensures forall d :: InDocument(s.chunks, r.id, d) <==> d == r.document
  {
    var k :| 0 <= k < |s.chunks| && s.chunks[k] == r;
    forall d | InDocument(s.chunks, r.id, d)
      ensures d == r.document
    {
      var i :| 0 <= i < |s.chunks| && s.chunks[i].id == r.id && s.chunks[i].document == d;
      assert i == k;
    }
  }

  /** Rows of each document after filling document `d`. */
  lemma FillRows(env: Env, s: Store, c: Config, d: nat, pieces: seq<Piece>, e: nat)
    requires RowsOf(s.chunks, d) == []
    ensures RowsOf(FillDocument(env, s, c, d, pieces).chunks, e)
         == if d == e then NewRows(env, c, d, pieces, s.next) else RowsOf(s.chunks, e)
  {
    var rows := NewRows(env, c, d, pieces, s.next);
    RowsOfConcat(s.chunks, rows, e);
    RowsOfUniform(rows, d, e);
    assert [] + rows == rows && RowsOf(s.chunks, e) + [] == RowsOf(s.chunks, e);
  }

  /** Mentions of each chunk after filling. */
  lemma FillMentions(env: Env, s: Store, c: Config, d: nat, pieces: seq<Piece>, chunk: nat)
    requires WellFormed(s)
    ensures MentionsOn(FillDocument(env, s, c, d, pieces).mentions, chunk)
         == if s.next <= chunk < s.next + |pieces| then EntityIds(env, pieces[chunk - s.next].content)
            else MentionsOn(s.mentions, chunk)
  {
    var more := NewMentions(env, pieces, s.next);
    MentionsOnConcat(s.mentions, more, chunk);
    MentionsOnNew(env, pieces, s.next, chunk);
    if s.next <= chunk < s.next + |pieces| {
      MentionsBelowNext(s, chunk);
      assert [] + MentionsOn(more, chunk) == MentionsOn(more, chunk);
    } else {
      assert MentionsOn(s.mentions, chunk) + [] == MentionsOn(s.mentions, chunk);
    }
  }

  lemma ViewAgrees(rows: seq<ChunkRow>, before: seq<Mention>, after: seq<Mention>)
    requires forall i :: 0 <= i < |rows| ==> MentionsOn(after, rows[i].id) == MentionsOn(before, rows[i].id)
    ensures View(rows, after) == View(rows, before)
  {
  }

  lemma FilledView(env: Env, c: Config, d: nat, pieces: seq<Piece>, id: nat, mentions: seq<Mention>)
    requires forall i :: 0 <= i < |pieces| ==> MentionsOn(mentions, id + i) == EntityIds(env, pieces[i].content)
    ensures View(NewRows(env, c, d, pieces, id), mentions) == IndexedView(env, c, pieces)
  {
  }

  lemma FilledMentionsAt(env: Env, s: Store, c: Config, d: nat, pieces: seq<Piece>, i: nat)
    requires WellFormed(s) && i < |pieces|
    ensures MentionsOn(FillDocument(env, s, c, d, pieces).mentions, s.next + i) == EntityIds(env, pieces[i].content)
  {
    FillMentions(env, s, c, d, pieces, s.next + i);
  }

  lemma FilledMentions(env: Env, s: Store, c: Config, d: nat, pieces: seq<Piece>)
    requires WellFormed(s)
    ensures var mentions := FillDocument(env, s, c, d, pieces).mentions;
            forall i :: 0 <= i < |pieces| ==> MentionsOn(mentions, s.next + i) == EntityIds(env, pieces[i].content)
  {
    forall i | 0 <= i < |pieces|
      ensures MentionsOn(FillDocument(env, s, c, d, pieces).mentions, s.next + i) == EntityIds(env, pieces[i].content)
    {
      FilledMentionsAt(env, s, c, d, pieces, i);
    }
  }

  lemma OtherMentions(env: Env, s: Store, c: Config, d: nat, pieces: seq<Piece>, rows: seq<ChunkRow>)
    requires WellFormed(s) && forall i :: 0 <= i < |rows| ==> rows[i].id < s.next
    ensures var mentions := FillDocument(env, s, c, d, pieces).mentions;
            forall i :: 0 <= i < |rows| ==> MentionsOn(mentions, rows[i].id) == MentionsOn(s.mentions, rows[i].id)
  {
    forall i | 0 <= i < |rows|
      ensures MentionsOn(FillDocument(env, s, c, d, pieces).mentions, rows[i].id) == MentionsOn(s.mentions, rows[i].id)
    {
      FillMentions(env, s, c, d, pieces, rows[i].id);
    }
  }

  lemma RowIdsBelowNext(s: Store, e: nat)
    requires WellFormed(s)
    ensures forall i :: 0 <= i < |RowsOf(s.chunks, e)| ==> RowsOf(s.chunks, e)[i].id < s.next
  {
    forall i | 0 <= i < |RowsOf(s.chunks, e)|
      ensures RowsOf(s.chunks, e)[i].id < s.next
    {
      RowsOfMember(s.chunks, e, RowsOf(s.chunks, e)[i]);
    }
  }

  lemma OwnView(env: Env, s: Store, c: Config, d: nat, pieces: seq<Piece>)
    requires WellFormed(s)
    ensures View(NewRows(env, c, d, pieces, s.next), FillDocument(env, s, c, d, pieces).mentions)
         == IndexedView(env, c, pieces)
  {
    FilledMentions(env, s, c, d, pieces);
    FilledView(env, c, d, pieces, s.next, FillDocument(env, s, c, d, pieces).mentions);
  }

  lemma OtherView(env: Env, s: Store, c: Config, d: nat, pieces: seq<Piece>, e: nat)
    requires WellFormed(s)
    ensures View(RowsOf(s.chunks, e), FillDocument(env, s, c, d, pieces).mentions) == Contents(s, e)
  {
    RowIdsBelowNext(s, e);
    OtherMentions(env, s, c, d, pieces, RowsOf(s.chunks, e));
    ViewAgrees(RowsOf(s.chunks, e), s.mentions, FillDocument(env, s, c, d, pieces).mentions);
  }

  /** Filling a cleared document produces its indexed view and touches no other. */
  lemma {:induction false} FillContents(env: Env, s: Store, c: Config, d: nat, pieces: seq<Piece>, e: nat)
    requires WellFormed(s) && RowsOf(s.chunks, d) == []
    ensures Contents(FillDocument(env, s, c, d, pieces), e)
         == if d == e then IndexedView(env, c, pieces) else Contents(s, e)
  {
    FillRows(env, s, c, d, pieces, e);
    if d == e {
      OwnView(env, s, c, d, pieces);
    } else {
      OtherView(env, s, c, d, pieces, e);
    }
  }

  lemma MentionsBelowNext(s: Store, chunk: nat)
    requires WellFormed(s) && s.next <= chunk
    ensures MentionsOn(s.mentions, chunk) == []
  {
    forall i | 0 <= i < |s.mentions|
      ensures s.mentions[i].chunk != chunk
    {
      assert HasRow(s.chunks, s.mentions[i].chunk);
    }
    MentionsOnAbsent(s.mentions, chunk);
  }
}
