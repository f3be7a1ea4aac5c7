/** The chunk and mentions tables, with the queries that upload, delete and
    reindex run against them.  Tables are kept in creation order. */
module Tables {

  /** One piece of a document as the tokenizer cuts it. */
  datatype Piece = Piece(content: string, tokens: nat)

  /** A row of `chunk`.  `vector` is the length of its embedding.  `model` and
      `fingerprint` say which model and tokenizer produced the row; the
      database does not store them per row, which is why opening must be gated. */
  datatype ChunkRow = ChunkRow(
    id: nat, document: nat, idx: nat, piece: Piece,
    vector: nat, model: string, fingerprint: string)

  /** A `mentions` edge from a chunk to an entity. */
  datatype Mention = Mention(chunk: nat, entity: string)

  // ----- chunk queries -----

  /** `FROM chunk WHERE document = d`. */
  function RowsOf(rows: seq<ChunkRow>, d: nat): seq<ChunkRow> {
    if rows == [] then []
    else (if rows[0].document == d then [rows[0]] else []) + RowsOf(rows[1..], d)
  }

  /** What `DELETE FROM chunk WHERE document = d` leaves. */
  function RowsWithout(rows: seq<ChunkRow>, d: nat): seq<ChunkRow> {
    if rows == [] then []
    else (if rows[0].document == d then [] else [rows[0]]) + RowsWithout(rows[1..], d)
  }

  /** `mention.in.document = d`: the edge starts at a stored chunk of `d`. */
  predicate InDocument(rows: seq<ChunkRow>, chunk: nat, d: nat) {
    exists i :: 0 <= i < |rows| && rows[i].id == chunk && rows[i].document == d
  }

  predicate HasRow(rows: seq<ChunkRow>, chunk: nat) {
    exists i :: 0 <= i < |rows| && rows[i].id == chunk
  }

  // ----- mentions queries -----

  /** Entities one chunk mentions, in creation order. */
  function MentionsOn(mentions: seq<Mention>, chunk: nat): seq<string> {
    if mentions == [] then []
    else (if mentions[0].chunk == chunk then [mentions[0].entity] else []) + MentionsOn(mentions[1..], chunk)
  }

  /** What `DELETE FROM mentions WHERE in.document = d` leaves. */
  function MentionsWithout(mentions: seq<Mention>, rows: seq<ChunkRow>, d: nat): seq<Mention> {
    if mentions == [] then []
    else (if InDocument(rows, mentions[0].chunk, d) then [] else [mentions[0]])
         + MentionsWithout(mentions[1..], rows, d)
  }

  /** The edges `index_chunk_entities_in_transaction` relates for one chunk. */
  function Relate(chunk: nat, names: seq<string>): seq<Mention> {
    seq(|names|, i requires 0 <= i < |names| => Mention(chunk, names[i]))
  }

  // ----- invariants of the tables -----

  /** Record ids are fresh and handed out in creation order. */
  predicate Increasing(rows: seq<ChunkRow>) {
    forall i, j :: 0 <= i < j < |rows| ==> rows[i].id < rows[j].id
  }

  /** The rows of one document are numbered 0, 1, 2, ... without gap or repetition. */
  predicate Numbered(rows: seq<ChunkRow>) {
    forall i :: 0 <= i < |rows| ==> rows[i].idx == i
  }

  /** Every `mentions` edge starts at a stored chunk. */
  predicate Anchored(mentions: seq<Mention>, rows: seq<ChunkRow>) {
    forall i :: 0 <= i < |mentions| ==> HasRow(rows, mentions[i].chunk)
  }

  // ----- laws of the chunk queries -----

  lemma {:induction false} RowsOfConcat(a: seq<ChunkRow>, b: seq<ChunkRow>, d: nat)
    ensures RowsOf(a + b, d) == RowsOf(a, d) + RowsOf(b, d)
  {
    if a == [] {
      assert a + b == b;
    } else {
      assert (a + b)[1..] == a[1..] + b;
      RowsOfConcat(a[1..], b, d);
    }
  }

  lemma {:induction false} RowsOfWithout(rows: seq<ChunkRow>, d: nat, e: nat)
    ensures RowsOf(RowsWithout(rows, d), e) == if d == e then [] else RowsOf(rows, e)
  {
    if rows == [] {
    } else {
      RowsOfWithout(rows[1..], d, e);
      RowsOfConcat(if rows[0].document == d then [] else [rows[0]], RowsWithout(rows[1..], d), e);
    }
  }

  lemma {:induction false} RowsOfUniform(rows: seq<ChunkRow>, d: nat, e: nat)
    requires forall i :: 0 <= i < |rows| ==> rows[i].document == d
    ensures RowsOf(rows, e) == if d == e then rows else []
  {
    if rows == [] {
    } else {
      RowsOfUniform(rows[1..], d, e);
      assert rows == [rows[0]] + rows[1..];
    }
  }

  lemma {:induction false} RowsOfMember(rows: seq<ChunkRow>, d: nat, r: ChunkRow)
    ensures r in RowsOf(rows, d) <==> r in rows && r.document == d
  {
    if rows == [] {
    } else {
      RowsOfMember(rows[1..], d, r);
      assert rows == [rows[0]] + rows[1..];
    }
  }

  lemma {:induction false} RowsWithoutMember(rows: seq<ChunkRow>, d: nat, r: ChunkRow)
    ensures r in RowsWithout(rows, d) <==> r in rows && r.document != d
  {
    if rows == [] {
    } else {
      RowsWithoutMember(rows[1..], d, r);
      assert rows == [rows[0]] + rows[1..];
    }
  }

  lemma {:induction false} RowsWithoutIncreasing(rows: seq<ChunkRow>, d: nat)
    requires Increasing(rows)
    ensures Increasing(RowsWithout(rows, d))
  {
    if rows == [] {
    } else {
      RowsWithoutIncreasing(rows[1..], d);
      forall r | r in RowsWithout(rows[1..], d)
        ensures rows[0].id < r.id
      {
        RowsWithoutMember(rows[1..], d, r);
      }
    }
  }

  /** Deleting the rows of `d` removes exactly the ids that were in `d`. */
  lemma HasRowWithout(rows: seq<ChunkRow>, d: nat, chunk: nat)
    requires Increasing(rows)
    ensures HasRow(RowsWithout(rows, d), chunk) <==> HasRow(rows, chunk) && !InDocument(rows, chunk, d)
  {
    var left := RowsWithout(rows, d);
    if HasRow(left, chunk) {
      var i :| 0 <= i < |left| && left[i].id == chunk;
      RowsWithoutMember(rows, d, left[i]);
      assert left[i] in rows;
    }
    if HasRow(rows, chunk) && !InDocument(rows, chunk, d) {
      var i :| 0 <= i < |rows| && rows[i].id == chunk;
      RowsWithoutMember(rows, d, rows[i]);
      assert rows[i] in left;
    }
  }

  // ----- laws of the mentions queries -----

  lemma {:induction false} MentionsOnConcat(a: seq<Mention>, b: seq<Mention>, chunk: nat)
    ensures MentionsOn(a + b, chunk) == MentionsOn(a, chunk) + MentionsOn(b, chunk)
  {
    if a == [] {
      assert a + b == b;
    } else {
      assert (a + b)[1..] == a[1..] + b;
      MentionsOnConcat(a[1..], b, chunk);
    }
  }

  lemma {:induction false} MentionsOnAbsent(mentions: seq<Mention>, chunk: nat)
    requires forall i :: 0 <= i < |mentions| ==> mentions[i].chunk != chunk
    ensures MentionsOn(mentions, chunk) == []
  {
    if mentions == [] {
    } else {
      MentionsOnAbsent(mentions[1..], chunk);
    }
  }

  lemma {:induction false} MentionsOnRelate(chunk: nat, names: seq<string>)
    ensures MentionsOn(Relate(chunk, names), chunk) == names
  {
    if names == [] {
    } else {
      assert Relate(chunk, names)[1..] == Relate(chunk, names[1..]);
      MentionsOnRelate(chunk, names[1..]);
    }
  }

  lemma {:induction false} MentionsOnWithout(mentions: seq<Mention>, rows: seq<ChunkRow>, d: nat, chunk: nat)
    ensures MentionsOn(MentionsWithout(mentions, rows, d), chunk)
         == if InDocument(rows, chunk, d) then [] else MentionsOn(mentions, chunk)
  {
    if mentions == [] {
    } else {
      MentionsOnWithout(mentions[1..], rows, d, chunk);
      MentionsOnConcat(if InDocument(rows, mentions[0].chunk, d) then [] else [mentions[0]],
                       MentionsWithout(mentions[1..], rows, d), chunk);
    }
  }

  lemma {:induction false} MentionsWithoutMember(mentions: seq<Mention>, rows: seq<ChunkRow>, d: nat, m: Mention)
    ensures m in MentionsWithout(mentions, rows, d) <==> m in mentions && !InDocument(rows, m.chunk, d)
  {
    if mentions == [] {
    } else {
      MentionsWithoutMember(mentions[1..], rows, d, m);
      assert mentions == [mentions[0]] + mentions[1..];
    }
  }

  /** Deleting first the edges and then the rows of `d` leaves no dangling edge. */
  lemma {:induction false} DeleteKeepsAnchored(mentions: seq<Mention>, rows: seq<ChunkRow>, d: nat)
    requires Increasing(rows) && Anchored(mentions, rows)
    ensures Anchored(MentionsWithout(mentions, rows, d), RowsWithout(rows, d))
  {
    var left := MentionsWithout(mentions, rows, d);
    forall i | 0 <= i < |left|
      ensures HasRow(RowsWithout(rows, d), left[i].chunk)
    {
      assert left[i] in left;
      MentionsWithoutMember(mentions, rows, d, left[i]);
      HasRowWithout(rows, d, left[i].chunk);
    }
  }
}
