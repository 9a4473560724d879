/** Ingesting prepared guides: inserts and upserts for every guide in one transaction, ended by a
    check that compares counts only. */
module GuideIngest {
  import opened Options
  import opened Elements
  import opened ScopedSearch

  /** The row ids are derived from the scope and the model, so they are part of the preparation. */
  datatype Prepared = Prepared(
    scope: Scope, document: nat, source: nat, legacyGeneration: nat, bgeGeneration: nat,
    chunks: seq<nat>, legacyVectors: seq<Vector>, bgeVectors: seq<Vector>)

  /** `ON CONFLICT (chunk_id) DO NOTHING`. */
  function InsertMissing(chunks: map<nat, Chunk>, ids: seq<nat>, row: Chunk): map<nat, Chunk> {
    if ids == [] then chunks
    else
      var before, id := InsertMissing(chunks, ids[..|ids| - 1], row), ids[|ids| - 1];
      if id in before then before else before[id := row]
  }

  /** `ON CONFLICT DO UPDATE SET status, embedding`; the organization of an old row stays. */
  function Upserted(rows: Embeddings, key: (nat, nat), organization: nat, vector: Vector): Embeddings {
    rows[key := Embedding(if key in rows then rows[key].organization else organization, true, vector)]
  }

  function UpsertAll(rows: Embeddings, g: nat, organization: nat, ids: seq<nat>, vectors: seq<Vector>): Embeddings
    requires |ids| == |vectors|
  {
    if ids == [] then rows
    else
      var n := |ids| - 1;
      Upserted(UpsertAll(rows, g, organization, ids[..n], vectors[..n]), (g, ids[n]), organization, vectors[n])
  }

  function Activated(generations: map<nat, Generation>, g: nat, row: Generation): map<nat, Generation> {
    generations[g := if g in generations then generations[g].(active := true) else row]
  }

  function ReadyChunks(chunks: map<nat, Chunk>, document: nat): set<nat> {
    set c | c in chunks && chunks[c].document == document && chunks[c].ready
  }

  function ReadyEmbeddings(rows: Embeddings, g: nat): set<nat> {
    set key | key in rows && key.0 == g && rows[key].ready :: key.1
  }

  predicate Conflicts(db: Db, p: Prepared) {
    || (exists d :: d in db.documents && db.documents[d].scope == p.scope &&
                    (d != p.document || db.documents[d].source != p.source))
    || (p.document in db.documents && db.documents[p.document].scope != p.scope)
    || |p.legacyVectors| != |p.chunks|
    || |p.bgeVectors| != |p.chunks|
  }

  /** All writes for one guide, before the check. */
  function Written(db: Db, p: Prepared): Db
    requires !Conflicts(db, p)
  {
    var org := p.scope.organization;
    Db(
      if p.document in db.documents then db.documents
      else db.documents[p.document := Document(p.scope, Approved, p.source)],
      InsertMissing(db.chunks, p.chunks, Chunk(p.document, p.scope, true)),
      Activated(Activated(db.generations, p.legacyGeneration, Generation(org, p.document, 32, true)),
                p.bgeGeneration, Generation(org, p.document, 1024, true)),
      UpsertAll(db.legacy, p.legacyGeneration, org, p.chunks, p.legacyVectors),
      UpsertAll(db.bge, p.bgeGeneration, org, p.chunks, p.bgeVectors),
      db.active[p.scope := p.legacyGeneration],
      db.activeByDimension[(p.scope, 32) := p.legacyGeneration][(p.scope, 1024) := p.bgeGeneration])
  }

  predicate CountsMatch(db: Db, p: Prepared) {
    && |ReadyChunks(db.chunks, p.document)| == |p.chunks|
    && |ReadyEmbeddings(db.legacy, p.legacyGeneration)| == |p.chunks|
    && |ReadyEmbeddings(db.bge, p.bgeGeneration)| == |p.chunks|
  }

  /** `None`: the guide raised. */
  function Activate(db: Db, p: Prepared): Option<Db> {
    if Conflicts(db, p) then None
    else if CountsMatch(Written(db, p), p) then Some(Written(db, p)) else None
  }

  function IngestAll(db: Db, guides: seq<Prepared>): Option<Db> {
    if guides == [] then Some(db)
    else
      match IngestAll(db, guides[..|guides| - 1])
      case None => None
      case Some(before) => Activate(before, guides[|guides| - 1])
  }

  lemma {:induction false} FailureSpreads(db: Db, guides: seq<Prepared>, k: nat)
    requires k <= |guides| && IngestAll(db, guides[..k]).None?
    ensures IngestAll(db, guides).None?
    decreases |guides| - k
  {
    if k == |guides| {
      assert guides[..k] == guides;
    } else {
      assert guides[..k + 1][..k] == guides[..k];
      FailureSpreads(db, guides, k + 1);
    }
  }

  // ---------------------------------------------------------------- the database

  class GuideDatabase {
    var tables: Db

    constructor (initial: Db)
      ensures tables == initial
    {
      tables := initial;
    }

    /** One transaction over all guides: everything is committed or nothing changes. */
    method Ingest(guides: seq<Prepared>) returns (ok: bool)
      modifies this
      ensures ok == IngestAll(old(tables), guides).Some?
      ensures ok ==> IngestAll(old(tables), guides) == Some(tables)
      ensures !ok ==> tables == old(tables)
    {
      var work := tables;
      for i := 0 to |guides|
        invariant IngestAll(old(tables), guides[..i]) == Some(work)
        invariant tables == old(tables)
      {
        assert guides[..i + 1][..i] == guides[..i];
        var next := ActivateGuide(work, guides[i]);
        if next.None? {
          FailureSpreads(tables, guides, i + 1);
          return false;
        }
        work := next.value;
      }
      assert guides[..|guides|] == guides;
      tables := work;
      return true;
    }
  }

  /** One guide inside the transaction: `None` when it raises. For different chunk ids that is so
      exactly when the tables before it do not admit it. */
  method ActivateGuide(db: Db, p: Prepared) returns (after: Option<Db>)
    ensures after == Activate(db, p)
    ensures Distinct(p.chunks) ==> (after.Some? <==> Committable(db, p))
  {
    if Distinct(p.chunks) {
      CommitsExactly(db, p);
    }
    if Conflicts(db, p) {
      return None;
    }
    var next := WriteGuide(db, p);
    return if CountsMatch(next, p) then Some(next) else None;
  }

  method WriteGuide(db: Db, p: Prepared) returns (next: Db)
    requires !Conflicts(db, p)
    ensures next == Written(db, p)
  {
    var org := p.scope.organization;
    var documents := db.documents;
    if p.document !in documents {
      documents := documents[p.document := Document(p.scope, Approved, p.source)];
    }
    var chunks := InsertChunks(db.chunks, p.chunks, Chunk(p.document, p.scope, true));
    var generations := UpsertGeneration(db.generations, p.legacyGeneration, Generation(org, p.document, 32, true));
    var legacy := UpsertEmbeddings(db.legacy, p.legacyGeneration, org, p.chunks, p.legacyVectors);
    generations := UpsertGeneration(generations, p.bgeGeneration, Generation(org, p.document, 1024, true));
    var bge := UpsertEmbeddings(db.bge, p.bgeGeneration, org, p.chunks, p.bgeVectors);
    var active := db.active[p.scope := p.legacyGeneration];
    var byDimension := db.activeByDimension[(p.scope, 32) := p.legacyGeneration];
    byDimension := byDimension[(p.scope, 1024) := p.bgeGeneration];
    next := Db(documents, chunks, generations, legacy, bge, active, byDimension);
  }

  /** `ON CONFLICT DO UPDATE SET status = 'ACTIVE'`. */
  method UpsertGeneration(generations: map<nat, Generation>, g: nat, row: Generation)
    returns (after: map<nat, Generation>)
    ensures after == Activated(generations, g, row)
  {
    if g in generations {
      after := generations[g := generations[g].(active := true)];
    } else {
      after := generations[g := row];
    }
  }

  method InsertChunks(chunks: map<nat, Chunk>, ids: seq<nat>, row: Chunk) returns (after: map<nat, Chunk>)
    ensures after == InsertMissing(chunks, ids, row)
  {
    after := chunks;
    for i := 0 to |ids|
      invariant after == InsertMissing(chunks, ids[..i], row)
    {
      assert ids[..i + 1][..i] == ids[..i];
      if ids[i] !in after {
        after := after[ids[i] := row];
      }
    }
    assert ids[..|ids|] == ids;
  }

  method UpsertEmbeddings(rows: Embeddings, g: nat, organization: nat, ids: seq<nat>, vectors: seq<Vector>)
    returns (after: Embeddings)
    requires |ids| == |vectors|
    ensures after == UpsertAll(rows, g, organization, ids, vectors)
  {
    after := rows;
    for i := 0 to |ids|
      invariant after == UpsertAll(rows, g, organization, ids[..i], vectors[..i])
    {
      assert ids[..i + 1][..i] == ids[..i] && vectors[..i + 1][..i] == vectors[..i];
      after := Upserted(after, (g, ids[i]), organization, vectors[i]);
    }
    assert ids[..|ids|] == ids && vectors[..|vectors|] == vectors;
  }

  // ---------------------------------------------------------------- what the writes do

  lemma {:induction false} InsertedRows(chunks: map<nat, Chunk>, ids: seq<nat>, row: Chunk)
    ensures var after := InsertMissing(chunks, ids, row);
            && (forall c :: c in after <==> c in chunks || c in ids)
            && (forall c :: c in after ==> after[c] == if c in chunks then chunks[c] else row)
  {
    if ids != [] {
      InsertedRows(chunks, ids[..|ids| - 1], row);
      assert forall c :: c in ids <==> c in ids[..|ids| - 1] || c == ids[|ids| - 1] by {
        assert ids == ids[..|ids| - 1] + [ids[|ids| - 1]];
      }
    }
  }

  lemma {:induction false} UpsertedRows(
    rows: Embeddings, g: nat, organization: nat, ids: seq<nat>, vectors: seq<Vector>)
    requires |ids| == |vectors|
    ensures var after := UpsertAll(rows, g, organization, ids, vectors);
            && (forall key :: key in after <==> key in rows || (key.0 == g && key.1 in ids))
            && (forall key :: key in rows && !(key.0 == g && key.1 in ids) ==> after[key] == rows[key])
            && (forall c :: c in ids ==> after[(g, c)].ready)
            && (forall c :: c in ids ==>
                  after[(g, c)].organization == if (g, c) in rows then rows[(g, c)].organization else organization)
  {
    if ids != [] {
      var n := |ids| - 1;
      UpsertedRows(rows, g, organization, ids[..n], vectors[..n]);
      assert forall c :: c in ids <==> c in ids[..n] || c == ids[n] by {
        assert ids == ids[..n] + [ids[n]];
      }
    }
  }

  // ---------------------------------------------------------------- when an ingest commits

  /** What the tables must hold before the guide for its counts to agree: as many READY chunks of the
      document as prepared ids already in use, and no READY embedding of other chunks. */
  ghost predicate Committable(db: Db, p: Prepared) {
    && !Conflicts(db, p)
    && |ReadyChunks(db.chunks, p.document)| == |ElementSet(p.chunks) * db.chunks.Keys|
    && ReadyEmbeddings(db.legacy, p.legacyGeneration) <= ElementSet(p.chunks)
    && ReadyEmbeddings(db.bge, p.bgeGeneration) <= ElementSet(p.chunks)
  }

  lemma EmbeddingsAfterUpsert(rows: Embeddings, g: nat, organization: nat, ids: seq<nat>, vectors: seq<Vector>)
    requires |ids| == |vectors|
    ensures ReadyEmbeddings(UpsertAll(rows, g, organization, ids, vectors), g) ==
            ReadyEmbeddings(rows, g) + ElementSet(ids)
  {
    var after := UpsertAll(rows, g, organization, ids, vectors);
    UpsertedRows(rows, g, organization, ids, vectors);
    ElementsAreMembers(ids);
    forall c ensures c in ReadyEmbeddings(after, g) <==> c in ReadyEmbeddings(rows, g) || c in ElementSet(ids) {
      assert c in ReadyEmbeddings(after, g) <==> (g, c) in after && after[(g, c)].ready;
      assert c in ReadyEmbeddings(rows, g) <==> (g, c) in rows && rows[(g, c)].ready;
    }
  }

  lemma EmbeddingCountDecides(rows: Embeddings, g: nat, organization: nat, ids: seq<nat>, vectors: seq<Vector>)
    requires |ids| == |vectors| && Distinct(ids)
    ensures |ReadyEmbeddings(UpsertAll(rows, g, organization, ids, vectors), g)| == |ids| <==>
            ReadyEmbeddings(rows, g) <= ElementSet(ids)
  {
    EmbeddingsAfterUpsert(rows, g, organization, ids, vectors);
    DistinctCount(ids);
    var all := ReadyEmbeddings(rows, g) + ElementSet(ids);
    SubsetSize(ElementSet(ids), all);
    assert all == ElementSet(ids) <==> ReadyEmbeddings(rows, g) <= ElementSet(ids);
  }

  lemma ReadyAfterInsert(chunks: map<nat, Chunk>, ids: seq<nat>, document: nat, scope: Scope)
    ensures ReadyChunks(InsertMissing(chunks, ids, Chunk(document, scope, true)), document) ==
            ReadyChunks(chunks, document) + (ElementSet(ids) - chunks.Keys)
  {
    var after := InsertMissing(chunks, ids, Chunk(document, scope, true));
    InsertedRows(chunks, ids, Chunk(document, scope, true));
    ElementsAreMembers(ids);
    forall c ensures c in ReadyChunks(after, document) <==>
                     c in ReadyChunks(chunks, document) || c in ElementSet(ids) - chunks.Keys
    {
    }
  }

  lemma ChunkCountDecides(chunks: map<nat, Chunk>, ids: seq<nat>, document: nat, scope: Scope)
    requires Distinct(ids)
    ensures |ReadyChunks(InsertMissing(chunks, ids, Chunk(document, scope, true)), document)| == |ids| <==>
            |ReadyChunks(chunks, document)| == |ElementSet(ids) * chunks.Keys|
  {
    ReadyAfterInsert(chunks, ids, document, scope);
    DistinctCount(ids);
    CountsSplit(ReadyChunks(chunks, document), ElementSet(ids), chunks.Keys);
  }

  lemma CountsSplit(ready: set<nat>, ids: set<nat>, keys: set<nat>)
    requires ready <= keys
    ensures |ready + (ids - keys)| == |ready| + |ids - keys| && |ids| == |ids * keys| + |ids - keys|
  {
    assert ids == ids * keys + (ids - keys);
  }

  /** A guide commits exactly when the tables before it admit it. */
  lemma CommitsExactly(db: Db, p: Prepared)
    requires Distinct(p.chunks)
    ensures Activate(db, p).Some? <==> Committable(db, p)
  {
    if !Conflicts(db, p) {
      ChunkCountDecides(db.chunks, p.chunks, p.document, p.scope);
      EmbeddingCountDecides(db.legacy, p.legacyGeneration, p.scope.organization, p.chunks, p.legacyVectors);
      EmbeddingCountDecides(db.bge, p.bgeGeneration, p.scope.organization, p.chunks, p.bgeVectors);
    }
  }

  /** Upserting the same rows again changes nothing. */
  lemma UpsertAgain(rows: Embeddings, g: nat, organization: nat, ids: seq<nat>, vectors: seq<Vector>)
    requires |ids| == |vectors| && Distinct(ids)
    ensures var once := UpsertAll(rows, g, organization, ids, vectors);
            UpsertAll(once, g, organization, ids, vectors) == once
  {
    var once := UpsertAll(rows, g, organization, ids, vectors);
    var twice := UpsertAll(once, g, organization, ids, vectors);
    UpsertedRows(rows, g, organization, ids, vectors);
    UpsertedRows(once, g, organization, ids, vectors);
    forall key | key in once ensures twice[key] == once[key] {
      if key.0 == g && key.1 in ids {
        var i :| 0 <= i < |ids| && ids[i] == key.1;
        UpsertedVectors(rows, g, organization, ids, vectors, i);
        UpsertedVectors(once, g, organization, ids, vectors, i);
        assert key == (g, ids[i]);
      }
    }
    assert twice.Keys == once.Keys;
  }

  lemma InsertAgain(chunks: map<nat, Chunk>, ids: seq<nat>, row: Chunk)
    ensures InsertMissing(InsertMissing(chunks, ids, row), ids, row) == InsertMissing(chunks, ids, row)
  {
    InsertedRows(chunks, ids, row);
    InsertedRows(InsertMissing(chunks, ids, row), ids, row);
    assert InsertMissing(InsertMissing(chunks, ids, row), ids, row).Keys == InsertMissing(chunks, ids, row).Keys;
  }

  lemma NoConflictAfter(db: Db, p: Prepared)
    requires Activate(db, p).Some?
    ensures !Conflicts(Activate(db, p).value, p)
  {
  }

  /** Ingesting a committed guide again commits and changes nothing. */
  lemma IngestIsIdempotent(db: Db, p: Prepared)
    requires Activate(db, p).Some? && Distinct(p.chunks)
    ensures Activate(Activate(db, p).value, p) == Activate(db, p)
  {
    var after := Activate(db, p).value;
    NoConflictAfter(db, p);
    InsertAgain(db.chunks, p.chunks, Chunk(p.document, p.scope, true));
    UpsertAgain(db.legacy, p.legacyGeneration, p.scope.organization, p.chunks, p.legacyVectors);
    UpsertAgain(db.bge, p.bgeGeneration, p.scope.organization, p.chunks, p.bgeVectors);
    WrittenAgain(db, p);
  }

  lemma WrittenAgain(db: Db, p: Prepared)
    requires Activate(db, p).Some?
    ensures var after := Written(db, p);
            && !Conflicts(after, p)
            && Written(after, p).documents == after.documents && Written(after, p).generations == after.generations
            && Written(after, p).active == after.active
            && Written(after, p).activeByDimension == after.activeByDimension
  {
    NoConflictAfter(db, p);
  }

  /** The same scope with another source, or under another document id, is refused. */
  lemma ChangedSourceIsRefused(db: Db, p: Prepared, changed: Prepared)
    requires Activate(db, p).Some? && changed.scope == p.scope
    requires changed.source != p.source || changed.document != p.document
    ensures Activate(Activate(db, p).value, changed).None?
  {
    var after := Activate(db, p).value;
    assert p.document in after.documents && after.documents[p.document].scope == p.scope;
    assert after.documents[p.document].source == p.source;
  }

  // ---------------------------------------------------------------- what a search then finds

  /** The foreign keys from chunks to documents and from embeddings to chunks. */
  ghost predicate Referential(db: Db) {
    && (forall c :: c in db.chunks ==> db.chunks[c].document in db.documents)
    && (forall key :: key in db.legacy ==> key.1 in db.chunks)
    && (forall key :: key in db.bge ==> key.1 in db.chunks)
  }

  function GenerationOf(p: Prepared, q: Query): nat {
    if q.Bge? then p.bgeGeneration else p.legacyGeneration
  }

  function VectorsOf(p: Prepared, q: Query): seq<Vector> {
    if q.Bge? then p.bgeVectors else p.legacyVectors
  }

  /** Row ids belong to what they are derived from: the generations to their document, model and
      organization, the embedding rows to the organization of their generation. */
  ghost predicate WellKeyed(db: Db, p: Prepared) {
    p.legacyGeneration != p.bgeGeneration && KeyedFor(db, p, Legacy) && KeyedFor(db, p, Bge)
  }

  ghost predicate KeyedFor(db: Db, p: Prepared, q: Query) {
    var g, org := GenerationOf(p, q), p.scope.organization;
    && (g in db.generations ==> db.generations[g].organization == org && db.generations[g].dimension == Dimension(q))
    && (forall key :: key in Table(db, q) && key.0 == g ==> Table(db, q)[key].organization == org)
  }

  predicate DocumentSearchable(db: Db, p: Prepared, allowSynthetic: bool) {
    p.document in db.documents ==> Searchable(db.documents[p.document], allowSynthetic)
  }

  /** Before the ingest, the prepared id is a chunk the query accepts, or unused while the document is
      new or searchable. */
  predicate Finds(db: Db, p: Prepared, q: Query, allowSynthetic: bool, c: nat) {
    if c in db.chunks then ChunkJoins(db, q, p.scope, allowSynthetic, c) else DocumentSearchable(db, p, allowSynthetic)
  }

  ghost predicate FindsAll(db: Db, p: Prepared, q: Query, allowSynthetic: bool) {
    forall c :: c in p.chunks ==> Finds(db, p, q, allowSynthetic, c)
  }

  /** The upserted chunks are embedded; with the count, nothing else is. */
  lemma EmbeddedAfterUpsert(rows: Embeddings, g: nat, organization: nat, ids: seq<nat>, vectors: seq<Vector>)
    requires Distinct(ids) && |ids| == |vectors|
    requires |ReadyEmbeddings(UpsertAll(rows, g, organization, ids, vectors), g)| == |ids|
    ensures ReadyEmbeddings(UpsertAll(rows, g, organization, ids, vectors), g) == ElementSet(ids)
  {
    EmbeddingCountDecides(rows, g, organization, ids, vectors);
    EmbeddingsAfterUpsert(rows, g, organization, ids, vectors);
  }

  /** A committed ingest of distinct chunks into well-keyed tables. */
  ghost predicate Commits(db: Db, p: Prepared) {
    Activate(db, p).Some? && WellKeyed(db, p) && Referential(db) && Distinct(p.chunks)
  }

  lemma WrittenTable(db: Db, p: Prepared, q: Query)
    requires !Conflicts(db, p)
    ensures Table(Written(db, p), q) ==
            UpsertAll(Table(db, q), GenerationOf(p, q), p.scope.organization, p.chunks, VectorsOf(p, q))
    ensures Pointer(Written(db, p), q, p.scope) == Some(GenerationOf(p, q))
  {
  }

  lemma GenerationIsJoined(db: Db, p: Prepared, q: Query)
    requires !Conflicts(db, p) && WellKeyed(db, p)
    ensures GenerationJoins(Written(db, p), q, GenerationOf(p, q), p.scope)
  {
  }

  lemma ChunkIsJoined(db: Db, p: Prepared, q: Query, allowSynthetic: bool, c: nat)
    requires !Conflicts(db, p) && Referential(db) && c in p.chunks
    ensures ChunkJoins(Written(db, p), q, p.scope, allowSynthetic, c) <==> Finds(db, p, q, allowSynthetic, c)
  {
    InsertedRows(db.chunks, p.chunks, Chunk(p.document, p.scope, true));
  }

  lemma EmbeddingIsJoined(db: Db, p: Prepared, q: Query, c: nat)
    requires Commits(db, p)
    ensures EmbeddingJoins(Table(Written(db, p), q), GenerationOf(p, q), p.scope, c) <==> c in p.chunks
  {
    var g, org := GenerationOf(p, q), p.scope.organization;
    var rows := Table(Written(db, p), q);
    WrittenTable(db, p, q);
    EmbeddedAfterUpsert(Table(db, q), g, org, p.chunks, VectorsOf(p, q));
    ElementsAreMembers(p.chunks);
    UpsertedRows(Table(db, q), g, org, p.chunks, VectorsOf(p, q));
    assert (g, c) in rows && rows[(g, c)].ready ==> c in ReadyEmbeddings(rows, g);
    assert KeyedFor(db, p, if q.Bge? then Bge else Legacy);
  }

  lemma VisibleExactly(db: Db, p: Prepared, q: Query, allowSynthetic: bool, c: nat)
    requires Commits(db, p)
    ensures c in Visible(Activate(db, p).value, q, p.scope, allowSynthetic) <==>
            c in p.chunks && Finds(db, p, q, allowSynthetic, c)
  {
    WrittenTable(db, p, q);
    GenerationIsJoined(db, p, q);
    EmbeddingIsJoined(db, p, q, c);
    if c in p.chunks {
      ChunkIsJoined(db, p, q, allowSynthetic, c);
    }
  }

  /** For each of the three queries, a committed guide shows all of its chunks exactly when each
      prepared id was unused and the document new or searchable, or already a chunk the query accepts.
      The counts alone do not ensure that: see `CountsMissRetiredChunk`. */
  lemma CommittedGuideIsFullyVisible(db: Db, p: Prepared, q: Query, allowSynthetic: bool)
    requires Commits(db, p)
    ensures var visible := Visible(Activate(db, p).value, q, p.scope, allowSynthetic);
            && (|visible| == |p.chunks| <==> FindsAll(db, p, q, allowSynthetic))
            && (FindsAll(db, p, q, allowSynthetic) ==> visible == ElementSet(p.chunks))
            && forall c :: c in visible <==> c in p.chunks && Finds(db, p, q, allowSynthetic, c)
  {
    var visible := Visible(Activate(db, p).value, q, p.scope, allowSynthetic);
    forall c ensures c in visible <==> c in p.chunks && Finds(db, p, q, allowSynthetic, c) {
      VisibleExactly(db, p, q, allowSynthetic, c);
    }
    DistinctCount(p.chunks);
    ElementsAreMembers(p.chunks);
    SubsetSize(visible, ElementSet(p.chunks));
    if c :| c in p.chunks && !Finds(db, p, q, allowSynthetic, c) {
      assert c in ElementSet(p.chunks) && c !in visible;
    } else {
      assert visible == ElementSet(p.chunks);
    }
  }

  lemma {:induction false} UpsertedVectors(
    rows: Embeddings, g: nat, organization: nat, ids: seq<nat>, vectors: seq<Vector>, i: nat)
    requires |ids| == |vectors| && Distinct(ids) && i < |ids|
    ensures var after := UpsertAll(rows, g, organization, ids, vectors);
            (g, ids[i]) in after && after[(g, ids[i])].vector == vectors[i]
  {
    var n := |ids| - 1;
    if i < n {
      UpsertedVectors(rows, g, organization, ids[..n], vectors[..n], i);
    }
  }

  /** Each prepared chunk, at the distance of the vector prepared for it. */
  ghost function PreparedHits(p: Prepared, q: Query, distance: Vector -> real): set<Hit> {
    set j | 0 <= j < |p.chunks| && j < |VectorsOf(p, q)| :: Hit(p.chunks[j], distance(VectorsOf(p, q)[j]))
  }

  lemma CandidatesArePrepared(db: Db, p: Prepared, q: Query, distance: Vector -> real, allowSynthetic: bool)
    requires Commits(db, p) && FindsAll(db, p, q, allowSynthetic)
    ensures Candidates(Activate(db, p).value, q, p.scope, distance, allowSynthetic) == PreparedHits(p, q, distance)
  {
    var after, g := Activate(db, p).value, GenerationOf(p, q);
    var rows := Table(after, q);
    WrittenTable(db, p, q);
    CommittedGuideIsFullyVisible(db, p, q, allowSynthetic);
    ElementsAreMembers(p.chunks);
    forall j | 0 <= j < |p.chunks|
      ensures (g, p.chunks[j]) in rows && rows[(g, p.chunks[j])].vector == VectorsOf(p, q)[j]
    {
      UpsertedVectors(Table(db, q), g, p.scope.organization, p.chunks, VectorsOf(p, q), j);
    }
    HitsOfList(p.chunks, VectorsOf(p, q), rows, g, distance);
    assert Hits(ElementSet(p.chunks), rows, g, distance) == PreparedHits(p, q, distance);
  }

  lemma HitsOfList(ids: seq<nat>, vectors: seq<Vector>, rows: Embeddings, g: nat, distance: Vector -> real)
    requires |ids| == |vectors|
    requires forall j :: 0 <= j < |ids| ==> (g, ids[j]) in rows && rows[(g, ids[j])].vector == vectors[j]
    ensures Hits(ElementSet(ids), rows, g, distance) == set j | 0 <= j < |ids| :: Hit(ids[j], distance(vectors[j]))
  {
    ElementsAreMembers(ids);
    forall j | 0 <= j < |ids| ensures Hit(ids[j], distance(vectors[j])) in Hits(ElementSet(ids), rows, g, distance) {
      assert ids[j] in ids;
    }
  }

  /** The result of a query over a guide: min(n, clamp(k, 1, 100)) of its prepared chunks, all different,
      in order of distance and chunk id, and no nearer prepared chunk left out. */
  ghost predicate FullSearch(r: seq<Hit>, p: Prepared, q: Query, distance: Vector -> real, k: int) {
    var all := PreparedHits(p, q, distance);
    && |r| == Min(|p.chunks|, Clamp(k))
    && (forall i :: 0 <= i < |r| ==> r[i] in all)
    && (forall i, j :: 0 <= i < j < |r| ==> r[i].chunk != r[j].chunk && Before(r[i], r[j]))
    && (forall h, i :: h in all && h !in r && 0 <= i < |r| ==> Before(r[i], h))
  }

  /** After a committed ingest each query answers with the nearest prepared chunks. */
  lemma CommittedGuideSearch(db: Db, p: Prepared, q: Query, distance: Vector -> real, k: int, allowSynthetic: bool)
    requires Commits(db, p) && FindsAll(db, p, q, allowSynthetic)
    ensures var after := Activate(db, p).value;
            FullSearch(Search(after, q, p.scope.organization, p.scope, distance, k, allowSynthetic), p, q, distance, k)
  {
    var after, g := Activate(db, p).value, GenerationOf(p, q);
    var candidates := Candidates(after, q, p.scope, distance, allowSynthetic);
    CandidatesArePrepared(db, p, q, distance, allowSynthetic);
    CandidatesAreVisible(after, q, p.scope, distance, allowSynthetic);
    NearestAreNearest(candidates, k);
    CountCandidates(db, p, q, distance, allowSynthetic);
  }

  lemma CountCandidates(db: Db, p: Prepared, q: Query, distance: Vector -> real, allowSynthetic: bool)
    requires Commits(db, p) && FindsAll(db, p, q, allowSynthetic)
    ensures |Candidates(Activate(db, p).value, q, p.scope, distance, allowSynthetic)| == |p.chunks|
  {
    var after := Activate(db, p).value;
    WrittenTable(db, p, q);
    CommittedGuideIsFullyVisible(db, p, q, allowSynthetic);
    DistinctCount(p.chunks);
    OneHitPerChunk(ElementSet(p.chunks), Table(after, q), GenerationOf(p, q), distance);
  }

  /** The upsert does not revive a retired document: the ingest commits, its chunks stay hidden. */
  lemma RetiredDocumentStaysHidden(db: Db, p: Prepared, q: Query, allowSynthetic: bool, c: nat)
    requires Commits(db, p) && p.document in db.documents && db.documents[p.document].status == Retired
    requires c in db.chunks && !q.FirstLegacy? ==> db.chunks[c].document == p.document
    ensures c !in Visible(Activate(db, p).value, q, p.scope, allowSynthetic)
  {
    VisibleExactly(db, p, q, allowSynthetic, c);
  }

  /** The ingest of an approved document commits and yet none of its chunks is visible to any query. */
  ghost predicate CommitsInvisibly(db: Db, p: Prepared) {
    && Commits(db, p) && p.chunks != []
    && p.document in db.documents && db.documents[p.document].status == Approved
    && forall q :: Visible(Activate(db, p).value, q, p.scope, false) == {}
  }

  const SCOPE := Scope(0, "g", "1", "s")

  /** Chunk 10 is retired; chunk 11 is READY and will make up the number. */
  const BEFORE := Db(map[1 := Document(SCOPE, Approved, 7)],
                     map[10 := Chunk(1, SCOPE, false), 11 := Chunk(1, SCOPE, true)],
                     map[], map[], map[], map[], map[])

  const TEN := Prepared(SCOPE, 1, 7, 2, 3, [10], [0], [0])

  lemma TenIsWritten()
    ensures !Conflicts(BEFORE, TEN)
    ensures var after := Written(BEFORE, TEN);
            && after.chunks == BEFORE.chunks
            && after.legacy == map[(2, 10) := Embedding(0, true, 0)]
            && after.bge == map[(3, 10) := Embedding(0, true, 0)]
  {
    assert [10][..0] == [] && [0][..0] == [];
    InsertedRows(BEFORE.chunks, TEN.chunks, Chunk(1, SCOPE, true));
  }

  lemma TenCommits()
    ensures Commits(BEFORE, TEN)
  {
    TenIsWritten();
    var after := Written(BEFORE, TEN);
    assert ReadyChunks(after.chunks, 1) == {11};
    assert ReadyEmbeddings(after.legacy, 2) == {10} by { assert (2, 10) in after.legacy; }
    assert ReadyEmbeddings(after.bge, 3) == {10} by { assert (3, 10) in after.bge; }
  }

  /** Why the condition on chunk ids is needed: a retired chunk row is left alone, a stale READY
      chunk makes up the number, and the committed guide shows nothing. */
  lemma CountsMissRetiredChunk()
    ensures exists db, p :: CommitsInvisibly(db, p)
  {
    TenCommits();
    forall q ensures Visible(Activate(BEFORE, TEN).value, q, SCOPE, false) == {} {
      forall c ensures c !in Visible(Activate(BEFORE, TEN).value, q, SCOPE, false) {
        VisibleExactly(BEFORE, TEN, q, false, c);
      }
    }
    assert CommitsInvisibly(BEFORE, TEN);
  }

  // ---------------------------------------------------------------- other guides

  /** The scope's generation is not one that `p` writes to. */
  predicate Unrelated(db: Db, p: Prepared, q: Query, scope: Scope) {
    && scope != p.scope
    && Pointer(db, q, scope) != Some(p.legacyGeneration) && Pointer(db, q, scope) != Some(p.bgeGeneration)
  }

  lemma SameGeneration(db: Db, p: Prepared, q: Query, scope: Scope, g: nat)
    requires Activate(db, p).Some? && g != p.legacyGeneration && g != p.bgeGeneration
    ensures GenerationJoins(Activate(db, p).value, q, g, scope) <==> GenerationJoins(db, q, g, scope)
  {
  }

  lemma SameEmbedding(db: Db, p: Prepared, q: Query, g: nat, c: nat)
    requires Activate(db, p).Some? && g != p.legacyGeneration && g != p.bgeGeneration
    ensures var was, now := Table(db, q), Table(Activate(db, p).value, q);
            && ((g, c) in now <==> (g, c) in was)
            && ((g, c) in was ==> now[(g, c)] == was[(g, c)])
  {
    WrittenTable(db, p, q);
    UpsertedRows(Table(db, q), GenerationOf(p, q), p.scope.organization, p.chunks, VectorsOf(p, q));
  }

  lemma SameChunk(db: Db, p: Prepared, q: Query, scope: Scope, allowSynthetic: bool, c: nat)
    requires Activate(db, p).Some? && Referential(db) && c in db.chunks
    ensures c in Activate(db, p).value.chunks
    ensures ChunkJoins(Activate(db, p).value, q, scope, allowSynthetic, c) <==>
            ChunkJoins(db, q, scope, allowSynthetic, c)
  {
    InsertedRows(db.chunks, p.chunks, Chunk(p.document, p.scope, true));
  }

  lemma EmbeddedIsChunk(db: Db, q: Query, g: nat, c: nat)
    requires Referential(db) && (g, c) in Table(db, q)
    ensures c in db.chunks
  {
    assert (g, c).1 == c;
  }

  lemma SameJoined(db: Db, p: Prepared, q: Query, scope: Scope, g: nat, allowSynthetic: bool)
    requires Activate(db, p).Some? && Referential(db) && g != p.legacyGeneration && g != p.bgeGeneration
    ensures Joined(Activate(db, p).value, q, g, scope, allowSynthetic) == Joined(db, q, g, scope, allowSynthetic)
  {
    var was, now := Joined(db, q, g, scope, allowSynthetic), Joined(Activate(db, p).value, q, g, scope, allowSynthetic);
    SameGeneration(db, p, q, scope, g);
    forall c: nat ensures c in was <==> c in now {
      SameEmbedding(db, p, q, g, c);
      if (g, c) in Table(db, q) {
        EmbeddedIsChunk(db, q, g, c);
        SameChunk(db, p, q, scope, allowSynthetic, c);
      }
    }
  }

  lemma SameHits(chunks: set<nat>, was: Embeddings, now: Embeddings, g: nat, distance: Vector -> real)
    requires forall c :: c in chunks ==> ((g, c) in now <==> (g, c) in was)
    requires forall c :: c in chunks && (g, c) in was ==> now[(g, c)] == was[(g, c)]
    ensures Hits(chunks, now, g, distance) == Hits(chunks, was, g, distance)
  {
  }

  lemma SameCandidates(db: Db, p: Prepared, q: Query, scope: Scope, distance: Vector -> real, allowSynthetic: bool)
    requires Activate(db, p).Some? && Referential(db) && Unrelated(db, p, q, scope)
    ensures Pointer(Activate(db, p).value, q, scope) == Pointer(db, q, scope)
    ensures Candidates(Activate(db, p).value, q, scope, distance, allowSynthetic) ==
            Candidates(db, q, scope, distance, allowSynthetic)
  {
    var after := Activate(db, p).value;
    SamePointer(db, p, q, scope);
    if Pointer(db, q, scope).Some? {
      var g := Pointer(db, q, scope).value;
      var joined := Joined(db, q, g, scope, allowSynthetic);
      SameJoined(db, p, q, scope, g, allowSynthetic);
      forall c | c in joined
        ensures ((g, c) in Table(after, q) <==> (g, c) in Table(db, q))
        ensures (g, c) in Table(db, q) ==> Table(after, q)[(g, c)] == Table(db, q)[(g, c)]
      {
        SameEmbedding(db, p, q, g, c);
      }
      SameHits(joined, Table(db, q), Table(after, q), g, distance);
    }
  }

  lemma SamePointer(db: Db, p: Prepared, q: Query, scope: Scope)
    requires Activate(db, p).Some? && scope != p.scope
    ensures Pointer(Activate(db, p).value, q, scope) == Pointer(db, q, scope)
  {
  }

  /** Committing one guide leaves every query over another scope as it was. */
  lemma OtherScopesUndisturbed(
    db: Db, p: Prepared, q: Query, setting: nat, scope: Scope, distance: Vector -> real, k: int, allowSynthetic: bool)
    requires Activate(db, p).Some? && Referential(db) && Unrelated(db, p, q, scope)
    ensures Search(Activate(db, p).value, q, setting, scope, distance, k, allowSynthetic) ==
            Search(db, q, setting, scope, distance, k, allowSynthetic)
  {
    SameCandidates(db, p, q, scope, distance, allowSynthetic);
  }

  /** Ids derived from different scopes do not collide. */
  ghost predicate Independent(p: Prepared, other: Prepared) {
    && p.scope != other.scope && p.document != other.document
    && p.legacyGeneration != other.legacyGeneration && p.legacyGeneration != other.bgeGeneration
    && p.bgeGeneration != other.legacyGeneration && p.bgeGeneration != other.bgeGeneration
    && (forall c :: c in p.chunks ==> c !in other.chunks)
  }

  ghost predicate Admissible(db: Db, p: Prepared, q: Query, allowSynthetic: bool) {
    WellKeyed(db, p) && Distinct(p.chunks) && FindsAll(db, p, q, allowSynthetic)
  }

  lemma ActivateKeepsKeys(db: Db, p: Prepared, other: Prepared, q: Query)
    requires Activate(db, p).Some? && Independent(p, other) && KeyedFor(db, other, q)
    ensures KeyedFor(Activate(db, p).value, other, q)
  {
    WrittenTable(db, p, q);
    UpsertedRows(Table(db, q), GenerationOf(p, q), p.scope.organization, p.chunks, VectorsOf(p, q));
  }

  lemma ActivateKeepsFinds(db: Db, p: Prepared, other: Prepared, q: Query, allowSynthetic: bool, c: nat)
    requires Activate(db, p).Some? && Referential(db) && Independent(p, other)
    requires c in other.chunks && Finds(db, other, q, allowSynthetic, c)
    ensures Finds(Activate(db, p).value, other, q, allowSynthetic, c)
  {
    InsertedRows(db.chunks, p.chunks, Chunk(p.document, p.scope, true));
  }

  lemma ActivateKeepsAdmissible(db: Db, p: Prepared, other: Prepared, q: Query, allowSynthetic: bool)
    requires Activate(db, p).Some? && Referential(db) && Independent(p, other)
    requires Admissible(db, other, q, allowSynthetic)
    ensures Admissible(Activate(db, p).value, other, q, allowSynthetic)
  {
    ActivateKeepsKeys(db, p, other, Legacy);
    ActivateKeepsKeys(db, p, other, Bge);
    forall c | c in other.chunks ensures Finds(Activate(db, p).value, other, q, allowSynthetic, c) {
      ActivateKeepsFinds(db, p, other, q, allowSynthetic, c);
    }
  }

  lemma ActivateKeepsReferential(db: Db, p: Prepared)
    requires Activate(db, p).Some? && Referential(db)
    ensures Referential(Activate(db, p).value)
  {
    InsertedRows(db.chunks, p.chunks, Chunk(p.document, p.scope, true));
    UpsertedRows(db.legacy, p.legacyGeneration, p.scope.organization, p.chunks, p.legacyVectors);
    UpsertedRows(db.bge, p.bgeGeneration, p.scope.organization, p.chunks, p.bgeVectors);
  }

  lemma {:induction false} IngestKeepsReferential(db: Db, guides: seq<Prepared>)
    requires IngestAll(db, guides).Some? && Referential(db)
    ensures Referential(IngestAll(db, guides).value)
  {
    if guides != [] {
      var n := |guides| - 1;
      IngestKeepsReferential(db, guides[..n]);
      ActivateKeepsReferential(IngestAll(db, guides[..n]).value, guides[n]);
    }
  }

  lemma {:induction false} IngestKeepsAdmissible(
    db: Db, guides: seq<Prepared>, other: Prepared, q: Query, allowSynthetic: bool)
    requires IngestAll(db, guides).Some? && Referential(db) && Admissible(db, other, q, allowSynthetic)
    requires forall i :: 0 <= i < |guides| ==> Independent(guides[i], other)
    ensures Admissible(IngestAll(db, guides).value, other, q, allowSynthetic)
  {
    if guides != [] {
      var n := |guides| - 1;
      IngestKeepsAdmissible(db, guides[..n], other, q, allowSynthetic);
      IngestKeepsReferential(db, guides[..n]);
      ActivateKeepsAdmissible(IngestAll(db, guides[..n]).value, guides[n], other, q, allowSynthetic);
    }
  }

  /** The guide's own generation answers the query, in full. */
  ghost predicate Answers(db: Db, p: Prepared, q: Query, distance: Vector -> real, k: int, allowSynthetic: bool) {
    && Pointer(db, q, p.scope) == Some(GenerationOf(p, q))
    && FullSearch(Search(db, q, p.scope.organization, p.scope, distance, k, allowSynthetic), p, q, distance, k)
  }

  lemma AnswersIsKept(
    db: Db, p: Prepared, later: Prepared, q: Query, distance: Vector -> real, k: int, allowSynthetic: bool)
    requires Activate(db, later).Some? && Independent(later, p) && Referential(db)
    requires Answers(db, p, q, distance, k, allowSynthetic)
    ensures Answers(Activate(db, later).value, p, q, distance, k, allowSynthetic)
  {
    SameCandidates(db, later, q, p.scope, distance, allowSynthetic);
    OtherScopesUndisturbed(db, later, q, p.scope.organization, p.scope, distance, k, allowSynthetic);
  }

  /** After one committed transaction over any number of guides, every one of them answers every query
      in full: later guides do not disturb earlier ones. */
  lemma {:induction false} EveryCommittedGuideIsSearchable(
    db: Db, guides: seq<Prepared>, i: nat, q: Query, distance: Vector -> real, k: int, allowSynthetic: bool)
    requires IngestAll(db, guides).Some? && Referential(db) && i < |guides|
    requires forall j :: 0 <= j < |guides| ==> Admissible(db, guides[j], q, allowSynthetic)
    requires forall a, b :: 0 <= a < |guides| && 0 <= b < |guides| && a != b ==> Independent(guides[a], guides[b])
    ensures Answers(IngestAll(db, guides).value, guides[i], q, distance, k, allowSynthetic)
  {
    var n := |guides| - 1;
    var before := IngestAll(db, guides[..n]).value;
    IngestKeepsReferential(db, guides[..n]);
    if i == n {
      IngestKeepsAdmissible(db, guides[..n], guides[n], q, allowSynthetic);
      WrittenTable(before, guides[n], q);
      CommittedGuideSearch(before, guides[n], q, distance, k, allowSynthetic);
    } else {
      EveryCommittedGuideIsSearchable(db, guides[..n], i, q, distance, k, allowSynthetic);
      AnswersIsKept(before, guides[i], guides[n], q, distance, k, allowSynthetic);
    }
  }
}
