/** The guide tables and the scoped nearest-chunk query over them, with exact ordering.

    Vectors stay opaque: a query is a distance function on stored vectors. */
module ScopedSearch {
  import opened Options
  import opened Elements

  type Vector = int

  datatype Scope = Scope(organization: nat, guide: string, version: string, scope: string)

  datatype DocumentStatus = Approved | SyntheticTestOnly | Retired

  datatype Document = Document(scope: Scope, status: DocumentStatus, source: nat)

  datatype Chunk = Chunk(document: nat, scope: Scope, ready: bool)

  datatype Generation = Generation(organization: nat, document: nat, dimension: nat, active: bool)

  datatype Embedding = Embedding(organization: nat, ready: bool, vector: Vector)

  /** Keyed by generation and chunk, the primary key of both embedding tables. */
  type Embeddings = map<(nat, nat), Embedding>

  datatype Db = Db(
    documents: map<nat, Document>,
    chunks: map<nat, Chunk>,
    generations: map<nat, Generation>,
    legacy: Embeddings,
    bge: Embeddings,
    active: map<Scope, nat>,
    activeByDimension: map<(Scope, nat), nat>)

  // ---------------------------------------------------------------- ranking

  datatype Hit = Hit(chunk: nat, distance: real)

  /** `ORDER BY distance, chunk_id`. */
  predicate Before(a: Hit, b: Hit) {
    a.distance < b.distance || (a.distance == b.distance && a.chunk <= b.chunk)
  }

  ghost predicate IsFirst(h: Hit, hits: set<Hit>) {
    h in hits && forall x :: x in hits ==> Before(h, x)
  }

  lemma {:induction false} FirstExists(hits: set<Hit>)
    requires hits != {}
    ensures exists h :: IsFirst(h, hits)
    decreases |hits|
  {
    var x :| x in hits;
    var rest := hits - {x};
    assert hits == rest + {x};
    if rest == {} {
      assert IsFirst(x, hits);
    } else {
      FirstExists(rest);
      var h :| IsFirst(h, rest);
      if Before(x, h) {
        assert IsFirst(x, hits);
      } else {
        assert IsFirst(h, hits);
      }
    }
  }

  ghost function Ranked(hits: set<Hit>): seq<Hit>
    decreases |hits|
  {
    if hits == {} then []
    else
      FirstExists(hits);
      var h :| IsFirst(h, hits);
      [h] + Ranked(hits - {h})
  }

  lemma {:induction false} RankedIsOrdering(hits: set<Hit>)
    ensures var r := Ranked(hits);
            && |r| == |hits|
            && (forall h :: h in r <==> h in hits)
            && (forall i, j :: 0 <= i < j < |r| ==> r[i] != r[j] && Before(r[i], r[j]))
    decreases |hits|
  {
    if hits != {} {
      var r := Ranked(hits);
      var h := r[0];
      RankedIsOrdering(hits - {h});
      assert r[1..] == Ranked(hits - {h});
      forall i, j | 0 <= i < j < |r| ensures r[i] != r[j] && Before(r[i], r[j]) {
        assert r[j] == r[1..][j - 1] && r[j] in Ranked(hits - {h});
        if i > 0 {
          assert r[i] == r[1..][i - 1];
        }
      }
    }
  }

  /** `LIMIT LEAST(GREATEST(k, 1), 100)`. */
  function Clamp(k: int): (n: nat)
    ensures 1 <= n <= 100
    ensures (1 <= k <= 100 ==> n == k) && (k < 1 ==> n == 1) && (k > 100 ==> n == 100)
  {
    if k < 1 then 1 else if k > 100 then 100 else k
  }

  function Min(a: nat, b: nat): nat {
    if a <= b then a else b
  }

  ghost function Nearest(hits: set<Hit>, k: int): seq<Hit> {
    RankedIsOrdering(hits);
    Ranked(hits)[..Min(|hits|, Clamp(k))]
  }

  ghost predicate Chunked(hits: set<Hit>) {
    forall a, b :: a in hits && b in hits && a.chunk == b.chunk ==> a == b
  }

  /** The clamped number of hits, with distinct chunks, in order, and none nearer left out. */
  lemma NearestAreNearest(hits: set<Hit>, k: int)
    requires Chunked(hits)
    ensures var r := Nearest(hits, k);
            && |r| == Min(|hits|, Clamp(k))
            && (forall i :: 0 <= i < |r| ==> r[i] in hits)
            && (forall i, j :: 0 <= i < j < |r| ==> r[i].chunk != r[j].chunk && Before(r[i], r[j]))
            && (forall h, i :: h in hits && h !in r && 0 <= i < |r| ==> Before(r[i], h))
  {
    RankedIsOrdering(hits);
    var all, r := Ranked(hits), Nearest(hits, k);
    assert forall i :: 0 <= i < |r| ==> r[i] == all[i] && all[i] in all;
    forall h, i | h in hits && h !in r && 0 <= i < |r| ensures Before(r[i], h) {
      assert h in all;
      assert forall j :: 0 <= j < |r| ==> all[j] in r;
      var j :| 0 <= j < |all| && all[j] == h;
    }
  }

  /** The hits ordered before `h`. */
  ghost function Ahead(hits: set<Hit>, h: Hit): set<Hit> {
    set x | x in hits && x != h && Before(x, h)
  }

  lemma RankIsCountAhead(hits: set<Hit>, i: nat)
    requires Chunked(hits) && i < |Ranked(hits)|
    ensures |Ahead(hits, Ranked(hits)[i])| == i
  {
    RankedIsOrdering(hits);
    var all := Ranked(hits);
    var front := all[..i];
    ElementsAreMembers(front);
    DistinctCount(front);
    forall x ensures x in Ahead(hits, all[i]) <==> x in front {
      if x in Ahead(hits, all[i]) {
        var j :| 0 <= j < |all| && all[j] == x;
        assert j < i;
        assert front[j] == x;
      }
    }
    assert Ahead(hits, all[i]) == ElementSet(front);
  }

  /** A hit is returned exactly when fewer than the clamped number come before it. */
  lemma ReturnedExactly(hits: set<Hit>, h: Hit, k: int)
    requires Chunked(hits) && h in hits
    ensures h in Nearest(hits, k) <==> |Ahead(hits, h)| < Clamp(k)
  {
    RankedIsOrdering(hits);
    var all, r := Ranked(hits), Nearest(hits, k);
    assert h in all;
    var i :| 0 <= i < |all| && all[i] == h;
    RankIsCountAhead(hits, i);
    if i < |r| {
      assert r[i] == h;
    }
  }

  // ---------------------------------------------------------------- the queries

  /** `FirstLegacy` is the 32-dimension query as first created, `Legacy` what replaced it, and `Bge`
      the 1024-dimension query of the same migration. */
  datatype Query = FirstLegacy | Legacy | Bge

  function Dimension(q: Query): nat {
    if q.Bge? then 1024 else 32
  }

  function Table(db: Db, q: Query): Embeddings {
    if q.Bge? then db.bge else db.legacy
  }

  function Pointer(db: Db, q: Query, scope: Scope): Option<nat> {
    if q.FirstLegacy? then
      if scope in db.active then Some(db.active[scope]) else None
    else if (scope, Dimension(q)) in db.activeByDimension then Some(db.activeByDimension[(scope, Dimension(q))])
    else None
  }

  predicate Searchable(d: Document, allowSynthetic: bool) {
    d.status == Approved || (d.status == SyntheticTestOnly && allowSynthetic)
  }

  /** The first query compares organization, guide, version and scope; the later ones only the
      organization. */
  predicate Matches(q: Query, row: Scope, scope: Scope) {
    if q.FirstLegacy? then row == scope else row.organization == scope.organization
  }

  predicate GenerationJoins(db: Db, q: Query, g: nat, scope: Scope) {
    && g in db.generations && db.generations[g].active
    && if q.FirstLegacy? then db.generations[g].organization == scope.organization
       else db.generations[g].dimension == Dimension(q)
  }

  predicate ChunkJoins(db: Db, q: Query, scope: Scope, allowSynthetic: bool, c: nat) {
    && c in db.chunks && db.chunks[c].ready && Matches(q, db.chunks[c].scope, scope)
    && db.chunks[c].document in db.documents
    && Matches(q, db.documents[db.chunks[c].document].scope, scope)
    && Searchable(db.documents[db.chunks[c].document], allowSynthetic)
  }

  predicate EmbeddingJoins(rows: Embeddings, g: nat, scope: Scope, c: nat) {
    (g, c) in rows && rows[(g, c)].ready && rows[(g, c)].organization == scope.organization
  }

  ghost function Joined(db: Db, q: Query, g: nat, scope: Scope, allowSynthetic: bool): set<nat> {
    set c | c in db.chunks && GenerationJoins(db, q, g, scope) && EmbeddingJoins(Table(db, q), g, scope, c) &&
            ChunkJoins(db, q, scope, allowSynthetic, c)
  }

  /** The chunks a query over `scope` chooses from. */
  ghost function Visible(db: Db, q: Query, scope: Scope, allowSynthetic: bool): set<nat> {
    match Pointer(db, q, scope)
    case None => {}
    case Some(g) => Joined(db, q, g, scope, allowSynthetic)
  }

  ghost function Hits(chunks: set<nat>, rows: Embeddings, g: nat, distance: Vector -> real): set<Hit> {
    set c | c in chunks && (g, c) in rows :: Hit(c, distance(rows[(g, c)].vector))
  }

  ghost function Candidates(db: Db, q: Query, scope: Scope, distance: Vector -> real, allowSynthetic: bool): set<Hit> {
    match Pointer(db, q, scope)
    case None => {}
    case Some(g) => Hits(Joined(db, q, g, scope, allowSynthetic), Table(db, q), g, distance)
  }

  /** Empty unless the session is scoped to the same organization. */
  ghost function Search(
    db: Db, q: Query, setting: nat, scope: Scope, distance: Vector -> real, k: int, allowSynthetic: bool): seq<Hit>
  {
    if setting != scope.organization then [] else Nearest(Candidates(db, q, scope, distance, allowSynthetic), k)
  }

  lemma {:induction false} OneHitPerChunk(chunks: set<nat>, rows: Embeddings, g: nat, distance: Vector -> real)
    requires forall c :: c in chunks ==> (g, c) in rows
    ensures Chunked(Hits(chunks, rows, g, distance))
    ensures |Hits(chunks, rows, g, distance)| == |chunks|
    decreases |chunks|
  {
    if chunks == {} {
      assert Hits(chunks, rows, g, distance) == {};
    } else {
      var c :| c in chunks;
      var rest := chunks - {c};
      OneHitPerChunk(rest, rows, g, distance);
      var h := Hit(c, distance(rows[(g, c)].vector));
      assert Hits(chunks, rows, g, distance) == Hits(rest, rows, g, distance) + {h};
      assert h !in Hits(rest, rows, g, distance);
    }
  }

  lemma CandidatesAreVisible(db: Db, q: Query, scope: Scope, distance: Vector -> real, allowSynthetic: bool)
    ensures Chunked(Candidates(db, q, scope, distance, allowSynthetic))
    ensures forall h :: h in Candidates(db, q, scope, distance, allowSynthetic) ==>
              h.chunk in Visible(db, q, scope, allowSynthetic)
  {
    match Pointer(db, q, scope)
    case None =>
    case Some(g) => OneHitPerChunk(Joined(db, q, g, scope, allowSynthetic), Table(db, q), g, distance);
  }

  lemma SearchReturnsCandidates(
    db: Db, q: Query, setting: nat, scope: Scope, distance: Vector -> real, k: int, allowSynthetic: bool)
    ensures forall h :: h in Search(db, q, setting, scope, distance, k, allowSynthetic) ==>
              setting == scope.organization && h in Candidates(db, q, scope, distance, allowSynthetic)
  {
    CandidatesAreVisible(db, q, scope, distance, allowSynthetic);
    NearestAreNearest(Candidates(db, q, scope, distance, allowSynthetic), k);
  }

  // ---------------------------------------------------------------- what may be returned

  /** The rows behind a chunk that a query over `scope` may return: an ACTIVE generation the scope points
      to, a READY embedding and a READY chunk of the organization, and a document of the organization that
      is approved, or synthetic where that is allowed. */
  ghost predicate Entitled(db: Db, q: Query, scope: Scope, allowSynthetic: bool, c: nat) {
    exists g ::
      && Pointer(db, q, scope) == Some(g) && g in db.generations && db.generations[g].active
      && (q == FirstLegacy ==> db.generations[g].organization == scope.organization)
      && (q == Legacy ==> db.generations[g].dimension == 32) && (q == Bge ==> db.generations[g].dimension == 1024)
      && var rows := if q == Bge then db.bge else db.legacy;
         && (g, c) in rows && rows[(g, c)].ready && rows[(g, c)].organization == scope.organization
         && c in db.chunks && db.chunks[c].ready && db.chunks[c].scope.organization == scope.organization
         && (q == FirstLegacy ==> db.chunks[c].scope == scope)
         && db.chunks[c].document in db.documents
         && var document := db.documents[db.chunks[c].document];
            && document.scope.organization == scope.organization && (q == FirstLegacy ==> document.scope == scope)
            && document.status != Retired && (document.status == SyntheticTestOnly ==> allowSynthetic)
  }

  /** A query chooses from exactly the chunks it is entitled to. */
  lemma VisibleIsEntitled(db: Db, q: Query, scope: Scope, allowSynthetic: bool, c: nat)
    ensures c in Visible(db, q, scope, allowSynthetic) <==> Entitled(db, q, scope, allowSynthetic, c)
  {
  }

  /** So nothing crosses organizations, and no retired or forbidden synthetic document is returned. */
  lemma EveryHitIsEntitled(
    db: Db, q: Query, setting: nat, scope: Scope, distance: Vector -> real, k: int, allowSynthetic: bool)
    ensures forall h :: h in Search(db, q, setting, scope, distance, k, allowSynthetic) ==>
              setting == scope.organization && Entitled(db, q, scope, allowSynthetic, h.chunk)
  {
    SearchReturnsCandidates(db, q, setting, scope, distance, k, allowSynthetic);
    CandidatesAreVisible(db, q, scope, distance, allowSynthetic);
    forall c: nat ensures c in Visible(db, q, scope, allowSynthetic) <==> Entitled(db, q, scope, allowSynthetic, c) {
      VisibleIsEntitled(db, q, scope, allowSynthetic, c);
    }
  }

  function WithoutSynthetic(db: Db): Db {
    db.(documents := map d | d in db.documents && db.documents[d].status != SyntheticTestOnly :: db.documents[d])
  }

  function SyntheticApproved(db: Db): Db {
    db.(documents := map d | d in db.documents ::
          if db.documents[d].status == SyntheticTestOnly then db.documents[d].(status := Approved) else db.documents[d])
  }

  lemma SameRowsSameCandidates(a: Db, b: Db, q: Query, scope: Scope, distance: Vector -> real, x: bool, y: bool)
    requires a == b.(documents := a.documents)
    requires forall c :: ChunkJoins(a, q, scope, x, c) <==> ChunkJoins(b, q, scope, y, c)
    ensures Candidates(a, q, scope, distance, x) == Candidates(b, q, scope, distance, y)
  {
    match Pointer(b, q, scope)
    case None =>
    case Some(g) => assert Joined(a, q, g, scope, x) == Joined(b, q, g, scope, y);
  }

  lemma WithoutSyntheticJoins(db: Db, q: Query, scope: Scope, any: bool)
    ensures forall c :: ChunkJoins(WithoutSynthetic(db), q, scope, any, c) <==> ChunkJoins(db, q, scope, false, c)
  {
  }

  lemma SyntheticApprovedJoins(db: Db, q: Query, scope: Scope, any: bool)
    ensures forall c :: ChunkJoins(SyntheticApproved(db), q, scope, any, c) <==> ChunkJoins(db, q, scope, true, c)
  {
  }

  /** Where synthetic documents are not allowed, a query answers as if they did not exist; where they are,
      as if they were approved. */
  lemma SyntheticExactly(db: Db, q: Query, setting: nat, scope: Scope, distance: Vector -> real, k: int, any: bool)
    ensures Search(db, q, setting, scope, distance, k, false) ==
            Search(WithoutSynthetic(db), q, setting, scope, distance, k, any)
    ensures Search(db, q, setting, scope, distance, k, true) ==
            Search(SyntheticApproved(db), q, setting, scope, distance, k, any)
  {
    WithoutSyntheticJoins(db, q, scope, any);
    SyntheticApprovedJoins(db, q, scope, any);
    SameRowsSameCandidates(WithoutSynthetic(db), db, q, scope, distance, any, false);
    SameRowsSameCandidates(SyntheticApproved(db), db, q, scope, distance, any, true);
  }

  // ---------------------------------------------------------------- staying in scope

  predicate InScope(db: Db, scope: Scope, c: nat) {
    c in db.chunks && db.chunks[c].scope == scope
  }

  /** Whatever is asked of it, the query returns only chunks of the scope. */
  ghost predicate StaysInScope(db: Db, q: Query, scope: Scope, allowSynthetic: bool) {
    forall distance: Vector -> real, k: int, h: Hit ::
      h in Search(db, q, scope.organization, scope, distance, k, allowSynthetic) ==> InScope(db, scope, h.chunk)
  }

  /** Visible chunks that have the vector of `c` and a smaller id: they come before `c` in every query. */
  ghost function Covers(db: Db, q: Query, scope: Scope, allowSynthetic: bool, g: nat, c: nat): set<nat> {
    var rows := Table(db, q);
    set x | x in Visible(db, q, scope, allowSynthetic) && x < c && (g, x) in rows && (g, c) in rows &&
            rows[(g, x)].vector == rows[(g, c)].vector
  }

  /** Some visible chunk lies outside the scope, and fewer than 100 come before it in every query. */
  ghost predicate Leaks(db: Db, q: Query, scope: Scope, allowSynthetic: bool, c: nat) {
    && Pointer(db, q, scope).Some? && c in Visible(db, q, scope, allowSynthetic) && !InScope(db, scope, c)
    && |Covers(db, q, scope, allowSynthetic, Pointer(db, q, scope).value, c)| < 100
  }

  lemma CoversComeBefore(db: Db, q: Query, scope: Scope, distance: Vector -> real, allowSynthetic: bool, g: nat, h: Hit)
    requires Pointer(db, q, scope) == Some(g) && h in Candidates(db, q, scope, distance, allowSynthetic)
    ensures |Covers(db, q, scope, allowSynthetic, g, h.chunk)|
         <= |Ahead(Candidates(db, q, scope, distance, allowSynthetic), h)|
  {
    var covers := Covers(db, q, scope, allowSynthetic, g, h.chunk);
    OneHitPerChunk(covers, Table(db, q), g, distance);
    SubsetSize(Hits(covers, Table(db, q), g, distance), Ahead(Candidates(db, q, scope, distance, allowSynthetic), h));
  }

  function Pick(v: Vector): Vector -> real {
    x => if x == v then 0.0 else 1.0
  }

  /** The query for its own vector returns a leaking chunk. */
  lemma LeakIsReturned(db: Db, q: Query, scope: Scope, allowSynthetic: bool, c: nat)
    requires Leaks(db, q, scope, allowSynthetic, c)
    ensures !StaysInScope(db, q, scope, allowSynthetic)
  {
    var g, rows := Pointer(db, q, scope).value, Table(db, q);
    var distance := Pick(rows[(g, c)].vector);
    var candidates := Candidates(db, q, scope, distance, allowSynthetic);
    var h := Hit(c, 0.0);
    assert h in candidates;
    CandidatesAreVisible(db, q, scope, distance, allowSynthetic);
    var covers := Covers(db, q, scope, allowSynthetic, g, c);
    OneHitPerChunk(covers, rows, g, distance);
    assert Ahead(candidates, h) <= Hits(covers, rows, g, distance);
    SubsetSize(Ahead(candidates, h), Hits(covers, rows, g, distance));
    ReturnedExactly(candidates, h, 100);
    assert h in Search(db, q, scope.organization, scope, distance, 100, allowSynthetic);
  }

  /** When a query stays in its scope, exactly: no visible chunk outside the scope can come among the
      first 100. */
  lemma StaysInScopeExactly(db: Db, q: Query, scope: Scope, allowSynthetic: bool)
    ensures StaysInScope(db, q, scope, allowSynthetic) <==> forall c :: !Leaks(db, q, scope, allowSynthetic, c)
  {
    if c :| Leaks(db, q, scope, allowSynthetic, c) {
      LeakIsReturned(db, q, scope, allowSynthetic, c);
    } else {
      forall distance: Vector -> real, k: int, h: Hit |
        h in Search(db, q, scope.organization, scope, distance, k, allowSynthetic)
        ensures InScope(db, scope, h.chunk)
      {
        var candidates := Candidates(db, q, scope, distance, allowSynthetic);
        SearchReturnsCandidates(db, q, scope.organization, scope, distance, k, allowSynthetic);
        CandidatesAreVisible(db, q, scope, distance, allowSynthetic);
        ReturnedExactly(candidates, h, k);
        CoversComeBefore(db, q, scope, distance, allowSynthetic, Pointer(db, q, scope).value, h);
        assert !Leaks(db, q, scope, allowSynthetic, h.chunk);
      }
    }
  }

  /** The first query stays in its scope whatever the tables hold. */
  lemma FirstQueryStaysInScope(db: Db, scope: Scope, allowSynthetic: bool)
    ensures StaysInScope(db, FirstLegacy, scope, allowSynthetic)
  {
    StaysInScopeExactly(db, FirstLegacy, scope, allowSynthetic);
  }

  /** The later ones do if every READY embedding of the generation pointed to is of a chunk of the scope. */
  lemma OwnEmbeddingsStayInScope(db: Db, q: Query, scope: Scope, allowSynthetic: bool)
    requires forall g, c :: Pointer(db, q, scope) == Some(g) && EmbeddingJoins(Table(db, q), g, scope, c) ==>
               InScope(db, scope, c)
    ensures StaysInScope(db, q, scope, allowSynthetic)
  {
    StaysInScopeExactly(db, q, scope, allowSynthetic);
  }

  /** They can leak: a generation of one guide that embeds a chunk of another guide. */
  lemma LaterQueriesCanLeak(q: Query)
    requires !q.FirstLegacy?
    ensures exists db, scope :: !StaysInScope(db, q, scope, false)
  {
    var mine, other := Scope(0, "a", "1", "s"), Scope(0, "b", "1", "s");
    var rows: Embeddings := map[(5, 10) := Embedding(0, true, 0)];
    var db := Db(map[1 := Document(other, Approved, 7)], map[10 := Chunk(1, other, true)],
                 map[5 := Generation(0, 1, Dimension(q), true)], rows, rows, map[], map[(mine, Dimension(q)) := 5]);
    assert mine.guide[0] != other.guide[0];
    assert Pointer(db, q, mine) == Some(5) && Table(db, q) == rows;
    assert EmbeddingJoins(rows, 5, mine, 10) && ChunkJoins(db, q, mine, false, 10);
    assert Visible(db, q, mine, false) == {10};
    assert Covers(db, q, mine, false, 5, 10) == {};
    assert Leaks(db, q, mine, false, 10);
    LeakIsReturned(db, q, mine, false, 10);
  }
}
