/** Vector generations of one approved guide document: rebuild, validate, activate, roll back and
    restore, with crashes allowed between any two steps, by any number of processes at once.

    The machine commits after every step. The tool opens one connection whose outer transaction makes
    its inner ones savepoints, so it commits only at the end of a run and keeps nothing of a run that
    raised: the machine's commit points and crashes include those of the tool, and more. `Rebuild`
    below is a run as the tool does it, all or nothing.

    `chunks` is the document's fixed list of READY chunk ids (a primary key, hence no repetition). */
module VectorGenerations {
  import opened Options
  import opened Elements

  const LEGACY_DIMENSION: nat := 32
  const BGE_DIMENSION: nat := 1024

  datatype Status = Building | Ready | Active | Other

  /** `embedded`: the chunks that have a READY embedding in this generation. */
  datatype Generation = Generation(dimension: nat, status: Status, embedded: set<nat>)

  /** `pointers`: the active generation per dimension. */
  datatype Db = Db(generations: map<nat, Generation>, pointers: map<nat, nat>)

  predicate Has(db: Db, g: nat, dimension: nat) {
    g in db.generations && db.generations[g].dimension == dimension
  }

  function WithStatus(db: Db, g: nat, status: Status): Db
    requires g in db.generations
  {
    db.(generations := db.generations[g := db.generations[g].(status := status)])
  }

  // ---------------------------------------------------------------- the transactions

  /** Upsert of the generation row; earlier embeddings stay. */
  function BeginBuild(db: Db, target: nat): Db {
    if target in db.generations then WithStatus(db, target, Building)
    else db.(generations := db.generations[target := Generation(BGE_DIMENSION, Building, {})])
  }

  function UpsertEmbedding(db: Db, target: nat, chunk: nat): Db
    requires target in db.generations
  {
    var g := db.generations[target];
    db.(generations := db.generations[target := g.(embedded := g.embedded + {chunk})])
  }

  /** The coverage check compares counts only. `None`: raised and rolled back. */
  function Validate(db: Db, target: nat, count: nat): Option<Db>
    requires target in db.generations
  {
    if |db.generations[target].embedded| != count then None
    else
      var activated := WithStatus(db, target, Active);
      Some(activated.(pointers := activated.pointers[BGE_DIMENSION := target]))
  }

  function Finalize(db: Db, target: nat, activate: bool): Db
    requires target in db.generations
  {
    WithStatus(db, target, if activate then Active else Ready)
  }

  /** Which row the `ORDER BY ... LIMIT 1` picks is left open. */
  function Rollback(db: Db, legacy: nat): Option<Db> {
    if Has(db, legacy, LEGACY_DIMENSION) && db.generations[legacy].status == Active
    then Some(db.(pointers := db.pointers[LEGACY_DIMENSION := legacy])) else None
  }

  function Restore(db: Db, bge: nat): Option<Db> {
    if Has(db, bge, BGE_DIMENSION) && (db.generations[bge].status == Ready || db.generations[bge].status == Active)
    then
      var activated := WithStatus(db, bge, Active);
      Some(activated.(pointers := activated.pointers[BGE_DIMENSION := bge]))
    else None
  }

  // ---------------------------------------------------------------- what a search can see

  predicate Live(db: Db) {
    && BGE_DIMENSION in db.pointers
    && Has(db, db.pointers[BGE_DIMENSION], BGE_DIMENSION)
    && db.generations[db.pointers[BGE_DIMENSION]].status == Active
  }

  /** Chunks the 1024-dimension search can return. */
  function Visible(db: Db, ready: set<nat>): set<nat> {
    if Live(db) then db.generations[db.pointers[BGE_DIMENSION]].embedded * ready else {}
  }

  /** Every validated 1024-dimension generation covers exactly the READY chunks. */
  ghost predicate Covered(db: Db, ready: set<nat>) {
    forall g :: Has(db, g, BGE_DIMENSION) &&
                (db.generations[g].status == Ready || db.generations[g].status == Active) ==>
      db.generations[g].embedded == ready
  }

  // ---------------------------------------------------------------- interleaved processes

  datatype Process = Embedding(done: nat, activate: bool) | Validated(activate: bool) | Gone

  datatype State = State(db: Db, processes: map<nat, Process>)

  datatype Step =
    | Start(p: nat, activate: bool)
    | Embed(p: nat)
    | Check(p: nat)
    | Finish(p: nat, passed: bool)
    | Crash(p: nat)
    | RollBack(g: nat)
    | RestoreBge(g: nat)

  function Do(s: State, step: Step, target: nat, chunks: seq<nat>): State {
    match step
    case Start(p, activate) =>
      if p in s.processes || (target in s.db.generations && !Has(s.db, target, BGE_DIMENSION)) then s
      else State(BeginBuild(s.db, target), s.processes[p := Embedding(0, activate)])
    case Embed(p) =>
      if p in s.processes && s.processes[p].Embedding? && s.processes[p].done < |chunks| && target in s.db.generations
      then State(UpsertEmbedding(s.db, target, chunks[s.processes[p].done]),
                 s.processes[p := s.processes[p].(done := s.processes[p].done + 1)])
      else s
    case Check(p) =>
      if p in s.processes && s.processes[p].Embedding? && s.processes[p].done == |chunks| && target in s.db.generations
      then
        (match Validate(s.db, target, |chunks|)
         case Some(db) => State(db, s.processes[p := Validated(s.processes[p].activate)])
         case None => s.(processes := s.processes[p := Gone]))
      else s
    case Finish(p, passed) =>
      if p in s.processes && s.processes[p].Validated? && target in s.db.generations
      then State(Finalize(s.db, target, s.processes[p].activate && passed), s.processes[p := Gone])
      else s
    case Crash(p) => if p in s.processes then s.(processes := s.processes[p := Gone]) else s
    case RollBack(g) => (match Rollback(s.db, g) case Some(db) => s.(db := db) case None => s)
    case RestoreBge(g) => (match Restore(s.db, g) case Some(db) => s.(db := db) case None => s)
  }

  function Exec(s: State, steps: seq<Step>, target: nat, chunks: seq<nat>): State {
    if steps == [] then s
    else Do(Exec(s, steps[..|steps| - 1], target, chunks), steps[|steps| - 1], target, chunks)
  }

  /** A process embeds the chunks in order and nobody deletes an embedding. */
  ghost predicate Inv(s: State, target: nat, chunks: seq<nat>) {
    && Covered(s.db, ElementSet(chunks))
    && (forall p :: p in s.processes && s.processes[p].Embedding? ==>
          && Has(s.db, target, BGE_DIMENSION) && s.processes[p].done <= |chunks|
          && ElementSet(chunks[..s.processes[p].done]) <= s.db.generations[target].embedded)
    && (forall p :: p in s.processes && s.processes[p].Validated? ==>
          Has(s.db, target, BGE_DIMENSION) && s.db.generations[target].embedded == ElementSet(chunks))
  }

  /** Upserting every chunk plus an equal count forces set equality. */
  lemma CountForcesEquality(embedded: set<nat>, chunks: seq<nat>)
    requires Distinct(chunks) && ElementSet(chunks) <= embedded && |embedded| == |chunks|
    ensures embedded == ElementSet(chunks)
  {
    DistinctCount(chunks);
    SubsetSize(ElementSet(chunks), embedded);
  }

  lemma EmbedKeepsInv(s: State, p: nat, target: nat, chunks: seq<nat>)
    requires Inv(s, target, chunks)
    ensures Inv(Do(s, Embed(p), target, chunks), target, chunks)
  {
    var t := Do(s, Embed(p), target, chunks);
    if t != s {
      var done := s.processes[p].done;
      assert chunks[done] in ElementSet(chunks);
      ElementsSnoc(chunks, done);
    }
  }

  lemma CheckKeepsInv(s: State, p: nat, target: nat, chunks: seq<nat>)
    requires Inv(s, target, chunks) && Distinct(chunks)
    ensures Inv(Do(s, Check(p), target, chunks), target, chunks)
  {
    var t := Do(s, Check(p), target, chunks);
    if p in t.processes && t.processes[p].Validated? && t != s {
      assert chunks[..|chunks|] == chunks;
      CountForcesEquality(s.db.generations[target].embedded, chunks);
    }
  }

  lemma StepKeepsInv(s: State, step: Step, target: nat, chunks: seq<nat>)
    requires Inv(s, target, chunks) && Distinct(chunks)
    ensures Inv(Do(s, step, target, chunks), target, chunks)
  {
    match step
    case Embed(p) => EmbedKeepsInv(s, p, target, chunks);
    case Check(p) => CheckKeepsInv(s, p, target, chunks);
    case Start(p, _) => assert ElementSet(chunks[..0]) == {};
    case _ =>
  }

  lemma {:induction false} EveryRunKeepsInv(s: State, steps: seq<Step>, target: nat, chunks: seq<nat>)
    requires Inv(s, target, chunks) && Distinct(chunks)
    ensures Inv(Exec(s, steps, target, chunks), target, chunks)
  {
    if steps != [] {
      EveryRunKeepsInv(s, steps[..|steps| - 1], target, chunks);
      StepKeepsInv(Exec(s, steps[..|steps| - 1], target, chunks), steps[|steps| - 1], target, chunks);
    }
  }

  // ---------------------------------------------------------------- what every run guarantees

  /** At every commit point of every interleaving, a pointed-to ACTIVE 1024-dimension generation has
      READY embeddings for exactly the document's READY chunks; so a search sees all of the document
      or nothing of it, never a part. */
  lemma EveryCommitIsSafeToSearch(db: Db, steps: seq<Step>, target: nat, chunks: seq<nat>)
    requires Distinct(chunks) && Covered(db, ElementSet(chunks))
    ensures var now := Exec(State(db, map[]), steps, target, chunks).db;
            && (Live(now) ==> now.generations[now.pointers[BGE_DIMENSION]].embedded == ElementSet(chunks))
            && Visible(now, ElementSet(chunks)) == (if Live(now) then ElementSet(chunks) else {})
  {
    EveryRunKeepsInv(State(db, map[]), steps, target, chunks);
  }

  /** Only a rollback moves the 32-dimension pointer, and a rollback moves nothing else. */
  lemma OnlyRollbackMovesLegacyPointer(s: State, step: Step, target: nat, chunks: seq<nat>)
    ensures var t := Do(s, step, target, chunks);
            && (!step.RollBack? ==> (LEGACY_DIMENSION in t.db.pointers <==> LEGACY_DIMENSION in s.db.pointers))
            && (!step.RollBack? && LEGACY_DIMENSION in s.db.pointers ==>
                  t.db.pointers[LEGACY_DIMENSION] == s.db.pointers[LEGACY_DIMENSION])
            && (step.RollBack? ==>
                  && t.db.generations == s.db.generations
                  && t.db.pointers - {LEGACY_DIMENSION} == s.db.pointers - {LEGACY_DIMENSION})
  {
  }

  // ---------------------------------------------------------------- the tables as a history

  /** What a step writes to the pointers and statuses. */
  datatype Effect = Point(dimension: nat, g: nat) | Mark(g: nat, status: Status)

  predicate ReadyToCheck(s: State, p: nat, target: nat, chunks: seq<nat>) {
    && p in s.processes && s.processes[p].Embedding? && s.processes[p].done == |chunks|
    && target in s.db.generations && |s.db.generations[target].embedded| == |chunks|
  }

  function Effects(s: State, step: Step, target: nat, chunks: seq<nat>): seq<Effect> {
    match step
    case Start(p, _) =>
      if p !in s.processes && (target in s.db.generations ==> Has(s.db, target, 1024)) then [Mark(target, Building)]
      else []
    case Embed(_) => []
    case Check(p) =>
      if ReadyToCheck(s, p, target, chunks) then [Mark(target, Active), Point(1024, target)] else []
    case Finish(p, passed) =>
      if p in s.processes && s.processes[p].Validated? && target in s.db.generations
      then [Mark(target, if s.processes[p].activate && passed then Active else Ready)] else []
    case Crash(_) => []
    case RollBack(g) =>
      if Has(s.db, g, 32) && s.db.generations[g].status == Active then [Point(32, g)] else []
    case RestoreBge(g) =>
      if Has(s.db, g, 1024) && s.db.generations[g].status in {Ready, Active} then [Mark(g, Active), Point(1024, g)]
      else []
  }

  /** Everything a run wrote, in order. */
  function History(s: State, steps: seq<Step>, target: nat, chunks: seq<nat>): seq<Effect> {
    if steps == [] then []
    else
      var n := |steps| - 1;
      History(s, steps[..n], target, chunks) + Effects(Exec(s, steps[..n], target, chunks), steps[n], target, chunks)
  }

  /** The last generation pointed to for a dimension, else `initial`. */
  function LastPointed(history: seq<Effect>, dimension: nat, initial: Option<nat>): Option<nat> {
    if history == [] then initial
    else
      var last := history[|history| - 1];
      if last.Point? && last.dimension == dimension then Some(last.g)
      else LastPointed(history[..|history| - 1], dimension, initial)
  }

  function LastMarked(history: seq<Effect>, g: nat, initial: Option<Status>): Option<Status> {
    if history == [] then initial
    else
      var last := history[|history| - 1];
      if last.Mark? && last.g == g then Some(last.status)
      else LastMarked(history[..|history| - 1], g, initial)
  }

  function PointerOf(db: Db, dimension: nat): Option<nat> {
    if dimension in db.pointers then Some(db.pointers[dimension]) else None
  }

  function StatusOf(db: Db, g: nat): Option<Status> {
    if g in db.generations then Some(db.generations[g].status) else None
  }

  lemma {:induction false} LastPointedConcat(a: seq<Effect>, b: seq<Effect>, dimension: nat, initial: Option<nat>)
    ensures LastPointed(a + b, dimension, initial) == LastPointed(b, dimension, LastPointed(a, dimension, initial))
  {
    if b == [] {
      assert a + b == a;
    } else {
      LastPointedConcat(a, b[..|b| - 1], dimension, initial);
      assert (a + b)[..|a + b| - 1] == a + b[..|b| - 1];
    }
  }

  lemma {:induction false} LastMarkedConcat(a: seq<Effect>, b: seq<Effect>, g: nat, initial: Option<Status>)
    ensures LastMarked(a + b, g, initial) == LastMarked(b, g, LastMarked(a, g, initial))
  {
    if b == [] {
      assert a + b == a;
    } else {
      LastMarkedConcat(a, b[..|b| - 1], g, initial);
      assert (a + b)[..|a + b| - 1] == a + b[..|b| - 1];
    }
  }

  lemma LastOfFew(effects: seq<Effect>)
    requires |effects| <= 2
    ensures forall d, i :: LastPointed(effects, d, i) ==
              if |effects| == 2 && effects[1].Point? && effects[1].dimension == d then Some(effects[1].g)
              else if |effects| >= 1 && effects[0].Point? && effects[0].dimension == d then Some(effects[0].g) else i
    ensures forall g, i :: LastMarked(effects, g, i) ==
              if |effects| == 2 && effects[1].Mark? && effects[1].g == g then Some(effects[1].status)
              else if |effects| >= 1 && effects[0].Mark? && effects[0].g == g then Some(effects[0].status) else i
  {
    if |effects| == 2 {
      assert effects[..1] == [effects[0]] && [effects[0]][..0] == [];
    } else if |effects| == 1 {
      assert effects[..0] == [];
    }
  }

  lemma StepWritesEffects(s: State, step: Step, target: nat, chunks: seq<nat>, dimension: nat, g: nat)
    ensures var t, effects := Do(s, step, target, chunks), Effects(s, step, target, chunks);
            && PointerOf(t.db, dimension) == LastPointed(effects, dimension, PointerOf(s.db, dimension))
            && StatusOf(t.db, g) == LastMarked(effects, g, StatusOf(s.db, g))
  {
    LastOfFew(Effects(s, step, target, chunks));
  }

  /** After every run each pointer is the one last written, the 32-dimension pointer by the last rollback
      that found an ACTIVE generation, and each status is the one last marked; what no step wrote is as it
      was at the start. */
  lemma {:induction false} TablesAreHistory(
    s: State, steps: seq<Step>, target: nat, chunks: seq<nat>, dimension: nat, g: nat)
    ensures var t, history := Exec(s, steps, target, chunks), History(s, steps, target, chunks);
            && PointerOf(t.db, dimension) == LastPointed(history, dimension, PointerOf(s.db, dimension))
            && StatusOf(t.db, g) == LastMarked(history, g, StatusOf(s.db, g))
  {
    if steps != [] {
      var n := |steps| - 1;
      var before := Exec(s, steps[..n], target, chunks);
      var effects := Effects(before, steps[n], target, chunks);
      TablesAreHistory(s, steps[..n], target, chunks, dimension, g);
      StepWritesEffects(before, steps[n], target, chunks, dimension, g);
      LastPointedConcat(History(s, steps[..n], target, chunks), effects, dimension, PointerOf(s.db, dimension));
      LastMarkedConcat(History(s, steps[..n], target, chunks), effects, g, StatusOf(s.db, g));
    }
  }

  function EmbeddedOf(db: Db, g: nat): set<nat> {
    if g in db.generations then db.generations[g].embedded else {}
  }

  /** Only embedding a chunk changes the embeddings, by that chunk: nothing is deleted. */
  lemma EmbedAddsOneChunk(s: State, step: Step, target: nat, chunks: seq<nat>, g: nat)
    ensures var t := Do(s, step, target, chunks);
            var embeds := && step.Embed? && g == target && target in s.db.generations && step.p in s.processes
                          && s.processes[step.p].Embedding? && s.processes[step.p].done < |chunks|;
            EmbeddedOf(t.db, g) == EmbeddedOf(s.db, g) + if embeds then {chunks[s.processes[step.p].done]} else {}
  {
  }

  /** A process ends by crashing, by a failed check or by finishing; one that has ended does nothing more. */
  lemma EndedProcessesStay(s: State, step: Step, p: nat, target: nat, chunks: seq<nat>)
    ensures p in s.processes && s.processes[p].Gone? ==>
              p in Do(s, step, target, chunks).processes && Do(s, step, target, chunks).processes[p].Gone?
    ensures p in s.processes && s.processes[p].Gone? && step in {Embed(p), Check(p), Crash(p), Finish(p, true)} ==>
              Do(s, step, target, chunks) == s
    ensures p in s.processes && step == Crash(p) ==>
              Do(s, step, target, chunks) == s.(processes := s.processes[p := Gone])
  {
  }

  /** A rollback points dimension 32 to the generation, when that is ACTIVE, and does nothing otherwise. */
  lemma RollbackPoints(s: State, g: nat, target: nat, chunks: seq<nat>)
    ensures var t := Do(s, RollBack(g), target, chunks);
            if Has(s.db, g, 32) && s.db.generations[g].status == Active
            then t == s.(db := s.db.(pointers := s.db.pointers[32 := g])) else t == s
  {
  }

  // ---------------------------------------------------------------- one undisturbed rebuild

  class VectorStore {
    var generations: map<nat, Generation>
    var pointers: map<nat, nat>

    ghost function Rows(): Db
      reads this
    {
      Db(generations, pointers)
    }

    method EmbedAll(target: nat, chunks: seq<nat>)
      requires target in generations
      modifies this
      ensures pointers == old(pointers) && target in generations
      ensures generations == old(generations)[target := generations[target]]
      ensures var row := old(generations[target]);
              generations[target] == row.(embedded := row.embedded + ElementSet(chunks))
    {
      var row := generations[target];
      ghost var stale := row.embedded;
      for i := 0 to |chunks|
        invariant row == old(generations[target]).(embedded := stale + ElementSet(chunks[..i]))
        invariant generations == old(generations)[target := row]
        invariant pointers == old(pointers)
      {
        ElementsSnoc(chunks, i);
        row := row.(embedded := row.embedded + {chunks[i]});
        generations := generations[target := row];
      }
      assert chunks[..|chunks|] == chunks;
    }

    method CheckCoverage(target: nat, count: nat) returns (ok: bool)
      requires target in generations
      modifies this
      ensures ok == Validate(old(Rows()), target, count).Some?
      ensures Rows() == if ok then Validate(old(Rows()), target, count).value else old(Rows())
    {
      ok := |generations[target].embedded| == count;
      if ok {
        generations := generations[target := generations[target].(status := Active)];
        pointers := pointers[BGE_DIMENSION := target];
      }
    }

    /** Upsert of the generation row, then of every embedding, then the coverage check. */
    method BuildAndCheck(target: nat, chunks: seq<nat>) returns (ok: bool)
      requires Distinct(chunks)
      modifies this
      ensures target in generations && generations == old(generations)[target := generations[target]]
      ensures ok <==> Stale(old(generations), target) <= ElementSet(chunks)
      ensures ok ==> pointers == old(pointers)[BGE_DIMENSION := target]
      ensures ok ==> generations[target].embedded == ElementSet(chunks)
      ensures generations[target].dimension ==
              if target in old(generations) then old(generations)[target].dimension else BGE_DIMENSION
    {
      ghost var stale := Stale(generations, target);
      generations := BeginBuild(Db(generations, pointers), target).generations;
      EmbedAll(target, chunks);
      CoverageDecides(stale, chunks);
      ok := CheckCoverage(target, |chunks|);
    }

    /** A whole undisturbed run, all or nothing. It passes the coverage check exactly when the
        generation held no READY embedding outside the READY chunks, and otherwise changes nothing;
        afterwards a search sees everything exactly when the caller asked for activation and the
        quality comparison passed. */
    method Rebuild(target: nat, chunks: seq<nat>, activate: bool, passed: bool) returns (ok: bool)
      requires Distinct(chunks)
      requires target in generations ==> generations[target].dimension == BGE_DIMENSION
      modifies this
      ensures ok <==> Stale(old(generations), target) <= ElementSet(chunks)
      ensures !ok ==> Rows() == old(Rows())
      ensures ok ==> target in generations && generations == old(generations)[target := generations[target]]
      ensures ok ==> generations[target].embedded == ElementSet(chunks)
      ensures ok ==> pointers == old(pointers)[BGE_DIMENSION := target]
      ensures ok ==> Visible(Rows(), ElementSet(chunks)) == (if activate && passed then ElementSet(chunks) else {})
    {
      var savedGenerations, savedPointers := generations, pointers;
      ok := BuildAndCheck(target, chunks);
      if ok {
        var status := if activate && passed then Active else Ready;
        generations := generations[target := generations[target].(status := status)];
      } else {
        generations, pointers := savedGenerations, savedPointers;
      }
    }
  }

  /** The READY embeddings a generation already has. */
  function Stale(generations: map<nat, Generation>, target: nat): set<nat> {
    if target in generations then generations[target].embedded else {}
  }

  lemma CoverageDecides(stale: set<nat>, chunks: seq<nat>)
    requires Distinct(chunks)
    ensures |stale + ElementSet(chunks)| == |chunks| <==> stale <= ElementSet(chunks)
    ensures |stale + ElementSet(chunks)| == |chunks| ==> stale + ElementSet(chunks) == ElementSet(chunks)
  {
    DistinctCount(chunks);
    if |stale + ElementSet(chunks)| == |chunks| {
      CountForcesEquality(stale + ElementSet(chunks), chunks);
    } else {
      assert stale <= ElementSet(chunks) ==> stale + ElementSet(chunks) == ElementSet(chunks);
    }
  }

  /** A rebuild that was only validated is undone by a restore: the generation is live again. */
  lemma RestoreMakesValidatedLive(db: Db, target: nat, ready: set<nat>)
    requires Covered(db, ready) && Has(db, target, BGE_DIMENSION) && db.generations[target].status == Ready
    ensures Restore(db, target).Some?
    ensures Visible(Restore(db, target).value, ready) == ready
  {
  }

  /** Validating without activation takes a live generation out of service. */
  lemma ValidationAloneHidesLiveGeneration(db: Db, target: nat, ready: set<nat>)
    requires Has(db, target, BGE_DIMENSION) && Live(db) && db.pointers[BGE_DIMENSION] == target
    ensures Visible(Finalize(db, target, false), ready) == {}
    ensures Visible(Finalize(db, target, true), ready) == Visible(db, ready)
  {
  }
}
