/** The output cache across runs: what a stream stores, what the completed-view snapshot restores,
    and what a later stream replays. */
module ControlSnapshot {
  import opened Options
  import opened PythonText
  import opened ControlStream
  import opened Elements

  const OUTPUT_MAX_CHARS: nat := 100_000

  predicate Usable(content: string) {
    Strip(content) != "" && |content| <= OUTPUT_MAX_CHARS
  }

  datatype Restored = Restored(summary: string, contents: seq<(string, string)>)

  function PresentIds(controls: seq<Control>): set<string> {
    set i | 0 <= i < |controls| && controls[i].valid :: controls[i].id
  }

  function HasUsable(cache: Cache, key: Key): bool {
    key in cache && Usable(cache[key])
  }

  /** The summary and every expected output can be restored. */
  ghost predicate Available(expected: seq<string>, controls: seq<Control>, cache: Cache, legacy: bool) {
    && !legacy && HasUsable(cache, Summary) && PresentIds(controls) == ElementSet(expected)
    && forall i :: 0 <= i < |expected| ==> HasUsable(cache, ControlKey(expected[i]))
  }

  /** The snapshot restores nothing unless everything expected is there. `legacy` is the switch's
      check for an old observation; `expected` is U-01..U-67 or N-01..N-38. */
  method CompletedSnapshot(expected: seq<string>, controls: seq<Control>, cache: Cache, legacy: bool)
    returns (r: Option<Restored>)
    ensures r.Some? <==> Available(expected, controls, cache, legacy)
    ensures r.Some? ==>
              && r.value.summary == cache[Summary]
              && |r.value.contents| == |expected|
              && forall i :: 0 <= i < |expected| ==>
                   r.value.contents[i] == (expected[i], cache[ControlKey(expected[i])])
  {
    ElementsAreMembers(expected);
    assert ElementSet(expected) == set id | id in expected;
    if legacy || !HasUsable(cache, Summary) || PresentIds(controls) != set id | id in expected {
      return None;
    }
    var contents: seq<(string, string)> := [];
    for i := 0 to |expected|
      invariant |contents| == i
      invariant forall j :: 0 <= j < i ==>
                  && HasUsable(cache, ControlKey(expected[j]))
                  && contents[j] == (expected[j], cache[ControlKey(expected[j])])
    {
      var key := ControlKey(expected[i]);
      if !HasUsable(cache, key) {
        return None;
      }
      contents := contents + [(expected[i], cache[key])];
    }
    return Some(Restored(cache[Summary], contents));
  }

  // ---------------------------------------------------------------- the cache only grows

  ghost predicate Grows(a: Cache, b: Cache) {
    forall key :: key in a ==> key in b && b[key] == a[key]
  }

  ghost predicate Loads(attempts: seq<Attempt>) {
    forall i :: 0 <= i < |attempts| ==> !attempts[i].loadFails
  }

  lemma {:induction false} ProcessGrows(
    p: Progress, controls: seq<Control>, attempts: seq<Attempt>, useCache: bool, k: nat)
    requires k <= |controls| == |attempts|
    ensures Grows(p.cache, Process(p, controls, attempts, useCache, k).cache)
    ensures p.calls <= Process(p, controls, attempts, useCache, k).calls
  {
    if k > 0 {
      ProcessGrows(p, controls, attempts, useCache, k - 1);
    }
  }

  /** A stored output is never overwritten or removed. */
  lemma StreamNeverOverwrites(
    cache: Cache, total: nat, controls: seq<Control>, summary: Attempt, attempts: seq<Attempt>, useCache: bool)
    requires |controls| == |attempts|
    ensures Grows(cache, Stream(cache, total, controls, summary, attempts, useCache).cache)
  {
    var p := Summarize(cache, total, summary, useCache);
    assert Grows(cache, p.cache);
    if p.outcome == Running {
      ProcessGrows(p, controls, attempts, useCache, |controls|);
    }
  }

  /** The model was asked only for outputs missing in `initial`, among them all that are stored since. */
  ghost predicate AskedForMissing(q: Progress, initial: Cache) {
    && Grows(initial, q.cache)
    && (forall key :: key in q.calls ==> key !in initial)
    && (forall key :: key in q.cache && key !in initial ==> key in q.calls)
  }

  lemma StepAsksForMissing(q: Progress, index: nat, control: Control, a: Attempt, initial: Cache)
    requires index > 0 && AskedForMissing(q, initial) && !a.loadFails
    ensures AskedForMissing(Step(q, index, control, a, true), initial)
  {
  }

  lemma ProcessCallsMissing(p: Progress, controls: seq<Control>, attempts: seq<Attempt>, k: nat, initial: Cache)
    requires k <= |controls| == |attempts| && Loads(attempts) && AskedForMissing(p, initial)
    ensures AskedForMissing(Process(p, controls, attempts, true, k), initial)
  {
    var holds := (q: Progress, i: nat) => AskedForMissing(q, initial);
    forall q, i | 0 <= i < k && holds(q, i)
      ensures holds(if q.outcome != Running then q else Step(q, i + 1, controls[i], attempts[i], true), i + 1)
    {
      StepAsksForMissing(q, i + 1, controls[i], attempts[i], initial);
    }
    ProcessInduction(p, controls, attempts, true, k, holds);
  }

  /** After a partial run, the model is called only for outputs not yet stored; and whatever is new
      in the cache was asked for in this run. */
  lemma ModelIsCalledOnlyForMissing(
    cache: Cache, total: nat, controls: seq<Control>, summary: Attempt, attempts: seq<Attempt>)
    requires |controls| == |attempts| && Loads(attempts) && !summary.loadFails
    ensures var p := Stream(cache, total, controls, summary, attempts, true);
            && (forall key :: key in p.calls ==> key !in cache)
            && (forall key :: key in p.cache && key !in cache ==> key in p.calls)
  {
    var p := Summarize(cache, total, summary, true);
    if p.outcome == Running {
      ProcessCallsMissing(p, controls, attempts, |controls|, cache);
    }
  }

  // ---------------------------------------------------------------- a healthy run, then a replay

  /** The explanation is not cancelled, ends normally with a usable text and is stored. */
  predicate Healthy(a: Attempt) {
    && !a.cancelBefore && !a.loadFails && !a.storeFails && !CancelSeen(a) && a.ending == Normal
    && Usable(Strip(Join(a.deltas)))
  }

  /** Not cancelled and able to read the cache; the model may do anything. */
  predicate Reads(a: Attempt) {
    !a.cancelBefore && !a.loadFails
  }

  ghost predicate Needed(key: Key, controls: seq<Control>) {
    key == Summary || exists i :: 0 <= i < |controls| && key == ControlKey(controls[i].id)
  }

  /** No stored output that the snapshot needs is blank or too long. */
  ghost predicate NoneUnusable(cache: Cache, controls: seq<Control>) {
    forall key :: key in cache && Needed(key, controls) ==> Usable(cache[key])
  }

  lemma StripIsIdempotent(s: string)
    ensures Strip(Strip(s)) == Strip(s)
  {
    StripLeftEnds(s);
    StripRightEnds(StripLeft(s));
  }

  lemma {:induction false} StripLeftEnds(s: string)
    ensures var t := StripLeft(s); t == "" || !IsSpace(t[0])
  {
    if s != "" && IsSpace(s[0]) {
      StripLeftEnds(s[1..]);
    }
  }

  lemma {:induction false} StripRightEnds(s: string)
    requires s == "" || !IsSpace(s[0])
    ensures var t := StripRight(s);
            (t == "" || (!IsSpace(t[0]) && !IsSpace(t[|t| - 1]))) && Strip(t) == t && t <= s
  {
    if s != "" && IsSpace(s[|s| - 1]) {
      StripRightEnds(s[..|s| - 1]);
    }
  }

  /** `q` is `p` plus usable outputs, among them those of the first `k` controls. */
  ghost predicate Enriched(p: Progress, q: Progress, controls: seq<Control>, k: nat)
    requires k <= |controls|
  {
    && q.outcome == Running && q.failed == p.failed
    && NoneUnusable(q.cache, controls) && Grows(p.cache, q.cache)
    && forall i :: 0 <= i < k ==> ControlKey(controls[i].id) in q.cache
  }

  lemma HealthyStep(p: Progress, q: Progress, controls: seq<Control>, k: nat, a: Attempt)
    requires k < |controls| && Enriched(p, q, controls, k) && controls[k].valid && Healthy(a)
    ensures Enriched(p, Step(q, k + 1, controls[k], a, true), controls, k + 1)
  {
    StripIsIdempotent(Join(a.deltas));
  }

  lemma HealthyProcess(p: Progress, controls: seq<Control>, attempts: seq<Attempt>, k: nat)
    requires k <= |controls| == |attempts| && p.outcome == Running && NoneUnusable(p.cache, controls)
    requires forall i :: 0 <= i < |controls| ==> controls[i].valid && Healthy(attempts[i])
    ensures Enriched(p, Process(p, controls, attempts, true, k), controls, k)
  {
    var holds := (q: Progress, i: nat) => i <= |controls| && Enriched(p, q, controls, i);
    forall q, i | 0 <= i < k && holds(q, i)
      ensures holds(if q.outcome != Running then q else Step(q, i + 1, controls[i], attempts[i], true), i + 1)
    {
      HealthyStep(p, q, controls, i, attempts[i]);
    }
    ProcessInduction(p, controls, attempts, true, k, holds);
  }

  /** A healthy run over the expected controls makes the snapshot available. */
  lemma HealthyRunIsRestorable(
    cache: Cache, total: nat, expected: seq<string>, controls: seq<Control>, summary: Attempt, attempts: seq<Attempt>)
    requires |controls| == |attempts| && NoneUnusable(cache, controls) && Healthy(summary)
    requires forall i :: 0 <= i < |controls| ==> controls[i].valid && Healthy(attempts[i])
    requires PresentIds(controls) == ElementSet(expected)
    ensures var p := Stream(cache, total, controls, summary, attempts, true);
            && p.outcome == Running && p.failed == 0
            && HasUsable(p.cache, Summary)
            && forall i :: 0 <= i < |expected| ==> HasUsable(p.cache, ControlKey(expected[i]))
  {
    var p := Summarize(cache, total, summary, true);
    StripIsIdempotent(Join(summary.deltas));
    assert Strip(Join(summary.deltas)) != "";
    assert p.outcome == Running && NoneUnusable(p.cache, controls) && Summary in p.cache;
    HealthyProcess(p, controls, attempts, |controls|);
    var q := Process(p, controls, attempts, true, |controls|);
    forall i | 0 <= i < |expected| ensures HasUsable(q.cache, ControlKey(expected[i])) {
      assert expected[i] in ElementSet(expected);
      assert expected[i] in PresentIds(controls);
      var j :| 0 <= j < |controls| && controls[j].valid && controls[j].id == expected[i];
    }
  }

  /** `q` is `p` after showing the stored outputs of the first `k` controls. */
  ghost predicate Replayed(p: Progress, q: Progress, controls: seq<Control>, k: nat)
    requires k <= |controls|
    requires forall i :: 0 <= i < |controls| ==> ControlKey(controls[i].id) in p.cache
  {
    && q.outcome == Running && q.cache == p.cache && q.calls == p.calls
    && q.failed == p.failed && q.successful == p.successful + k && p.events <= q.events
    && forall i :: 0 <= i < k ==> ControlDelta(controls[i].id, p.cache[ControlKey(controls[i].id)], true) in q.events
  }

  lemma ReplayStep(p: Progress, index: nat, control: Control, a: Attempt)
    requires index > 0 && p.outcome == Running && control.valid && Reads(a) && ControlKey(control.id) in p.cache
    ensures var q := Step(p, index, control, a, true);
            && q.outcome == Running && q.cache == p.cache && q.calls == p.calls
            && q.failed == p.failed && q.successful == p.successful + 1 && p.events <= q.events
            && ControlDelta(control.id, p.cache[ControlKey(control.id)], true) in q.events
  {
    var q, id := Step(p, index, control, a, true), control.id;
    assert q.events == p.events + [ControlStarted(index, id)] + [ControlDelta(id, p.cache[ControlKey(id)], true)] +
                       [ControlCompleted(id, index, p.successful + 1, p.failed)];
  }

  lemma ReplayProcess(p: Progress, controls: seq<Control>, attempts: seq<Attempt>, k: nat)
    requires k <= |controls| == |attempts| && p.outcome == Running
    requires forall i :: 0 <= i < |controls| ==>
               controls[i].valid && Reads(attempts[i]) && ControlKey(controls[i].id) in p.cache
    ensures Replayed(p, Process(p, controls, attempts, true, k), controls, k)
  {
    var holds := (q: Progress, i: nat) => i <= |controls| && Replayed(p, q, controls, i);
    forall q, i | 0 <= i < k && holds(q, i)
      ensures holds(if q.outcome != Running then q else Step(q, i + 1, controls[i], attempts[i], true), i + 1)
    {
      ReplayStep(q, i + 1, controls[i], attempts[i]);
    }
    ProcessInduction(p, controls, attempts, true, k, holds);
  }

  /** Once everything is stored, any later run that is not cancelled replays the stored texts, makes
      no model call, succeeds for every control and leaves the cache alone. */
  lemma CompleteCacheReplaysWithoutModel(
    cache: Cache, total: nat, controls: seq<Control>, summary: Attempt, attempts: seq<Attempt>)
    requires |controls| == |attempts| && Reads(summary) && Summary in cache
    requires forall i :: 0 <= i < |controls| ==>
               controls[i].valid && Reads(attempts[i]) && ControlKey(controls[i].id) in cache
    ensures var p := Stream(cache, total, controls, summary, attempts, true);
            && p.calls == [] && p.cache == cache && p.outcome == Running
            && p.successful == |controls| && p.failed == 0
            && SummaryDelta(cache[Summary], true) in p.events
            && forall i :: 0 <= i < |controls| ==>
                ControlDelta(controls[i].id, cache[ControlKey(controls[i].id)], true) in p.events
  {
    var p := Summarize(cache, total, summary, true);
    ReplayProcess(p, controls, attempts, |controls|);
    assert SummaryDelta(cache[Summary], true) in p.events;
  }

  /** A healthy run, then any later run: the later one asks the model nothing. */
  lemma HealthyRunThenReplay(cache: Cache, total: nat, controls: seq<Control>, summary: Attempt, attempts: seq<Attempt>,
                             laterSummary: Attempt, later: seq<Attempt>)
    requires |controls| == |attempts| == |later| && NoneUnusable(cache, controls)
    requires Healthy(summary) && Reads(laterSummary)
    requires forall i :: 0 <= i < |controls| ==> controls[i].valid && Healthy(attempts[i]) && Reads(later[i])
    ensures var first := Stream(cache, total, controls, summary, attempts, true);
            var second := Stream(first.cache, total, controls, laterSummary, later, true);
            second.calls == [] && second.cache == first.cache && second.successful == |controls|
  {
    var ids := seq(|controls|, i requires 0 <= i < |controls| => controls[i].id);
    assert PresentIds(controls) == ElementSet(ids) by {
      forall id | id in PresentIds(controls) ensures id in ElementSet(ids) {
        var i :| 0 <= i < |controls| && controls[i].valid && controls[i].id == id;
        assert ids[i] == id;
      }
      forall id | id in ElementSet(ids) ensures id in PresentIds(controls) {
        var i :| 0 <= i < |ids| && ids[i] == id;
        assert controls[i].id == id;
      }
    }
    HealthyRunIsRestorable(cache, total, ids, controls, summary, attempts);
    var first := Stream(cache, total, controls, summary, attempts, true);
    forall i | 0 <= i < |controls| ensures ControlKey(controls[i].id) in first.cache {
      assert HasUsable(first.cache, ControlKey(ids[i]));
    }
    CompleteCacheReplaysWithoutModel(first.cache, total, controls, laterSummary, later);
  }

  ghost predicate DistinctIds(controls: seq<Control>) {
    forall i, j :: 0 <= i < j < |controls| ==> controls[i].id != controls[j].id
  }

  /** The first `k` stored texts are what those controls showed; the others are not stored yet. */
  ghost predicate StoredShown(q: Progress, controls: seq<Control>, attempts: seq<Attempt>, k: nat)
    requires k <= |controls| == |attempts|
  {
    && q.outcome == Running
    && (forall i :: 0 <= i < k ==> ControlKey(controls[i].id) in q.cache)
    && (forall i :: 0 <= i < k ==> q.cache[ControlKey(controls[i].id)] == Strip(Join(attempts[i].deltas)))
    && (forall i :: k <= i < |controls| ==> ControlKey(controls[i].id) !in q.cache)
  }

  lemma StoreStep(q: Progress, controls: seq<Control>, attempts: seq<Attempt>, k: nat)
    requires k < |controls| == |attempts| && DistinctIds(controls) && controls[k].valid && Healthy(attempts[k])
    requires StoredShown(q, controls, attempts, k)
    ensures StoredShown(Step(q, k + 1, controls[k], attempts[k], true), controls, attempts, k + 1)
  {
    var a, key := attempts[k], ControlKey(controls[k].id);
    StripIsIdempotent(Join(a.deltas));
    assert Step(q, k + 1, controls[k], a, true).cache == q.cache[key := Strip(Join(a.deltas))];
  }

  /** A first run stores, for each control, exactly the stripped text its deltas showed. */
  lemma {:induction false} FirstRunStoresWhatWasShown(
    p: Progress, controls: seq<Control>, attempts: seq<Attempt>, k: nat)
    requires k <= |controls| == |attempts| && p.outcome == Running && DistinctIds(controls)
    requires forall i :: 0 <= i < |controls| ==>
               controls[i].valid && Healthy(attempts[i]) && ControlKey(controls[i].id) !in p.cache
    ensures StoredShown(Process(p, controls, attempts, true, k), controls, attempts, k)
  {
    if k > 0 {
      FirstRunStoresWhatWasShown(p, controls, attempts, k - 1);
      StoreStep(Process(p, controls, attempts, true, k - 1), controls, attempts, k - 1);
    }
  }

  // ---------------------------------------------------------------- any number of runs

  datatype Run = Run(total: nat, controls: seq<Control>, summary: Attempt, attempts: seq<Attempt>, useCache: bool)

  function AfterRun(cache: Cache, run: Run): Cache {
    if |run.controls| != |run.attempts| then cache
    else Stream(cache, run.total, run.controls, run.summary, run.attempts, run.useCache).cache
  }

  function After(cache: Cache, runs: seq<Run>): Cache {
    if runs == [] then cache else AfterRun(After(cache, runs[..|runs| - 1]), runs[|runs| - 1])
  }

  lemma {:induction false} RunsNeverOverwrite(cache: Cache, runs: seq<Run>)
    ensures Grows(cache, After(cache, runs))
  {
    if runs != [] {
      var before, run := After(cache, runs[..|runs| - 1]), runs[|runs| - 1];
      RunsNeverOverwrite(cache, runs[..|runs| - 1]);
      if |run.controls| == |run.attempts| {
        StreamNeverOverwrites(before, run.total, run.controls, run.summary, run.attempts, run.useCache);
      }
    }
  }

  /** Whether a stored output can be restored is settled when it is stored: no runs change it. */
  lemma UsableForeverExactly(cache: Cache, runs: seq<Run>, key: Key)
    requires key in cache
    ensures HasUsable(After(cache, runs), key) <==> Usable(cache[key])
  {
    RunsNeverOverwrite(cache, runs);
  }

  ghost predicate NoneBlank(cache: Cache) {
    forall key :: key in cache ==> cache[key] != ""
  }

  lemma {:induction false} ProcessStoresNoBlank(
    p: Progress, controls: seq<Control>, attempts: seq<Attempt>, useCache: bool, k: nat)
    requires k <= |controls| == |attempts| && NoneBlank(p.cache)
    ensures NoneBlank(Process(p, controls, attempts, useCache, k).cache)
  {
    if k > 0 {
      ProcessStoresNoBlank(p, controls, attempts, useCache, k - 1);
    }
  }

  /** No run stores a blank output. */
  lemma {:induction false} RunsStoreNoBlank(cache: Cache, runs: seq<Run>)
    requires NoneBlank(cache)
    ensures NoneBlank(After(cache, runs))
  {
    if runs != [] {
      var run := runs[|runs| - 1];
      RunsStoreNoBlank(cache, runs[..|runs| - 1]);
      var before := After(cache, runs[..|runs| - 1]);
      if |run.controls| == |run.attempts| {
        var p := Summarize(before, run.total, run.summary, run.useCache);
        assert NoneBlank(p.cache);
        ProcessStoresNoBlank(p, run.controls, run.attempts, run.useCache, |run.controls|);
      }
    }
  }

  /** An output can be restored exactly when it has a character that is not white space and is within
      the limit. */
  lemma UsableExactly(content: string)
    ensures Usable(content) <==> (exists i :: 0 <= i < |content| && !IsSpace(content[i])) && |content| <= 100_000
  {
    var before, after := StripExactly(content);
  }

  /** Without the cache every output is asked for, in order. */
  lemma {:induction false} BypassAsksForAll(p: Progress, controls: seq<Control>, attempts: seq<Attempt>, k: nat)
    requires k <= |controls| == |attempts|
    ensures var q := Process(p, controls, attempts, false, k);
            q.outcome == Running ==>
              && p.outcome == Running
              && q.calls == p.calls + seq(k, i requires 0 <= i < k => ControlKey(controls[i].id))
  {
    if k > 0 {
      BypassAsksForAll(p, controls, attempts, k - 1);
    }
  }

  predicate AllValid(controls: seq<Control>) {
    forall i :: 0 <= i < |controls| ==> controls[i].valid
  }

  /** Some further runs over these controls make the snapshot available. */
  ghost predicate Restorable(expected: seq<string>, controls: seq<Control>, cache: Cache) {
    exists runs: seq<Run> ::
      && (forall i :: 0 <= i < |runs| ==> runs[i].controls == controls)
      && Available(expected, controls, After(cache, runs), false)
  }

  /** A run in which the model answers "x" to everything. */
  const GOOD: Attempt := Attempt(false, false, ["x"], None, Normal, false)

  lemma GoodIsHealthy()
    ensures Healthy(GOOD)
  {
    assert ["x"][..0] == [] && Join(["x"]) == "" + "x" == "x";
    assert StripLeft("x") == "x" && StripRight("x") == "x";
  }

  lemma OneRun(cache: Cache, run: Run)
    ensures After(cache, [run]) == AfterRun(cache, run)
  {
    assert [run][..0] == [];
  }

  lemma HealthyRunAvails(expected: seq<string>, cache: Cache, run: Run)
    requires |run.controls| == |run.attempts| && run.useCache && Healthy(run.summary)
    requires AllValid(run.controls) && forall i :: 0 <= i < |run.attempts| ==> Healthy(run.attempts[i])
    requires PresentIds(run.controls) == ElementSet(expected) && NoneUnusable(cache, run.controls)
    ensures Available(expected, run.controls, AfterRun(cache, run), false)
  {
    HealthyRunIsRestorable(cache, run.total, expected, run.controls, run.summary, run.attempts);
  }

  lemma OneGoodRun(expected: seq<string>, controls: seq<Control>, cache: Cache)
    requires AllValid(controls) && PresentIds(controls) == ElementSet(expected) && NoneUnusable(cache, controls)
    ensures Restorable(expected, controls, cache)
  {
    GoodIsHealthy();
    var run := Run(|controls|, controls, GOOD, seq(|controls|, _ => GOOD), true);
    HealthyRunAvails(expected, cache, run);
    OneRun(cache, run);
    assert forall i :: 0 <= i < |[run]| ==> [run][i].controls == controls;
  }

  lemma RestorableHasNoneUnusable(expected: seq<string>, controls: seq<Control>, cache: Cache)
    requires AllValid(controls) && Restorable(expected, controls, cache)
    ensures PresentIds(controls) == ElementSet(expected) && NoneUnusable(cache, controls)
  {
    var runs: seq<Run> :|
      && (forall i :: 0 <= i < |runs| ==> runs[i].controls == controls)
      && Available(expected, controls, After(cache, runs), false);
    forall key | key in cache && Needed(key, controls) ensures Usable(cache[key]) {
      UsableForeverExactly(cache, runs, key);
      if key != Summary {
        var i :| 0 <= i < |controls| && key == ControlKey(controls[i].id);
        assert controls[i].id in PresentIds(controls);
        var j :| 0 <= j < |expected| && expected[j] == controls[i].id;
        assert HasUsable(After(cache, runs), ControlKey(expected[j]));
      }
    }
  }

  /** The length limit is checked on restoring but not on storing. So the snapshot can still become
      available exactly when no needed output that is already stored is blank or too long; one
      oversized output blocks it for good. */
  lemma OversizedOutputBlocksSnapshotForever(expected: seq<string>, controls: seq<Control>, cache: Cache)
    requires AllValid(controls)
    ensures Restorable(expected, controls, cache) <==>
            PresentIds(controls) == ElementSet(expected) && NoneUnusable(cache, controls)
  {
    if Restorable(expected, controls, cache) {
      RestorableHasNoneUnusable(expected, controls, cache);
    } else if PresentIds(controls) == ElementSet(expected) && NoneUnusable(cache, controls) {
      OneGoodRun(expected, controls, cache);
    }
  }

  lemma FirstSummaryIsStored(text: string, run: Run)
    requires Strip(text) == text != "" && |run.controls| == |run.attempts|
    requires run.summary == GOOD.(deltas := [text]) && run.useCache
    ensures var cache := AfterRun(map[], run); Summary in cache && cache[Summary] == text
  {
    assert [text][..0] == [] && Join([text]) == "" + text == text;
    var p := Summarize(map[], run.total, run.summary, true);
    assert p.cache == map[Summary := text] && p.outcome == Running;
    ProcessGrows(p, run.controls, run.attempts, true, |run.controls|);
  }

  lemma LongText() returns (text: string)
    ensures Strip(text) == text && |text| > OUTPUT_MAX_CHARS
  {
    text := seq(OUTPUT_MAX_CHARS + 1, _ => 'a');
    assert StripLeft(text) == text && StripRight(text) == text;
  }

  /** Such an output does get stored: a first run whose summary is too long. */
  lemma OversizedOutputIsStored(expected: seq<string>, controls: seq<Control>)
    requires AllValid(controls)
    ensures exists run: Run :: run.controls == controls && !Restorable(expected, controls, AfterRun(map[], run))
  {
    var text := LongText();
    var run := Run(|controls|, controls, GOOD.(deltas := [text]), seq(|controls|, _ => GOOD), true);
    FirstSummaryIsStored(text, run);
    var cache := AfterRun(map[], run);
    assert Needed(Summary, controls) && !Usable(cache[Summary]);
    OversizedOutputBlocksSnapshotForever(expected, controls, cache);
  }
}
