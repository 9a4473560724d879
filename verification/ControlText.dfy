/** The texts that an explanation stream shows and the texts that it stores. */
module ControlText {
  import opened Options
  import opened PythonText
  import opened ControlStream
  import opened ControlSnapshot

  /** The part of an output that one event shows. */
  function Part(event: Event, key: Key): string {
    match event
    case ControlDelta(id, delta, _) => if key == ControlKey(id) then delta else ""
    case SummaryDelta(delta, _) => if key == Summary then delta else ""
    case _ => ""
  }

  /** What a client that appends deltas shows for an output. */
  function ShownText(events: seq<Event>, key: Key): string {
    if events == [] then "" else ShownText(events[..|events| - 1], key) + Part(events[|events| - 1], key)
  }

  lemma {:induction false} ShownTextConcat(a: seq<Event>, b: seq<Event>, key: Key)
    ensures ShownText(a + b, key) == ShownText(a, key) + ShownText(b, key)
  {
    if b == [] {
      assert a + b == a;
    } else {
      ShownTextConcat(a, b[..|b| - 1], key);
      assert (a + b)[..|a + b| - 1] == a + b[..|b| - 1];
    }
  }

  lemma ShownTextOne(event: Event, key: Key)
    ensures ShownText([event], key) == Part(event, key)
  {
    assert [event][..0] == [];
  }

  lemma {:induction false} ControlDeltasShow(id: string, deltas: seq<string>, key: Key)
    ensures ShownText(ControlDeltas(id, deltas), key) == if key == ControlKey(id) then Join(deltas) else ""
  {
    if deltas != [] {
      var n := |deltas| - 1;
      ControlDeltasShow(id, deltas[..n], key);
      assert ControlDeltas(id, deltas)[..n] == ControlDeltas(id, deltas[..n]);
    }
  }

  lemma {:induction false} SummaryDeltasShow(deltas: seq<string>, key: Key)
    ensures ShownText(SummaryDeltas(deltas), key) == if key == Summary then Join(deltas) else ""
  {
    if deltas != [] {
      var n := |deltas| - 1;
      SummaryDeltasShow(deltas[..n], key);
      assert SummaryDeltas(deltas)[..n] == SummaryDeltas(deltas[..n]);
    }
  }

  /** An event of a control that carries no text. */
  predicate Silent(event: Event) {
    !event.ControlDelta? && !event.SummaryDelta?
  }

  lemma {:induction false} SilentShowNothing(events: seq<Event>, key: Key)
    requires forall i :: 0 <= i < |events| ==> Silent(events[i])
    ensures ShownText(events, key) == ""
  {
    if events != [] {
      SilentShowNothing(events[..|events| - 1], key);
    }
  }

  // ---------------------------------------------------------------- one control

  /** `r` is `q` after it showed `text` for one key, and stored its stripped form if it stored anything. */
  ghost predicate Showed(q: Progress, r: Progress, own: Key, text: string) {
    && (forall key :: ShownText(r.events, key) == ShownText(q.events, key) + if key == own then text else "")
    && (r.cache == q.cache || (own !in q.cache && r.cache == q.cache[own := Strip(text)]))
  }

  lemma SilentAddNothing(events: seq<Event>, silent: seq<Event>, key: Key)
    requires forall i :: 0 <= i < |silent| ==> Silent(silent[i])
    ensures ShownText(events + silent, key) == ShownText(events, key)
  {
    ShownTextConcat(events, silent, key);
    SilentShowNothing(silent, key);
    assert ShownText(events, key) + "" == ShownText(events, key);
  }

  /** Around the deltas of an output stand only silent events. */
  lemma Surrounded(before: seq<Event>, started: Event, deltas: seq<Event>, ended: seq<Event>, key: Key)
    requires Silent(started) && forall i :: 0 <= i < |ended| ==> Silent(ended[i])
    ensures ShownText(before + [started] + deltas + ended, key) == ShownText(before, key) + ShownText(deltas, key)
  {
    SilentAddNothing(before, [started], key);
    ShownTextConcat(before + [started], deltas, key);
    SilentAddNothing(before + [started] + deltas, ended, key);
  }

  /** The text a control shows: the stored one, or the deltas that reached the client. */
  function TextOf(q: Progress, id: string, a: Attempt, useCache: bool): string {
    match Loaded(q.cache, ControlKey(id), useCache, a.loadFails)
    case Some(text) => text
    case None => Join(Delivered(a))
  }

  lemma ExplainShows(q: Progress, index: nat, id: string, a: Attempt, useCache: bool)
    requires index > 0
    ensures Showed(q, Explain(q.(events := q.events + [ControlStarted(index, id)]), index, id, a, useCache),
                   ControlKey(id), TextOf(q, id, a, useCache))
  {
    var own, text := ControlKey(id), TextOf(q, id, a, useCache);
    var r := Explain(q.(events := q.events + [ControlStarted(index, id)]), index, id, a, useCache);
    var loaded := Loaded(q.cache, own, useCache, a.loadFails);
    var deltas := if loaded.Some? then [ControlDelta(id, text, true)] else ControlDeltas(id, Delivered(a));
    var shown := q.events + [ControlStarted(index, id)] + deltas;
    var ended := r.events[|shown|..];
    EndsSilently(q, index, id, a, useCache, shown);
    assert r.events == q.events + [ControlStarted(index, id)] + deltas + ended;
    forall key ensures ShownText(r.events, key) == ShownText(q.events, key) + if key == own then text else "" {
      Surrounded(q.events, ControlStarted(index, id), deltas, ended, key);
      if loaded.Some? {
        ShownTextOne(deltas[0], key);
      } else {
        ControlDeltasShow(id, Delivered(a), key);
      }
    }
  }

  lemma EndsSilently(q: Progress, index: nat, id: string, a: Attempt, useCache: bool, shown: seq<Event>)
    requires index > 0
    requires var loaded := Loaded(q.cache, ControlKey(id), useCache, a.loadFails);
             shown == q.events + [ControlStarted(index, id)] +
               if loaded.Some? then [ControlDelta(id, loaded.value, true)] else ControlDeltas(id, Delivered(a))
    ensures var r := Explain(q.(events := q.events + [ControlStarted(index, id)]), index, id, a, useCache);
            && shown <= r.events && forall i :: |shown| <= i < |r.events| ==> Silent(r.events[i])
  {
  }

  lemma StepShows(q: Progress, index: nat, control: Control, a: Attempt, useCache: bool)
    requires index > 0
    ensures exists text :: Showed(q, Step(q, index, control, a, useCache), ControlKey(control.id), text)
  {
    var r := Step(q, index, control, a, useCache);
    if a.cancelBefore || !control.valid {
      var event := r.events[|q.events|];
      assert r.events == q.events + [event];
      forall key ensures ShownText(r.events, key) == ShownText(q.events, key) + "" {
        ShownTextConcat(q.events, [event], key);
        ShownTextOne(event, key);
      }
      assert Showed(q, r, ControlKey(control.id), "");
    } else {
      ExplainShows(q, index, control.id, a, useCache);
    }
  }

  // ---------------------------------------------------------------- every run

  /** Whatever was stored since `initial` is the stripped text shown for it; nothing has been shown or
      stored yet for the controls from `k` on. */
  ghost predicate TextInv(q: Progress, controls: seq<Control>, k: nat, initial: Cache) {
    && (forall key :: key in q.cache && key !in initial ==> q.cache[key] == Strip(ShownText(q.events, key)))
    && (forall i :: k <= i < |controls| ==>
          && ShownText(q.events, ControlKey(controls[i].id)) == ""
          && (ControlKey(controls[i].id) in q.cache ==> ControlKey(controls[i].id) in initial))
  }

  lemma ShowingKeepsTextInv(q: Progress, r: Progress, controls: seq<Control>, k: nat, initial: Cache, text: string)
    requires k < |controls| && DistinctIds(controls) && TextInv(q, controls, k, initial)
    requires Showed(q, r, ControlKey(controls[k].id), text)
    requires q.cache.Keys >= initial.Keys
    ensures TextInv(r, controls, k + 1, initial)
  {
    var own := ControlKey(controls[k].id);
    forall key | key in r.cache && key !in initial ensures r.cache[key] == Strip(ShownText(r.events, key)) {
      if key == own {
        assert key !in q.cache;
        assert ShownText(q.events, key) + text == text;
      } else {
        assert ShownText(q.events, key) + "" == ShownText(q.events, key);
      }
    }
    forall i | k + 1 <= i < |controls|
      ensures ShownText(r.events, ControlKey(controls[i].id)) == ""
      ensures ControlKey(controls[i].id) in r.cache ==> ControlKey(controls[i].id) in initial
    {
      assert controls[i].id != controls[k].id;
    }
  }

  ghost predicate TextHolds(q: Progress, controls: seq<Control>, k: nat, initial: Cache) {
    TextInv(q, controls, k, initial) && initial.Keys <= q.cache.Keys
  }

  lemma LaterKeepsText(q: Progress, controls: seq<Control>, k: nat, initial: Cache)
    requires TextHolds(q, controls, k, initial)
    ensures TextHolds(q, controls, k + 1, initial)
  {
  }

  lemma StepKeepsText(q: Progress, controls: seq<Control>, k: nat, a: Attempt, useCache: bool, initial: Cache)
    requires k < |controls| && DistinctIds(controls) && TextHolds(q, controls, k, initial)
    ensures TextHolds(Step(q, k + 1, controls[k], a, useCache), controls, k + 1, initial)
  {
    var r := Step(q, k + 1, controls[k], a, useCache);
    StepShows(q, k + 1, controls[k], a, useCache);
    var text :| Showed(q, r, ControlKey(controls[k].id), text);
    ShowingKeepsTextInv(q, r, controls, k, initial, text);
  }

  lemma ProcessKeepsText(
    p: Progress, controls: seq<Control>, attempts: seq<Attempt>, useCache: bool, k: nat, initial: Cache)
    requires k <= |controls| == |attempts| && DistinctIds(controls)
    requires TextInv(p, controls, 0, initial) && initial.Keys <= p.cache.Keys
    ensures TextInv(Process(p, controls, attempts, useCache, k), controls, k, initial)
  {
    var holds := (q: Progress, i: nat) => TextHolds(q, controls, i, initial);
    forall q, i | 0 <= i < k && holds(q, i)
      ensures holds(if q.outcome != Running then q else Step(q, i + 1, controls[i], attempts[i], useCache), i + 1)
    {
      StepKeepsText(q, controls, i, attempts[i], useCache, initial);
      LaterKeepsText(q, controls, i, initial);
    }
    ProcessInduction(p, controls, attempts, useCache, k, holds);
  }

  function SummaryText(cache: Cache, a: Attempt, useCache: bool): string {
    match Loaded(cache, Summary, useCache, a.loadFails)
    case Some(text) => text
    case None => Join(Delivered(a))
  }

  lemma SummaryEvents(cache: Cache, total: nat, a: Attempt, useCache: bool, key: Key)
    ensures ShownText(Summarize(cache, total, a, useCache).events, key) ==
            if key == Summary then SummaryText(cache, a, useCache) else ""
  {
    var loaded := Loaded(cache, Summary, useCache, a.loadFails);
    var deltas := if loaded.Some? then [SummaryDelta(loaded.value, true)] else SummaryDeltas(Delivered(a));
    var events := Summarize(cache, total, a, useCache).events;
    var ended := events[|deltas| + 2..];
    assert events == [AnalysisStarted(total)] + [SummaryStarted] + deltas + ended;
    assert |ended| <= 1 && forall i :: 0 <= i < |ended| ==> Silent(ended[i]);
    Surrounded([AnalysisStarted(total)], SummaryStarted, deltas, ended, key);
    ShownTextOne(AnalysisStarted(total), key);
    if loaded.Some? {
      ShownTextOne(deltas[0], key);
    } else {
      SummaryDeltasShow(Delivered(a), key);
    }
  }

  lemma SummaryStores(cache: Cache, total: nat, a: Attempt, useCache: bool)
    ensures var stored := Summarize(cache, total, a, useCache).cache;
            stored == cache || (Summary !in cache && stored == cache[Summary := Strip(SummaryText(cache, a, useCache))])
  {
  }

  lemma ShownSummary(p: Progress, cache: Cache, controls: seq<Control>, text: string)
    requires forall key :: ShownText(p.events, key) == if key == Summary then text else ""
    requires p.cache == cache || (Summary !in cache && p.cache == cache[Summary := Strip(text)])
    ensures TextInv(p, controls, 0, cache) && cache.Keys <= p.cache.Keys
  {
  }

  lemma SummaryShows(cache: Cache, total: nat, controls: seq<Control>, a: Attempt, useCache: bool)
    ensures TextInv(Summarize(cache, total, a, useCache), controls, 0, cache)
    ensures cache.Keys <= Summarize(cache, total, a, useCache).cache.Keys
  {
    var p, text := Summarize(cache, total, a, useCache), SummaryText(cache, a, useCache);
    forall key ensures ShownText(p.events, key) == if key == Summary then text else "" {
      SummaryEvents(cache, total, a, useCache, key);
    }
    SummaryStores(cache, total, a, useCache);
    ShownSummary(p, cache, controls, text);
  }

  /** In every run over different controls, cancelled, broken or complete, whatever the stream newly
      stored is the stripped text that its deltas showed for it. */
  lemma StoredIsWhatWasShown(
    cache: Cache, total: nat, controls: seq<Control>, summary: Attempt, attempts: seq<Attempt>, useCache: bool)
    requires |controls| == |attempts| && DistinctIds(controls)
    ensures var p := Stream(cache, total, controls, summary, attempts, useCache);
            forall key :: key in p.cache && key !in cache ==> p.cache[key] == Strip(ShownText(p.events, key))
  {
    var p := Summarize(cache, total, summary, useCache);
    SummaryShows(cache, total, controls, summary, useCache);
    if p.outcome == Running {
      ProcessKeepsText(p, controls, attempts, useCache, |controls|, cache);
      var q := Process(p, controls, attempts, useCache, |controls|);
      var event := AnalysisCompleted(total, q.successful, q.failed);
      forall key ensures ShownText(q.events + [event], key) == ShownText(q.events, key) {
        ShownTextConcat(q.events, [event], key);
        ShownTextOne(event, key);
      }
    }
  }
}
