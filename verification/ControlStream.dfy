/** The per-control AI explanation stream of Linux and switch audits, with its output cache,
    cancellation, failure breaker and counters.

    The two sources differ in what they report as the total (67 for Linux, the list length for a
    switch) and in that a switch with a legacy observation bypasses the cache on reading. */
module ControlStream {
  import opened Options
  import opened PythonText

  datatype Key = Summary | ControlKey(id: string)

  type Cache = map<Key, string>

  /** `valid` is false for a control that is not an object; only the switch stream meets one. */
  datatype Control = Control(id: string, valid: bool)

  datatype Ending = Normal | ContractError | ProviderError

  /** What happens around one explanation: cancellation seen before it starts, a failing cache read
      or write, the model's deltas, the delta at which a cancellation is seen, and how it ends. */
  datatype Attempt = Attempt(
    cancelBefore: bool, loadFails: bool, deltas: seq<string>, cancelAt: Option<nat>,
    ending: Ending, storeFails: bool)

  datatype Event =
    | AnalysisStarted(total: nat)
    | SummaryStarted
    | SummaryDelta(delta: string, cached: bool)
    | SummaryCompleted
    | SummaryFailed
    | ControlStarted(index: nat, id: string)
    | ControlDelta(id: string, delta: string, cached: bool)
    | ControlCompleted(id: string, completed: nat, successful: nat, failed: nat)
    | ControlFailed(id: string, provider: bool, completed: nat, successful: nat, failed: nat)
    | AnalysisCancelled(completed: nat)
    | StreamFailed
    | AnalysisCompleted(completed: nat, successful: nat, failed: nat)

  datatype Outcome = Running | Cancelled | Broken | Rejected

  datatype Progress = Progress(
    events: seq<Event>, calls: seq<Key>, cache: Cache,
    successful: nat, failed: nat, consecutive: nat, outcome: Outcome)

  // ---------------------------------------------------------------- the cache

  function Loaded(cache: Cache, key: Key, useCache: bool, loadFails: bool): Option<string> {
    if useCache && !loadFails && key in cache then Some(cache[key]) else None
  }

  /** Append-only, best effort: a failing write, a blank text or an existing row changes nothing. */
  function Stored(cache: Cache, key: Key, content: string, storeFails: bool): Cache {
    if storeFails || content == "" || key in cache then cache else cache[key := content]
  }

  predicate CancelSeen(a: Attempt) {
    a.cancelAt.Some? && a.cancelAt.value < |a.deltas|
  }

  /** The deltas that reach the client. */
  function Delivered(a: Attempt): seq<string> {
    if CancelSeen(a) then a.deltas[..a.cancelAt.value] else a.deltas
  }

  function ControlDeltas(id: string, deltas: seq<string>): seq<Event> {
    seq(|deltas|, i requires 0 <= i < |deltas| => ControlDelta(id, deltas[i], false))
  }

  function SummaryDeltas(deltas: seq<string>): seq<Event> {
    seq(|deltas|, i requires 0 <= i < |deltas| => SummaryDelta(deltas[i], false))
  }

  // ---------------------------------------------------------------- one control

  function Succeed(p: Progress, index: nat, id: string): Progress {
    p.(events := p.events + [ControlCompleted(id, index, p.successful + 1, p.failed)],
       successful := p.successful + 1, consecutive := 0)
  }

  function Fail(p: Progress, index: nat, id: string, provider: bool): Progress {
    var consecutive := if provider then p.consecutive + 1 else 0;
    var reported := p.events + [ControlFailed(id, provider, index, p.successful, p.failed + 1)];
    p.(events := if consecutive >= 3 then reported + [StreamFailed] else reported,
       failed := p.failed + 1, consecutive := consecutive,
       outcome := if consecutive >= 3 then Broken else Running)
  }

  function Cancel(p: Progress, index: nat): Progress
    requires index > 0
  {
    p.(events := p.events + [AnalysisCancelled(index - 1)], outcome := Cancelled)
  }

  /** The explanation itself, after the control was announced. */
  function Explain(p: Progress, index: nat, id: string, a: Attempt, useCache: bool): Progress
    requires index > 0
  {
    match Loaded(p.cache, ControlKey(id), useCache, a.loadFails)
    case Some(text) => Succeed(p.(events := p.events + [ControlDelta(id, text, true)]), index, id)
    case None =>
      var shown := p.(calls := p.calls + [ControlKey(id)], events := p.events + ControlDeltas(id, Delivered(a)));
      if CancelSeen(a) then Cancel(shown, index)
      else if a.ending == Normal
      then Succeed(shown.(cache := Stored(p.cache, ControlKey(id), Strip(Join(a.deltas)), a.storeFails)), index, id)
      else Fail(shown, index, id, a.ending == ProviderError)
  }

  function Step(p: Progress, index: nat, control: Control, a: Attempt, useCache: bool): Progress
    requires index > 0
  {
    if a.cancelBefore then Cancel(p, index)
    else if !control.valid then p.(events := p.events + [StreamFailed], outcome := Rejected)
    else Explain(p.(events := p.events + [ControlStarted(index, control.id)]), index, control.id, a, useCache)
  }

  /** The first `k` controls; a stopped stream stays as it is. */
  function Process(p: Progress, controls: seq<Control>, attempts: seq<Attempt>, useCache: bool, k: nat): Progress
    requires k <= |controls| == |attempts|
  {
    if k == 0 then p
    else
      var q := Process(p, controls, attempts, useCache, k - 1);
      if q.outcome != Running then q else Step(q, k, controls[k - 1], attempts[k - 1], useCache)
  }

  // ---------------------------------------------------------------- the whole stream

  function Summarize(cache: Cache, total: nat, a: Attempt, useCache: bool): Progress {
    var p := Progress([AnalysisStarted(total), SummaryStarted], [], cache, 0, 0, 0, Running);
    match Loaded(cache, Summary, useCache, a.loadFails)
    case Some(text) => p.(events := p.events + [SummaryDelta(text, true)] + [SummaryCompleted])
    case None =>
      var shown := p.(calls := [Summary], events := p.events + SummaryDeltas(Delivered(a)));
      if CancelSeen(a) then shown.(events := shown.events + [AnalysisCancelled(0)], outcome := Cancelled)
      else if a.ending == Normal
      then shown.(events := shown.events + [SummaryCompleted],
                  cache := Stored(cache, Summary, Strip(Join(a.deltas)), a.storeFails))
      else shown.(events := shown.events + [SummaryFailed])
  }

  function Stream(
    cache: Cache, total: nat, controls: seq<Control>, summary: Attempt, attempts: seq<Attempt>, useCache: bool)
    : Progress
    requires |controls| == |attempts|
  {
    var p := Summarize(cache, total, summary, useCache);
    if p.outcome != Running then p
    else
      var q := Process(p, controls, attempts, useCache, |controls|);
      if q.outcome != Running then q
      else q.(events := q.events + [AnalysisCompleted(total, q.successful, q.failed)])
  }

  // ---------------------------------------------------------------- the generator

  class ExplanationStream {
    var cache: Cache

    constructor (initial: Cache)
      ensures cache == initial
    {
      cache := initial;
    }

    /** Forwards deltas until the model stops or a cancellation is seen. */
    method Forward(a: Attempt) returns (parts: seq<string>, cancelled: bool)
      ensures parts == Delivered(a) && cancelled == CancelSeen(a)
    {
      parts, cancelled := [], false;
      for i := 0 to |a.deltas|
        invariant parts == a.deltas[..i] && !cancelled
        invariant a.cancelAt.Some? ==> i <= a.cancelAt.value
      {
        if a.cancelAt == Some(i) {
          cancelled := true;
          return;
        }
        parts := parts + [a.deltas[i]];
      }
    }

    method Store(key: Key, content: string, storeFails: bool)
      modifies this
      ensures cache == Stored(old(cache), key, content, storeFails)
    {
      if storeFails || content == "" {
        return;
      }
      if key !in cache {
        cache := cache[key := content];
      }
    }

    method SummaryPhase(total: nat, a: Attempt, useCache: bool)
      returns (events: seq<Event>, calls: seq<Key>, cancelled: bool)
      modifies this
      ensures var p := Summarize(old(cache), total, a, useCache);
              events == p.events && calls == p.calls && cache == p.cache && cancelled == (p.outcome == Cancelled)
    {
      events, calls, cancelled := [AnalysisStarted(total), SummaryStarted], [], false;
      if useCache && !a.loadFails && Summary in cache {
        events := events + [SummaryDelta(cache[Summary], true)] + [SummaryCompleted];
        return;
      }
      calls := [Summary];
      var parts: seq<string>;
      parts, cancelled := Forward(a);
      events := events + SummaryDeltas(parts);
      if cancelled {
        events := events + [AnalysisCancelled(0)];
      } else if a.ending == Normal {
        Store(Summary, Strip(Join(parts)), a.storeFails);
        events := events + [SummaryCompleted];
      } else {
        events := events + [SummaryFailed];
      }
    }

    /** Shows the stored text of a control, or asks the model, forwards its deltas and stores them. */
    method ShowControl(id: string, a: Attempt, useCache: bool)
      returns (shown: seq<Event>, called: bool, cancelled: bool, completed: bool)
      modifies this
      ensures var loaded := Loaded(old(cache), ControlKey(id), useCache, a.loadFails);
              && called == loaded.None?
              && shown == (if called then ControlDeltas(id, Delivered(a)) else [ControlDelta(id, loaded.value, true)])
      ensures cancelled == (called && CancelSeen(a)) && completed == (!called || (!CancelSeen(a) && a.ending == Normal))
      ensures cache == if called && completed
                       then Stored(old(cache), ControlKey(id), Strip(Join(a.deltas)), a.storeFails)
                       else old(cache)
    {
      var key := ControlKey(id);
      called, cancelled, completed := false, false, true;
      if useCache && !a.loadFails && key in cache {
        shown := [ControlDelta(id, cache[key], true)];
        return;
      }
      called := true;
      var parts;
      parts, cancelled := Forward(a);
      shown := ControlDeltas(id, parts);
      completed := !cancelled && a.ending == Normal;
      if completed {
        Store(key, Strip(Join(parts)), a.storeFails);
      }
    }

    /** The loop over the controls, from where the summary left off. */
    method ControlPhase(
      ghost p: Progress, events0: seq<Event>, calls0: seq<Key>, controls: seq<Control>, attempts: seq<Attempt>,
      useCache: bool)
      returns (events: seq<Event>, calls: seq<Key>, successful: nat, failed: nat, ended: bool)
      requires |controls| == |attempts|
      requires p == Progress(events0, calls0, cache, 0, 0, 0, Running)
      modifies this
      ensures var q := Process(p, controls, attempts, useCache, |controls|);
              && events == q.events && calls == q.calls && cache == q.cache
              && successful == q.successful && failed == q.failed && ended == (q.outcome != Running)
    {
      events, calls, successful, failed, ended := events0, calls0, 0, 0, false;
      var consecutive := 0;
      for k := 0 to |controls|
        invariant !ended
        invariant Process(p, controls, attempts, useCache, k) ==
                  Progress(events, calls, cache, successful, failed, consecutive, Running)
      {
        var control, a := controls[k], attempts[k];
        ghost var before := Progress(events, calls, cache, successful, failed, consecutive, Running);
        ghost var after := Step(before, k + 1, control, a, useCache);
        assert Process(p, controls, attempts, useCache, k + 1) == after;
        if a.cancelBefore {
          events, ended := events + [AnalysisCancelled(k)], true;
        } else if !control.valid {
          events, ended := events + [StreamFailed], true;
        } else {
          events := events + [ControlStarted(k + 1, control.id)];
          var shown, called, cancelled, completed := ShowControl(control.id, a, useCache);
          calls := if called then calls + [ControlKey(control.id)] else calls;
          events := events + shown;
          if cancelled {
            events, ended := events + [AnalysisCancelled(k)], true;
          } else if completed {
            successful, consecutive := successful + 1, 0;
            events := events + [ControlCompleted(control.id, k + 1, successful, failed)];
          } else {
            failed := failed + 1;
            consecutive := if a.ending == ProviderError then consecutive + 1 else 0;
            events := events + [ControlFailed(control.id, a.ending == ProviderError, k + 1, successful, failed)];
            if consecutive >= 3 {
              events, ended := events + [StreamFailed], true;
            }
          }
        }
        if ended {
          StoppedStays(p, controls, attempts, useCache, k + 1, |controls|);
          return;
        }
      }
    }

    method Run(total: nat, controls: seq<Control>, summary: Attempt, attempts: seq<Attempt>, useCache: bool)
      returns (events: seq<Event>, calls: seq<Key>)
      requires |controls| == |attempts|
      modifies this
      ensures var p := Stream(old(cache), total, controls, summary, attempts, useCache);
              events == p.events && calls == p.calls && cache == p.cache
    {
      var cancelled: bool;
      events, calls, cancelled := SummaryPhase(total, summary, useCache);
      if cancelled {
        return;
      }
      ghost var p := Progress(events, calls, cache, 0, 0, 0, Running);
      var successful, failed, ended;
      events, calls, successful, failed, ended := ControlPhase(p, events, calls, controls, attempts, useCache);
      if !ended {
        events := events + [AnalysisCompleted(total, successful, failed)];
      }
    }
  }

  lemma {:induction false} StoppedStays(
    p: Progress, controls: seq<Control>, attempts: seq<Attempt>, useCache: bool, k: nat, m: nat)
    requires k <= m <= |controls| == |attempts|
    requires Process(p, controls, attempts, useCache, k).outcome != Running
    ensures Process(p, controls, attempts, useCache, m) == Process(p, controls, attempts, useCache, k)
    decreases m
  {
    if k < m {
      StoppedStays(p, controls, attempts, useCache, k, m - 1);
    }
  }

  /** Whatever holds before the first control, is kept by every step and by a stopped stream, holds after
      any number of controls. */
  lemma {:induction false} ProcessInduction(
    p: Progress, controls: seq<Control>, attempts: seq<Attempt>, useCache: bool, k: nat, holds: (Progress, nat) -> bool)
    requires k <= |controls| == |attempts| && holds(p, 0)
    requires forall q, i :: 0 <= i < k && holds(q, i) ==>
               holds(if q.outcome != Running then q else Step(q, i + 1, controls[i], attempts[i], useCache), i + 1)
    ensures holds(Process(p, controls, attempts, useCache, k), k)
  {
    if k > 0 {
      ProcessInduction(p, controls, attempts, useCache, k - 1, holds);
    }
  }
}
