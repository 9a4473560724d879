/** What the events of every explanation stream say: counters, bracketing and the breaker. */
module ControlTrace {
  import opened Options
  import opened PythonText
  import opened ControlStream

  datatype Verdict = Good | Contract | Provider

  /** How the controls ended, in order, read off the events. */
  function Verdicts(events: seq<Event>): seq<Verdict> {
    if events == [] then []
    else
      var before := Verdicts(events[..|events| - 1]);
      match events[|events| - 1]
      case ControlCompleted(_, _, _, _) => before + [Good]
      case ControlFailed(_, provider, _, _, _) => before + [if provider then Provider else Contract]
      case _ => before
  }

  /** The control that was started and has not ended. */
  function OpenControl(events: seq<Event>): Option<string> {
    if events == [] then None
    else
      match events[|events| - 1]
      case ControlStarted(_, id) => Some(id)
      case ControlDelta(_, _, _) => OpenControl(events[..|events| - 1])
      case _ => None
  }

  function Goods(v: seq<Verdict>): nat {
    if v == [] then 0 else Goods(v[..|v| - 1]) + if v[|v| - 1] == Good then 1 else 0
  }

  /** An event agrees with everything before it: a control starts only when none is open and in its
      turn, only the open one speaks or ends, and every reported number is the true count. */
  predicate Agrees(before: seq<Event>, event: Event) {
    var v, open := Verdicts(before), OpenControl(before);
    match event
    case ControlStarted(index, _) => open == None && index == |v| + 1
    case ControlDelta(id, _, _) => open == Some(id)
    case ControlCompleted(id, completed, successful, failed) =>
      open == Some(id) && completed == |v| + 1 && successful == Goods(v) + 1 && successful + failed == completed
    case ControlFailed(id, _, completed, successful, failed) =>
      open == Some(id) && completed == |v| + 1 && successful == Goods(v) && successful + failed == completed
    case AnalysisCancelled(completed) => completed == |v|
    case AnalysisCompleted(_, successful, failed) =>
      open == None && successful == Goods(v) && successful + failed == |v|
    case _ => open == None
  }

  predicate Consistent(events: seq<Event>) {
    events == [] || (Consistent(events[..|events| - 1]) && Agrees(events[..|events| - 1], events[|events| - 1]))
  }

  function Trailing(v: seq<Verdict>): nat {
    if v == [] || v[|v| - 1] != Provider then 0 else Trailing(v[..|v| - 1]) + 1
  }

  /** Three provider failures in a row, somewhere. */
  ghost predicate HasTriple(v: seq<Verdict>) {
    exists i :: 0 <= i && i + 2 < |v| && v[i] == Provider && v[i + 1] == Provider && v[i + 2] == Provider
  }

  // ---------------------------------------------------------------- appending

  lemma Snoc(events: seq<Event>, event: Event)
    ensures Consistent(events + [event]) <==> Consistent(events) && Agrees(events, event)
    ensures (events + [event])[..|events|] == events
  {
    assert (events + [event])[..|events|] == events;
  }

  lemma {:induction false} DeltasAgree(events: seq<Event>, id: string, deltas: seq<string>)
    requires Consistent(events) && OpenControl(events) == Some(id)
    ensures var after := events + ControlDeltas(id, deltas);
            Consistent(after) && OpenControl(after) == Some(id) && Verdicts(after) == Verdicts(events)
  {
    if deltas == [] {
      assert events + ControlDeltas(id, deltas) == events;
    } else {
      var n := |deltas| - 1;
      DeltasAgree(events, id, deltas[..n]);
      var shorter := events + ControlDeltas(id, deltas[..n]);
      var last := ControlDelta(id, deltas[n], false);
      assert events + ControlDeltas(id, deltas) == shorter + [last];
      Snoc(shorter, last);
    }
  }

  lemma {:induction false} SummaryDeltasAgree(events: seq<Event>, deltas: seq<string>)
    requires Consistent(events) && OpenControl(events) == None && Verdicts(events) == []
    ensures var after := events + SummaryDeltas(deltas);
            Consistent(after) && OpenControl(after) == None && Verdicts(after) == []
  {
    if deltas == [] {
      assert events + SummaryDeltas(deltas) == events;
    } else {
      var n := |deltas| - 1;
      SummaryDeltasAgree(events, deltas[..n]);
      var shorter := events + SummaryDeltas(deltas[..n]);
      var last := SummaryDelta(deltas[n], false);
      assert events + SummaryDeltas(deltas) == shorter + [last];
      Snoc(shorter, last);
    }
  }

  lemma TripleSnoc(v: seq<Verdict>, x: Verdict)
    requires !HasTriple(v) && Trailing(v) < 3
    ensures Trailing(v + [x]) == if x == Provider then Trailing(v) + 1 else 0
    ensures HasTriple(v + [x]) <==> Trailing(v + [x]) == 3
    ensures Goods(v + [x]) == Goods(v) + if x == Good then 1 else 0
  {
    var w := v + [x];
    assert w[..|v|] == v;
    if Trailing(w) == 3 {
      assert Trailing(v) == 2 && Trailing(v[..|v| - 1]) == 1;
      assert w[|v| - 2] == Provider && w[|v| - 2 + 1] == Provider && w[|v| - 2 + 2] == Provider;
    }
    if HasTriple(w) {
      var i :| 0 <= i && i + 2 < |w| && w[i] == Provider && w[i + 1] == Provider && w[i + 2] == Provider;
      assert forall j :: 0 <= j < |v| ==> w[j] == v[j];
      assert i + 2 == |v|;
      assert v[|v| - 1] == Provider && v[|v| - 2] == Provider;
      assert v[..|v| - 1][|v| - 2] == Provider;
    }
  }

  // ---------------------------------------------------------------- the invariant

  ghost predicate CountInv(v: seq<Verdict>, successful: nat, failed: nat, consecutive: nat, outcome: Outcome, k: nat) {
    && |v| <= k
    && (outcome == Running ==>
          && |v| == k && successful == Goods(v) && successful + failed == k
          && consecutive == Trailing(v) < 3 && !HasTriple(v))
    && (outcome == Broken ==> v != [] && HasTriple(v) && !HasTriple(v[..|v| - 1]))
    && (outcome == Cancelled || outcome == Rejected ==> !HasTriple(v))
  }

  ghost predicate ProgressInv(p: Progress, k: nat) {
    && Consistent(p.events)
    && (p.outcome == Running ==> OpenControl(p.events) == None)
    && CountInv(Verdicts(p.events), p.successful, p.failed, p.consecutive, p.outcome, k)
  }

  lemma FailureCounted(v: seq<Verdict>, successful: nat, failed: nat, consecutive: nat, k: nat, x: Verdict)
    requires CountInv(v, successful, failed, consecutive, Running, k) && x != Good
    ensures var after := if x == Provider then consecutive + 1 else 0;
            CountInv(v + [x], successful, failed + 1, after, if after >= 3 then Broken else Running, k + 1)
  {
    TripleSnoc(v, x);
    assert (v + [x])[..|v|] == v;
  }

  /** `q` extends `p` by events of one open control. */
  ghost predicate Opened(p: Progress, events: seq<Event>, id: string) {
    Consistent(events) && OpenControl(events) == Some(id) && Verdicts(events) == Verdicts(p.events)
  }

  lemma SucceedKeepsInv(p: Progress, shown: Progress, k: nat, id: string)
    requires ProgressInv(p, k) && p.outcome == Running && Opened(p, shown.events, id)
    requires shown == p.(events := shown.events, calls := shown.calls, cache := shown.cache)
    ensures ProgressInv(Succeed(shown, k + 1, id), k + 1)
  {
    Snoc(shown.events, ControlCompleted(id, k + 1, shown.successful + 1, shown.failed));
    TripleSnoc(Verdicts(p.events), Good);
  }

  lemma FailureReported(events: seq<Event>, id: string, provider: bool, k: nat, successful: nat, failed: nat)
    requires Consistent(events) && OpenControl(events) == Some(id)
    requires |Verdicts(events)| == k && successful == Goods(Verdicts(events)) && successful + failed == k
    ensures var reported := events + [ControlFailed(id, provider, k + 1, successful, failed + 1)];
            && Consistent(reported) && OpenControl(reported) == None
            && Verdicts(reported) == Verdicts(events) + [if provider then Provider else Contract]
            && Consistent(reported + [StreamFailed]) && Verdicts(reported + [StreamFailed]) == Verdicts(reported)
  {
    var event := ControlFailed(id, provider, k + 1, successful, failed + 1);
    Snoc(events, event);
    Snoc(events + [event], StreamFailed);
  }

  lemma FailEvents(shown: Progress, k: nat, id: string, provider: bool)
    requires Consistent(shown.events) && OpenControl(shown.events) == Some(id)
    requires |Verdicts(shown.events)| == k && shown.successful == Goods(Verdicts(shown.events))
    requires shown.successful + shown.failed == k
    ensures var after := Fail(shown, k + 1, id, provider);
            && Consistent(after.events)
            && (after.outcome == Running ==> OpenControl(after.events) == None)
            && Verdicts(after.events) == Verdicts(shown.events) + [if provider then Provider else Contract]
  {
    FailureReported(shown.events, id, provider, k, shown.successful, shown.failed);
  }

  lemma FailKeepsInv(p: Progress, shown: Progress, k: nat, id: string, provider: bool)
    requires ProgressInv(p, k) && p.outcome == Running && Opened(p, shown.events, id)
    requires shown == p.(events := shown.events, calls := shown.calls, cache := shown.cache)
    ensures ProgressInv(Fail(shown, k + 1, id, provider), k + 1)
  {
    FailEvents(shown, k, id, provider);
    FailureCounted(Verdicts(p.events), p.successful, p.failed, p.consecutive, k,
                   if provider then Provider else Contract);
  }

  lemma CancelKeepsInv(p: Progress, shown: Progress, k: nat)
    requires ProgressInv(p, k) && p.outcome == Running
    requires Consistent(shown.events) && Verdicts(shown.events) == Verdicts(p.events)
    requires shown == p.(events := shown.events, calls := shown.calls, cache := shown.cache)
    ensures ProgressInv(Cancel(shown, k + 1), k + 1)
  {
    Snoc(shown.events, AnalysisCancelled(k));
  }

  lemma ExplainKeepsInv(p: Progress, k: nat, id: string, a: Attempt, useCache: bool)
    requires ProgressInv(p, k) && p.outcome == Running
    ensures ProgressInv(Explain(p.(events := p.events + [ControlStarted(k + 1, id)]), k + 1, id, a, useCache), k + 1)
  {
    var started := p.(events := p.events + [ControlStarted(k + 1, id)]);
    Snoc(p.events, ControlStarted(k + 1, id));
    var loaded := Loaded(started.cache, ControlKey(id), useCache, a.loadFails);
    if loaded.Some? {
      var shown := started.(events := started.events + [ControlDelta(id, loaded.value, true)]);
      Snoc(started.events, ControlDelta(id, loaded.value, true));
      SucceedKeepsInv(p, shown, k, id);
    } else {
      DeltasAgree(started.events, id, Delivered(a));
      var shown := started.(calls := started.calls + [ControlKey(id)],
                            events := started.events + ControlDeltas(id, Delivered(a)));
      if CancelSeen(a) {
        CancelKeepsInv(p, shown, k);
      } else if a.ending == Normal {
        var cache := Stored(started.cache, ControlKey(id), Strip(Join(a.deltas)), a.storeFails);
        SucceedKeepsInv(p, shown.(cache := cache), k, id);
      } else {
        FailKeepsInv(p, shown, k, id, a.ending == ProviderError);
      }
    }
  }

  lemma RejectKeepsInv(p: Progress, k: nat)
    requires ProgressInv(p, k) && p.outcome == Running
    ensures ProgressInv(p.(events := p.events + [StreamFailed], outcome := Rejected), k + 1)
  {
    Snoc(p.events, StreamFailed);
  }

  lemma StoppedKeepsInv(p: Progress, k: nat)
    requires ProgressInv(p, k) && p.outcome != Running
    ensures ProgressInv(p, k + 1)
  {
  }

  lemma ProcessKeepsInv(p: Progress, controls: seq<Control>, attempts: seq<Attempt>, useCache: bool, k: nat)
    requires k <= |controls| == |attempts| && ProgressInv(p, 0)
    ensures ProgressInv(Process(p, controls, attempts, useCache, k), k)
  {
    var holds := (q: Progress, i: nat) => ProgressInv(q, i);
    forall q, i | 0 <= i < k && holds(q, i)
      ensures holds(if q.outcome != Running then q else Step(q, i + 1, controls[i], attempts[i], useCache), i + 1)
    {
      if q.outcome != Running {
        StoppedKeepsInv(q, i);
      } else if attempts[i].cancelBefore {
        CancelKeepsInv(q, q, i);
      } else if !controls[i].valid {
        RejectKeepsInv(q, i);
      } else {
        ExplainKeepsInv(q, i, controls[i].id, attempts[i], useCache);
      }
    }
    ProcessInduction(p, controls, attempts, useCache, k, holds);
  }

  lemma HeadAgrees(total: nat)
    ensures var head := [AnalysisStarted(total), SummaryStarted];
            Consistent(head) && OpenControl(head) == None && Verdicts(head) == []
  {
    var first := [AnalysisStarted(total)];
    assert first == [] + first && first[..0] == [];
    Snoc([], AnalysisStarted(total));
    assert Verdicts(first) == Verdicts([]) == [];
    Snoc(first, SummaryStarted);
    assert [AnalysisStarted(total), SummaryStarted] == first + [SummaryStarted];
  }

  lemma SummarizeInv(cache: Cache, total: nat, a: Attempt, useCache: bool)
    ensures ProgressInv(Summarize(cache, total, a, useCache), 0)
    ensures Summarize(cache, total, a, useCache).outcome != Broken
  {
    var head := [AnalysisStarted(total), SummaryStarted];
    HeadAgrees(total);
    var loaded := Loaded(cache, Summary, useCache, a.loadFails);
    if loaded.Some? {
      Snoc(head, SummaryDelta(loaded.value, true));
      Snoc(head + [SummaryDelta(loaded.value, true)], SummaryCompleted);
    } else {
      SummaryDeltasAgree(head, Delivered(a));
      var shown := head + SummaryDeltas(Delivered(a));
      Snoc(shown, AnalysisCancelled(0));
      Snoc(shown, SummaryCompleted);
      Snoc(shown, SummaryFailed);
    }
  }

  // ---------------------------------------------------------------- verdicts and causes

  /** How a control that was not cancelled ends, from what happened around it. */
  function VerdictOf(cache: Cache, id: string, a: Attempt, useCache: bool): Verdict {
    if Loaded(cache, ControlKey(id), useCache, a.loadFails).Some? || a.ending == Normal then Good
    else if a.ending == ProviderError then Provider else Contract
  }

  lemma VerdictSnoc(events: seq<Event>, event: Event)
    ensures Verdicts(events + [event]) == Verdicts(events) + Verdicts([event])
    ensures Verdicts([event]) == match event
                                 case ControlCompleted(_, _, _, _) => [Good]
                                 case ControlFailed(_, provider, _, _, _) => [if provider then Provider else Contract]
                                 case _ => []
  {
    assert (events + [event])[..|events|] == events && [event][..0] == [];
  }

  lemma {:induction false} DeltasHaveNoVerdict(events: seq<Event>, id: string, deltas: seq<string>)
    ensures Verdicts(events + ControlDeltas(id, deltas)) == Verdicts(events)
  {
    if deltas == [] {
      assert events + ControlDeltas(id, deltas) == events;
    } else {
      var n := |deltas| - 1;
      DeltasHaveNoVerdict(events, id, deltas[..n]);
      var shorter, last := events + ControlDeltas(id, deltas[..n]), ControlDelta(id, deltas[n], false);
      assert events + ControlDeltas(id, deltas) == shorter + [last];
      VerdictSnoc(shorter, last);
    }
  }

  lemma FailVerdict(events: seq<Event>, id: string, provider: bool, index: nat, successful: nat, failed: nat)
    ensures var reported := events + [ControlFailed(id, provider, index, successful, failed)];
            && Verdicts(reported) == Verdicts(events) + [if provider then Provider else Contract]
            && Verdicts(reported + [StreamFailed]) == Verdicts(reported)
  {
    var event := ControlFailed(id, provider, index, successful, failed);
    VerdictSnoc(events, event);
    VerdictSnoc(events + [event], StreamFailed);
  }

  lemma FailReports(p: Progress, index: nat, id: string, provider: bool) returns (reported: seq<Event>)
    ensures reported == p.events + [ControlFailed(id, provider, index, p.successful, p.failed + 1)]
    ensures var events := Fail(p, index, id, provider).events; events == reported || events == reported + [StreamFailed]
  {
    reported := p.events + [ControlFailed(id, provider, index, p.successful, p.failed + 1)];
  }

  lemma EitherVerdict(reported: seq<Event>, after: seq<Event>, v: seq<Verdict>)
    requires after == reported || after == reported + [StreamFailed]
    requires Verdicts(reported) == v && Verdicts(reported + [StreamFailed]) == v
    ensures Verdicts(after) == v
  {
  }

  lemma SucceedVerdict(p: Progress, index: nat, id: string)
    ensures Verdicts(Succeed(p, index, id).events) == Verdicts(p.events) + [Good]
  {
    VerdictSnoc(p.events, ControlCompleted(id, index, p.successful + 1, p.failed));
  }

  lemma ExplainVerdict(p: Progress, index: nat, id: string, a: Attempt, useCache: bool)
    requires index > 0
    ensures Verdicts(Explain(p, index, id, a, useCache).events) ==
            Verdicts(p.events) +
            if Loaded(p.cache, ControlKey(id), useCache, a.loadFails).None? && CancelSeen(a) then []
            else [VerdictOf(p.cache, id, a, useCache)]
  {
    var loaded := Loaded(p.cache, ControlKey(id), useCache, a.loadFails);
    if loaded.Some? {
      var shown := p.(events := p.events + [ControlDelta(id, loaded.value, true)]);
      VerdictSnoc(p.events, ControlDelta(id, loaded.value, true));
      SucceedVerdict(shown, index, id);
    } else {
      var shown := p.(calls := p.calls + [ControlKey(id)], events := p.events + ControlDeltas(id, Delivered(a)));
      DeltasHaveNoVerdict(p.events, id, Delivered(a));
      if CancelSeen(a) {
        VerdictSnoc(shown.events, AnalysisCancelled(index - 1));
      } else if a.ending == Normal {
        var cache := Stored(p.cache, ControlKey(id), Strip(Join(a.deltas)), a.storeFails);
        SucceedVerdict(shown.(cache := cache), index, id);
      } else {
        var provider := a.ending == ProviderError;
        FailVerdict(shown.events, id, provider, index, shown.successful, shown.failed + 1);
        var reported := FailReports(shown, index, id, provider);
        EitherVerdict(reported, Fail(shown, index, id, provider).events,
                      Verdicts(shown.events) + [if provider then Provider else Contract]);
      }
    }
  }

  /** Each control that runs to its end is reported as what it was: completed if its text was stored or
      the model ended normally, else failed by the provider or by the contract. */
  lemma VerdictsAreCauses(q: Progress, index: nat, control: Control, a: Attempt, useCache: bool)
    requires index > 0 && !a.cancelBefore && control.valid
    ensures Verdicts(Step(q, index, control, a, useCache).events) ==
            Verdicts(q.events) +
            if Loaded(q.cache, ControlKey(control.id), useCache, a.loadFails).None? && CancelSeen(a) then []
            else [VerdictOf(q.cache, control.id, a, useCache)]
  {
    VerdictSnoc(q.events, ControlStarted(index, control.id));
    ExplainVerdict(q.(events := q.events + [ControlStarted(index, control.id)]), index, control.id, a, useCache);
  }

  /** The causes of the first `k` controls. */
  function Causes(p: Progress, controls: seq<Control>, attempts: seq<Attempt>, useCache: bool, k: nat): seq<Verdict>
    requires k <= |controls| == |attempts|
  {
    if k == 0 then []
    else
      var before := Process(p, controls, attempts, useCache, k - 1);
      Causes(p, controls, attempts, useCache, k - 1) +
      [VerdictOf(before.cache, controls[k - 1].id, attempts[k - 1], useCache)]
  }

  lemma NextVerdict(
    q: Progress, r: Progress, k: nat, control: Control, a: Attempt, useCache: bool, causes: seq<Verdict>)
    requires k > 0 && q.outcome == Running && Verdicts(q.events) == causes
    requires r == Step(q, k, control, a, useCache) && r.outcome == Running
    ensures Verdicts(r.events) == causes + [VerdictOf(q.cache, control.id, a, useCache)]
  {
    RunningStep(q, k, control, a, useCache);
    VerdictsAreCauses(q, k, control, a, useCache);
  }

  /** So the verdicts of a run that goes on are the causes of all controls so far, in order. */
  lemma {:induction false} RunVerdictsAreCauses(
    p: Progress, controls: seq<Control>, attempts: seq<Attempt>, useCache: bool, k: nat)
    requires k <= |controls| == |attempts| && Verdicts(p.events) == []
    requires Process(p, controls, attempts, useCache, k).outcome == Running
    ensures Verdicts(Process(p, controls, attempts, useCache, k).events) == Causes(p, controls, attempts, useCache, k)
  {
    if k > 0 {
      RunVerdictsAreCauses(p, controls, attempts, useCache, k - 1);
      NextVerdict(Process(p, controls, attempts, useCache, k - 1), Process(p, controls, attempts, useCache, k),
                  k, controls[k - 1], attempts[k - 1], useCache, Causes(p, controls, attempts, useCache, k - 1));
    }
  }

  lemma RunningStep(q: Progress, index: nat, control: Control, a: Attempt, useCache: bool)
    requires index > 0 && Step(q, index, control, a, useCache).outcome == Running && q.outcome == Running
    ensures !a.cancelBefore && control.valid
    ensures !(Loaded(q.cache, ControlKey(control.id), useCache, a.loadFails).None? && CancelSeen(a))
  {
  }

  /** When a control stops the stream, exactly, and the event that says so: a cancellation seen before it
      or during its deltas, a control that is not an object, or the third provider failure in a row. */
  lemma StopsExactly(q: Progress, index: nat, control: Control, a: Attempt, useCache: bool)
    requires index > 0 && q.outcome == Running && q.consecutive < 3
    ensures var r := Step(q, index, control, a, useCache);
            var asked := control.valid && Loaded(q.cache, ControlKey(control.id), useCache, a.loadFails).None?;
            && (r.outcome == Cancelled <==> a.cancelBefore || (asked && CancelSeen(a)))
            && (r.outcome == Rejected <==> !a.cancelBefore && !control.valid)
            && (r.outcome == Broken <==>
                  !a.cancelBefore && asked && !CancelSeen(a) && a.ending == ProviderError && q.consecutive == 2)
            && (r.outcome == Cancelled ==> r.events[|r.events| - 1] == AnalysisCancelled(index - 1))
            && (r.outcome == Rejected || r.outcome == Broken ==> r.events[|r.events| - 1] == StreamFailed)
            && (a.cancelBefore || !control.valid ==> r.calls == q.calls && r.cache == q.cache)
  {
  }

  /** The summary is reported completed if it was stored or the model ended normally, failed if the model
      raised, and a cancellation ends the stream there. */
  lemma SummaryIsReported(cache: Cache, total: nat, a: Attempt, useCache: bool)
    ensures var p := Summarize(cache, total, a, useCache);
            var loaded := Loaded(cache, Summary, useCache, a.loadFails).Some?;
            && p.events[0] == AnalysisStarted(total) && p.events[1] == SummaryStarted
            && (SummaryCompleted in p.events <==> loaded || (!CancelSeen(a) && a.ending == Normal))
            && (SummaryFailed in p.events <==> !loaded && !CancelSeen(a) && a.ending != Normal)
            && (p.outcome == Cancelled <==> !loaded && CancelSeen(a))
            && (p.outcome == Cancelled || p.outcome == Running)
  {
    var p := Summarize(cache, total, a, useCache);
    var deltas := SummaryDeltas(Delivered(a));
    assert forall i :: 0 <= i < |deltas| ==> deltas[i].SummaryDelta?;
    if Loaded(cache, Summary, useCache, a.loadFails).None? {
      var last := p.events[|p.events| - 1];
      assert p.events == [AnalysisStarted(total), SummaryStarted] + deltas + [last];
      assert last in p.events;
    }
  }

  // ---------------------------------------------------------------- what every stream guarantees

  /** In every run all counters agree with what was reported before them, and each control that
      starts ends at most once before the next one starts. */
  lemma EveryStreamIsConsistent(
    cache: Cache, total: nat, controls: seq<Control>, summary: Attempt, attempts: seq<Attempt>, useCache: bool)
    requires |controls| == |attempts|
    ensures Consistent(Stream(cache, total, controls, summary, attempts, useCache).events)
  {
    StreamInv(cache, total, controls, summary, attempts, useCache);
  }

  lemma StreamInv(
    cache: Cache, total: nat, controls: seq<Control>, summary: Attempt, attempts: seq<Attempt>, useCache: bool)
    requires |controls| == |attempts|
    ensures var p := Stream(cache, total, controls, summary, attempts, useCache);
            && Consistent(p.events)
            && ProgressInv(p, |controls|)
  {
    SummarizeInv(cache, total, summary, useCache);
    var p := Summarize(cache, total, summary, useCache);
    if p.outcome == Running {
      ProcessKeepsInv(p, controls, attempts, useCache, |controls|);
      var q := Process(p, controls, attempts, useCache, |controls|);
      if q.outcome == Running {
        FinishKeepsInv(q, |controls|, total);
      }
    }
  }

  lemma FinishKeepsInv(q: Progress, k: nat, total: nat)
    requires ProgressInv(q, k) && q.outcome == Running
    ensures ProgressInv(q.(events := q.events + [AnalysisCompleted(total, q.successful, q.failed)]), k)
  {
    Snoc(q.events, AnalysisCompleted(total, q.successful, q.failed));
  }

  /** The breaker stops a run exactly at the first three provider failures in a row; a completed
      analysis contains none and accounts for every control. */
  lemma BreakerStopsAtFirstTriple(
    cache: Cache, total: nat, controls: seq<Control>, summary: Attempt, attempts: seq<Attempt>, useCache: bool)
    requires |controls| == |attempts|
    ensures var p := Stream(cache, total, controls, summary, attempts, useCache);
            var v := Verdicts(p.events);
            && (p.outcome == Broken <==> HasTriple(v))
            && (p.outcome == Broken ==> v != [] && !HasTriple(v[..|v| - 1]))
            && (p.outcome == Running ==>
                  && |v| == |controls| && p.successful == Goods(v) && p.successful + p.failed == |controls|
                  && p.events != [] && p.events[|p.events| - 1] == AnalysisCompleted(total, p.successful, p.failed))
  {
    StreamInv(cache, total, controls, summary, attempts, useCache);
  }
}
