/** The rows of a recovery job as the sum of what each step of a run wrote. */
module OutboxHistory {
  import opened Options
  import opened OutboxTables
  import opened OutboxDelivery

  /** What a step writes to the rows of the event and of its step, and what it adds. */
  datatype Effect =
    | RecordedAttempt
    | MarkedRetry
    | MarkedPublished
    | SentMessage
    | BegunExecution(found: bool)
    | CompletedExecution

  predicate Enabled(s: State, m: nat, message: Message) {
    m in s.messages && s.messages[m] == message
  }

  function EffectsOf(s: State, step: Step): seq<Effect> {
    match step
    case DispatchRecord(d) => if At(s, d, Read) && s.rows.event != Published then [RecordedAttempt] else []
    case DispatchRetry(d) => if At(s, d, SendFailed) && s.rows.event == Pending then [MarkedRetry] else []
    case DispatchPublish(d) => if At(s, d, Sent) && s.rows.event != Published then [MarkedPublished] else []
    case DispatchSend(d, m) => if At(s, d, Recorded) && m !in s.messages then [SentMessage] else []
    case DispatchSendFails(d, leaked) =>
      if At(s, d, Recorded) && leaked.Some? && leaked.value !in s.messages then [SentMessage] else []
    case Begin(m) => if Enabled(s, m, Started) then [BegunExecution(s.rows.results != [])] else []
    case Complete(m) =>
      if m in s.messages && s.messages[m].Begun? && !Superseded(s, m) && s.rows.results == [] then [CompletedExecution]
      else []
    case _ => []
  }

  function History(steps: seq<Step>): seq<Effect> {
    if steps == [] then []
    else History(steps[..|steps| - 1]) + EffectsOf(Exec(INIT, steps[..|steps| - 1]), steps[|steps| - 1])
  }

  /** The rows that a history of effects leaves. */
  datatype Summary = Summary(
    event: EventStatus, publishAttempts: nat, step: StepStatus, messages: nat, executions: nat, results: nat)

  function Applied(before: Summary, effect: Effect): Summary {
    match effect
    case RecordedAttempt => before.(event := Pending, publishAttempts := before.publishAttempts + 1)
    case MarkedRetry => before.(event := RetryPending)
    case MarkedPublished => before.(event := Published, step := Queued)
    case SentMessage => before.(messages := before.messages + 1)
    case BegunExecution(found) =>
      before.(executions := before.executions + 1, step := if found then Succeeded else Running)
    case CompletedExecution => before.(results := before.results + 1, step := Succeeded)
  }

  /** A step has at most one effect. */
  function AppliedAll(before: Summary, effects: seq<Effect>): Summary {
    if effects == [] then before else Applied(before, effects[0])
  }

  function Summarize(history: seq<Effect>): Summary {
    if history == [] then Summary(Pending, 0, DispatchPending, 0, 0, 0)
    else Applied(Summarize(history[..|history| - 1]), history[|history| - 1])
  }

  ghost function SummaryOf(s: State): Summary {
    Summary(s.rows.event, s.rows.publishAttempts, s.rows.step, |s.messages|, |s.rows.executions|, |s.rows.results|)
  }

  lemma SummarizeOne(history: seq<Effect>, effect: Effect)
    ensures Summarize(history + [effect]) == Applied(Summarize(history), effect)
  {
    assert (history + [effect])[..|history|] == history;
  }

  lemma SendWritesEffects(s: State, step: Step)
    requires step.DispatchSend? || step.DispatchSendFails?
    ensures SummaryOf(Do(s, step)) == AppliedAll(SummaryOf(s), EffectsOf(s, step))
  {
    if step.DispatchSend? {
      CountAfterSet(s.messages, step.m, Waiting);
    } else if step.leaked.Some? {
      CountAfterSet(s.messages, step.leaked.value, Waiting);
    }
  }

  lemma MarkWritesEffects(s: State, step: Step)
    requires step.DispatchRecord? || step.DispatchRetry? || step.DispatchPublish?
    ensures SummaryOf(Do(s, step)) == AppliedAll(SummaryOf(s), EffectsOf(s, step))
  {
    assert Do(s, step).messages == s.messages;
  }

  lemma DispatchWritesEffects(s: State, step: Step)
    requires !IsWork(step)
    ensures SummaryOf(Do(s, step)) == AppliedAll(SummaryOf(s), EffectsOf(s, step))
  {
    if step.DispatchSend? || step.DispatchSendFails? {
      SendWritesEffects(s, step);
    } else if step.DispatchRecord? || step.DispatchRetry? || step.DispatchPublish? {
      MarkWritesEffects(s, step);
    } else {
      assert Do(s, step).rows == s.rows && Do(s, step).messages == s.messages;
    }
  }

  lemma WorkSendsNothing(s: State, step: Step)
    requires IsWork(step)
    ensures |Do(s, step).messages| == |s.messages|
  {
    var t := Do(s, step);
    if step.m in s.messages {
      assert t.messages == s.messages[step.m := t.messages[step.m]];
      CountAfterSet(s.messages, step.m, t.messages[step.m]);
    }
  }

  lemma BeginWritesEffects(s: State, m: nat)
    requires Inv(s) && Enabled(s, m, Started)
    ensures SummaryOf(Do(s, Begin(m))) == Applied(SummaryOf(s), BegunExecution(s.rows.results != []))
  {
    WorkSendsNothing(s, Begin(m));
  }

  lemma CompleteWritesEffects(s: State, m: nat)
    requires Inv(s) && m in s.messages && s.messages[m].Begun? && !Superseded(s, m) && s.rows.results == []
    ensures SummaryOf(Do(s, Complete(m))) == Applied(SummaryOf(s), CompletedExecution)
  {
    WorkSendsNothing(s, Complete(m));
  }

  lemma OtherWorkLeavesRows(s: State, step: Step)
    requires Inv(s) && IsWork(step) && EffectsOf(s, step) == []
    ensures Do(s, step).rows == s.rows
  {
  }

  lemma WorkWritesEffects(s: State, step: Step)
    requires Inv(s) && IsWork(step)
    ensures SummaryOf(Do(s, step)) == AppliedAll(SummaryOf(s), EffectsOf(s, step))
  {
    if EffectsOf(s, step) == [] {
      OtherWorkLeavesRows(s, step);
      WorkSendsNothing(s, step);
    } else if step.Begin? {
      BeginWritesEffects(s, step.m);
    } else {
      CompleteWritesEffects(s, step.m);
    }
  }

  lemma StepWritesEffects(s: State, step: Step, history: seq<Effect>)
    requires Inv(s) && SummaryOf(s) == Summarize(history)
    ensures SummaryOf(Do(s, step)) == Summarize(history + EffectsOf(s, step))
  {
    if IsWork(step) {
      WorkWritesEffects(s, step);
    } else {
      DispatchWritesEffects(s, step);
    }
    AddEffects(history, EffectsOf(s, step));
  }

  lemma AddEffects(history: seq<Effect>, effects: seq<Effect>)
    requires |effects| <= 1
    ensures Summarize(history + effects) == AppliedAll(Summarize(history), effects)
  {
    if effects == [] {
      assert history + effects == history;
    } else {
      SummarizeOne(history, effects[0]);
      assert effects == [effects[0]];
    }
  }

  /** After every run the rows are what its effects add up to: the event carries its last mark, the step
      its last one, and attempts, sends, executions and results are counted one by one. */
  lemma {:induction false} RowsAreHistory(steps: seq<Step>)
    ensures SummaryOf(Exec(INIT, steps)) == Summarize(History(steps))
  {
    if steps != [] {
      var n := |steps| - 1;
      var s, step := Exec(INIT, steps[..n]), steps[n];
      RowsAreHistory(steps[..n]);
      assert Reachable(s);
      ReachableInv(s);
      StepWritesEffects(s, step, History(steps[..n]));
    }
  }

  /** A dispatcher starts on an event that is not published. It ends by crashing, by its last mark, or
      when the event is published meanwhile; one that has ended does nothing more. */
  lemma EndedDispatchersStay(s: State, step: Step, d: nat)
    ensures At(s, d, Gone) ==> At(Do(s, step), d, Gone)
    ensures d in s.dispatchers ==> At(Do(s, DispatchCrash(d)), d, Gone)
    ensures At(s, d, Sent) ==> At(Do(s, DispatchPublish(d)), d, Gone)
    ensures At(s, d, SendFailed) ==> At(Do(s, DispatchRetry(d)), d, Gone)
    ensures d !in s.dispatchers && s.rows.event != Published ==> At(Do(s, DispatchRead(d)), d, Read)
    ensures d in s.dispatchers || s.rows.event == Published ==> Do(s, DispatchRead(d)) == s
    ensures At(s, d, Read) ==> At(Do(s, DispatchRecord(d)), d, if s.rows.event == Published then Gone else Recorded)
  {
  }

  /** A killed worker's message is delivered again, an acknowledged one never. */
  lemma AcknowledgedStays(s: State, step: Step, m: nat)
    ensures m in s.messages && s.messages[m].Acked? ==> Enabled(Do(s, step), m, s.messages[m])
    ensures m in s.messages && !s.messages[m].Acked? ==> Enabled(Do(s, Kill(m)), m, Waiting)
    ensures Enabled(s, m, Finished) ==> Enabled(Do(s, Acknowledge(m)), m, Acked(true))
    ensures Enabled(s, m, Raised) ==> Enabled(Do(s, Acknowledge(m)), m, Acked(false))
  {
  }

  /** A send that failed leaves the event marked for a retry, if it was not marked otherwise meanwhile. */
  lemma FailedSendIsMarked(s: State, d: nat)
    requires At(s, d, SendFailed) && s.rows.event == Pending
    ensures Do(s, DispatchRetry(d)).rows == s.rows.(event := RetryPending)
  {
  }
}
