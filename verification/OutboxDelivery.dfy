/** At-least-once dispatch with late acknowledgement, as a state machine.

    Any number of dispatchers run `attempt, send, mark published` and may crash between any two of
    these. Each delivery may be handed to a worker, killed and redelivered any number of times, and
    two deliveries of the same event may run at once. A step whose guard fails changes nothing. */
module OutboxDelivery {
  import opened Options
  import opened OutboxTables

  datatype Dispatcher = Read | Recorded | Sent | SendFailed | Gone

  /** Life of one message: `Begun(k)` has committed the start of execution `k`; `Finished` and
      `Raised` are over but not yet acknowledged. */
  datatype Message =
    | Waiting
    | Started
    | Begun(execution: nat)
    | Finished
    | Raised
    | Acked(ok: bool)

  /** `aborted` records that some task ended in an exception of its own (a time limit, a lost
      database), which the broker acknowledges like a success. */
  datatype State = State(
    rows: Tables, dispatchers: map<nat, Dispatcher>, messages: map<nat, Message>, aborted: bool)

  const INIT := State(PREPARED, map[], map[], false)

  datatype Step =
    | DispatchRead(d: nat)
    | DispatchRecord(d: nat)
    | DispatchSend(d: nat, m: nat)
    | DispatchSendFails(d: nat, leaked: Option<nat>)   // the message may have left before the error
    | DispatchRetry(d: nat)
    | DispatchPublish(d: nat)
    | DispatchCrash(d: nat)
    | Deliver(m: nat)
    | Begin(m: nat)
    | Complete(m: nat)
    | Acknowledge(m: nat)
    | Kill(m: nat)
    | Abort(m: nat)

  /** A step of a worker on one message. */
  predicate IsWork(step: Step) {
    step.Deliver? || step.Begin? || step.Complete? || step.Acknowledge? || step.Kill? || step.Abort?
  }

  predicate At(s: State, d: nat, phase: Dispatcher) {
    d in s.dispatchers && s.dispatchers[d] == phase
  }

  function Moved(s: State, d: nat, phase: Dispatcher): State {
    s.(dispatchers := s.dispatchers[d := phase])
  }

  function Set(s: State, m: nat, message: Message): State {
    s.(messages := s.messages[m := message])
  }

  function Dispatch(s: State, step: Step): State {
    match step
    case DispatchRead(d) =>
      if d !in s.dispatchers && Publishable(s.rows) then Moved(s, d, Read) else s
    case DispatchRecord(d) =>
      if !At(s, d, Read) then s
      else
        (match RecordAttempt(s.rows)
         case Some(rows) => Moved(s, d, Recorded).(rows := rows)
         case None => Moved(s, d, Gone))
    case DispatchSend(d, m) =>
      if At(s, d, Recorded) && m !in s.messages then Set(Moved(s, d, Sent), m, Waiting) else s
    case DispatchSendFails(d, leaked) =>
      if !At(s, d, Recorded) || (leaked.Some? && leaked.value in s.messages) then s
      else if leaked.Some? then Set(Moved(s, d, SendFailed), leaked.value, Waiting)
      else Moved(s, d, SendFailed)
    case DispatchRetry(d) =>
      if !At(s, d, SendFailed) then s
      else
        (match MarkRetryPending(s.rows)
         case Some(rows) => Moved(s, d, Gone).(rows := rows)
         case None => Moved(s, d, Gone))
    case DispatchPublish(d) =>
      if !At(s, d, Sent) then s
      else
        (match MarkPublished(s.rows)
         case Some(rows) => Moved(s, d, Gone).(rows := rows)
         case None => Moved(s, d, Gone))
    case DispatchCrash(d) => if d in s.dispatchers then Moved(s, d, Gone) else s
    case _ => s
  }

  function Work(s: State, step: Step, m: nat): State
    requires m in s.messages
  {
    var message := s.messages[m];
    match step
    case Deliver(_) => if message == Waiting then Set(s, m, Started) else s
    case Begin(_) =>
      if message != Started then s
      else
        var rows := BeginAttempt(s.rows, m);
        Set(s, m, if s.rows.results != [] then Finished else Begun(|s.rows.executions|)).(rows := rows)
    case Complete(_) =>
      if !message.Begun? then s
      else
        (match CompleteAttempt(s.rows, message.execution)
         case Some(rows) => Set(s, m, Finished).(rows := rows)
         case None => Set(s, m, Raised))
    case Acknowledge(_) =>
      if message == Finished then Set(s, m, Acked(true))
      else if message == Raised then Set(s, m, Acked(false))
      else s
    case Kill(_) =>
      if message == Started || message.Begun? || message == Finished || message == Raised
      then Set(s, m, Waiting) else s
    case Abort(_) =>
      if message == Started || message.Begun? then Set(s, m, Acked(false)).(aborted := true) else s
    case _ => s
  }

  function Do(s: State, step: Step): State {
    if IsWork(step)
    then if step.m in s.messages then Work(s, step, step.m) else s
    else Dispatch(s, step)
  }

  function Exec(s: State, steps: seq<Step>): State {
    if steps == [] then s else Do(Exec(s, steps[..|steps| - 1]), steps[|steps| - 1])
  }

  // ---------------------------------------------------------------- the invariant

  ghost function RecordedSet(dispatchers: map<nat, Dispatcher>): set<nat> {
    set d | d in dispatchers && dispatchers[d] == Recorded
  }

  /** Each attempt is recorded before its one send. */
  ghost predicate DispatchInv(s: State) {
    && |s.messages| + |RecordedSet(s.dispatchers)| <= s.rows.publishAttempts
    && (s.messages == map[] ==> forall d :: d in s.dispatchers ==> s.dispatchers[d] != Sent)
    && (s.messages == map[] ==> s.rows.event != Published)
  }

  /** Executions are numbered 1, 2, ...; only the newest can be in progress, and it is exactly as
      long as no result exists; exactly one execution created the result. */
  ghost predicate TableInv(t: Tables) {
    && t.attemptCount == |t.executions|
    && (forall i :: 0 <= i < |t.executions| ==> t.executions[i].attemptNo == i + 1)
    && (forall i :: 0 <= i < |t.executions| - 1 ==> t.executions[i].status != InProgress)
    && |t.results| <= 1
    && (t.results == [] ==>
          && (t.executions != [] ==> t.executions[|t.executions| - 1].status == InProgress)
          && (forall i :: 0 <= i < |t.executions| ==>
                t.executions[i].status == InProgress || t.executions[i].status == WorkerLost))
    && (t.results != [] ==>
          && t.results[0] < |t.executions|
          && (forall i :: 0 <= i < |t.executions| ==>
                && t.executions[i].status != InProgress
                && (t.executions[i].status == Created <==> i == t.results[0])))
    && (t.step == Succeeded ==> t.results != [])
  }

  predicate Live(message: Message) {
    message == Waiting || message == Started || message.Begun?
  }

  /** A begun message runs its newest execution. */
  ghost predicate MessageInv(s: State) {
    var executions := s.rows.executions;
    && (forall m :: m in s.messages && s.messages[m].Begun? ==>
          && s.messages[m].execution < |executions|
          && executions[s.messages[m].execution].delivery == m
          && forall j :: s.messages[m].execution < j < |executions| ==> executions[j].delivery != m)
    && (forall m :: m in s.messages && (s.messages[m] == Finished || s.messages[m] == Acked(true)) ==>
          s.rows.results != [])
    && (forall m :: m in s.messages && s.messages[m] == Raised ==> executions != [])
    && (forall m :: m in s.messages && s.messages[m] == Acked(false) && !s.aborted ==> executions != [])
  }

  /** The work is always in someone's hands: while there is no result, the message that opened the
      newest execution has been neither acknowledged nor given up. */
  ghost predicate CustodyInv(s: State) {
    !s.aborted && s.rows.results == [] && s.rows.executions != [] ==>
      var owner := s.rows.executions[|s.rows.executions| - 1].delivery;
      owner in s.messages && Live(s.messages[owner])
  }

  ghost predicate Inv(s: State) {
    DispatchInv(s) && TableInv(s.rows) && MessageInv(s) && CustodyInv(s)
  }

  lemma CountAfterMove(dispatchers: map<nat, Dispatcher>, d: nat, phase: Dispatcher)
    ensures var was := d in dispatchers && dispatchers[d] == Recorded;
            |RecordedSet(dispatchers[d := phase])| ==
              |RecordedSet(dispatchers)| + (if phase == Recorded then 1 else 0) - (if was then 1 else 0)
  {
    var before, after := RecordedSet(dispatchers), RecordedSet(dispatchers[d := phase]);
    var rest := before - {d};
    if phase == Recorded {
      assert after == rest + {d};
    } else {
      assert after == rest;
    }
    if d in before {
      assert before == rest + {d};
    } else {
      assert before == rest;
    }
  }

  lemma CountAfterSet(messages: map<nat, Message>, m: nat, message: Message)
    ensures |messages[m := message]| == |messages| + if m in messages then 0 else 1
  {
    var after := messages[m := message];
    assert after.Keys == messages.Keys + {m};
    assert |messages| == |messages.Keys| && |after| == |after.Keys|;
  }

  /** A dispatcher step that leaves the messages alone and touches only the outbox row. */
  lemma MoveKeepsInv(s: State, d: nat, phase: Dispatcher, rows: Tables)
    requires Inv(s) && TableInv(rows)
    requires rows == s.rows.(event := rows.event, publishAttempts := rows.publishAttempts, step := rows.step)
    requires phase == Sent || (rows.event == Published && s.rows.event != Published) ==> s.messages != map[]
    requires |s.messages| + |RecordedSet(s.dispatchers[d := phase])| <= rows.publishAttempts
    ensures Inv(Moved(s, d, phase).(rows := rows))
  {
  }

  lemma NewMessageKeepsInv(s: State, m: nat)
    requires Inv(s) && m !in s.messages
    requires |s.messages| + 1 + |RecordedSet(s.dispatchers)| <= s.rows.publishAttempts
    ensures Inv(Set(s, m, Waiting))
  {
    CountAfterSet(s.messages, m, Waiting);
    assert m in s.messages[m := Waiting];
  }

  lemma SendKeepsInv(s: State, d: nat, m: nat, phase: Dispatcher)
    requires Inv(s) && At(s, d, Recorded) && m !in s.messages && (phase == Sent || phase == SendFailed)
    ensures Inv(Set(Moved(s, d, phase), m, Waiting))
  {
    CountAfterMove(s.dispatchers, d, phase);
    CountAfterMove(s.dispatchers, d, SendFailed);
    MoveKeepsInv(s, d, SendFailed, s.rows);
    NewMessageKeepsInv(Moved(s, d, SendFailed), m);
    var t := Set(Moved(s, d, SendFailed), m, Waiting);
    assert m in t.messages;
    assert t.dispatchers[d := phase] == s.dispatchers[d := phase];
    MoveKeepsInv(t, d, phase, t.rows);
    assert Moved(t, d, phase) == Set(Moved(s, d, phase), m, Waiting);
  }

  lemma RecordKeepsInv(s: State, d: nat)
    requires Inv(s)
    ensures Inv(Dispatch(s, DispatchRecord(d)))
  {
    if At(s, d, Read) {
      var phase := if Publishable(s.rows) then Recorded else Gone;
      CountAfterMove(s.dispatchers, d, phase);
      MoveKeepsInv(s, d, phase, if Publishable(s.rows) then RecordAttempt(s.rows).value else s.rows);
    }
  }

  lemma LeaveKeepsInv(s: State, d: nat, rows: Tables)
    requires Inv(s) && d in s.dispatchers
    requires rows == s.rows || (At(s, d, SendFailed) && MarkRetryPending(s.rows) == Some(rows)) ||
             (At(s, d, Sent) && MarkPublished(s.rows) == Some(rows))
    ensures Inv(Moved(s, d, Gone).(rows := rows))
  {
    CountAfterMove(s.dispatchers, d, Gone);
    MoveKeepsInv(s, d, Gone, rows);
  }

  lemma DispatchKeepsInv(s: State, step: Step)
    requires Inv(s)
    ensures Inv(Dispatch(s, step))
  {
    match step
    case DispatchSend(d, m) =>
      if At(s, d, Recorded) && m !in s.messages { SendKeepsInv(s, d, m, Sent); }
    case DispatchSendFails(d, leaked) =>
      if At(s, d, Recorded) {
        if leaked.Some? {
          if leaked.value !in s.messages { SendKeepsInv(s, d, leaked.value, SendFailed); }
        } else {
          CountAfterMove(s.dispatchers, d, SendFailed);
          MoveKeepsInv(s, d, SendFailed, s.rows);
        }
      }
    case DispatchRead(d) =>
      CountAfterMove(s.dispatchers, d, Read);
      if d !in s.dispatchers { MoveKeepsInv(s, d, Read, s.rows); }
    case DispatchRecord(d) => RecordKeepsInv(s, d);
    case DispatchRetry(d) =>
      if At(s, d, SendFailed) { LeaveKeepsInv(s, d, Dispatch(s, step).rows); }
    case DispatchPublish(d) =>
      if At(s, d, Sent) { LeaveKeepsInv(s, d, Dispatch(s, step).rows); }
    case DispatchCrash(d) => if d in s.dispatchers { LeaveKeepsInv(s, d, s.rows); }
    case _ =>
  }

  lemma BeginKeepsTables(t: Tables, m: nat)
    requires TableInv(t)
    ensures var u := BeginAttempt(t, m);
            && TableInv(u) && u.results == t.results && |u.executions| == |t.executions| + 1
            && u.executions[|t.executions|].delivery == m
            && forall i :: 0 <= i < |t.executions| ==> u.executions[i].delivery == t.executions[i].delivery
  {
  }

  lemma CompleteKeepsTables(t: Tables, k: nat)
    requires TableInv(t) && CompleteAttempt(t, k).Some?
    ensures var u := CompleteAttempt(t, k).value;
            && TableInv(u) && u.results == [k] && |u.executions| == |t.executions|
            && forall i :: 0 <= i < |t.executions| ==> u.executions[i].delivery == t.executions[i].delivery
  {
  }

  lemma BeginKeepsInv(s: State, m: nat)
    requires Inv(s) && m in s.messages
    ensures Inv(Work(s, Begin(m), m))
  {
    BeginKeepsTables(s.rows, m);
    CountAfterSet(s.messages, m, Finished);
    CountAfterSet(s.messages, m, Begun(|s.rows.executions|));
  }

  predicate OwnsWork(s: State, m: nat) {
    && !s.aborted && s.rows.results == [] && s.rows.executions != []
    && s.rows.executions[|s.rows.executions| - 1].delivery == m
  }

  /** A message may change hands as the tables allow, and its owner only to another live state. */
  lemma SetKeepsInv(s: State, m: nat, message: Message)
    requires Inv(s) && m in s.messages && !message.Begun?
    requires message == Finished || message == Acked(true) ==> s.rows.results != []
    requires message == Raised || message == Acked(false) ==> s.rows.executions != []
    requires OwnsWork(s, m) ==> Live(message)
    ensures Inv(Set(s, m, message))
  {
    CountAfterSet(s.messages, m, message);
  }

  /** Only a superseded execution is refused, and then another message owns the work. */
  lemma RefusedIsNotOwner(s: State, m: nat)
    requires Inv(s) && m in s.messages && s.messages[m].Begun?
    requires CompleteAttempt(s.rows, s.messages[m].execution).None?
    ensures !OwnsWork(s, m) && s.rows.executions != []
  {
  }

  lemma CompleteKeepsInv(s: State, m: nat)
    requires Inv(s) && m in s.messages && s.messages[m].Begun?
    requires CompleteAttempt(s.rows, s.messages[m].execution).Some?
    ensures Inv(Work(s, Complete(m), m))
  {
    CountAfterSet(s.messages, m, Finished);
    CompleteKeepsTables(s.rows, s.messages[m].execution);
  }

  lemma CompletionKeepsInv(s: State, m: nat)
    requires Inv(s) && m in s.messages
    ensures Inv(Work(s, Complete(m), m))
  {
    if s.messages[m].Begun? {
      if CompleteAttempt(s.rows, s.messages[m].execution).Some? {
        CompleteKeepsInv(s, m);
      } else {
        RefusedIsNotOwner(s, m);
        SetKeepsInv(s, m, Raised);
      }
    }
  }

  lemma AcknowledgeKeepsInv(s: State, m: nat)
    requires Inv(s) && m in s.messages
    ensures Inv(Work(s, Acknowledge(m), m))
  {
    if s.messages[m] == Finished {
      SetKeepsInv(s, m, Acked(true));
    } else if s.messages[m] == Raised {
      SetKeepsInv(s, m, Acked(false));
    }
  }

  lemma AbortKeepsInv(s: State, m: nat)
    requires Inv(s) && m in s.messages
    ensures Inv(Work(s, Abort(m), m))
  {
    CountAfterSet(s.messages, m, Acked(false));
  }

  lemma DeliverKeepsInv(s: State, m: nat)
    requires Inv(s) && m in s.messages
    ensures Inv(Work(s, Deliver(m), m))
  {
    if s.messages[m] == Waiting {
      SetKeepsInv(s, m, Started);
    }
  }

  lemma WorkKeepsInv(s: State, step: Step, m: nat)
    requires Inv(s) && m in s.messages
    requires IsWork(step)
    requires step.m == m
    ensures Inv(Work(s, step, m))
  {
    match step
    case Deliver(_) => DeliverKeepsInv(s, m);
    case Begin(_) => BeginKeepsInv(s, m);
    case Complete(_) => CompletionKeepsInv(s, m);
    case Acknowledge(_) => AcknowledgeKeepsInv(s, m);
    case Kill(_) => SetKeepsInv(s, m, Waiting);
    case Abort(_) => AbortKeepsInv(s, m);
  }

  lemma StepKeepsInv(s: State, step: Step)
    requires Inv(s)
    ensures Inv(Do(s, step))
  {
    if IsWork(step) {
      if step.m in s.messages {
        WorkKeepsInv(s, step, step.m);
      }
    } else {
      DispatchKeepsInv(s, step);
    }
  }

  lemma {:induction false} EveryRunKeepsInv(s: State, steps: seq<Step>)
    requires Inv(s)
    ensures Inv(Exec(s, steps))
  {
    if steps != [] {
      EveryRunKeepsInv(s, steps[..|steps| - 1]);
      StepKeepsInv(Exec(s, steps[..|steps| - 1]), steps[|steps| - 1]);
    }
  }

  lemma InitInv()
    ensures Inv(INIT)
  {
    assert RecordedSet(INIT.dispatchers) == {};
  }

  // ---------------------------------------------------------------- what every run guarantees

  ghost predicate Reachable(s: State) {
    exists steps :: s == Exec(INIT, steps)
  }

  lemma ReachableInv(s: State)
    requires Reachable(s)
    ensures Inv(s)
  {
    var steps :| s == Exec(INIT, steps);
    InitInv();
    EveryRunKeepsInv(INIT, steps);
  }

  ghost predicate OthersLive(s: State, m: nat) {
    exists o :: o in s.messages && o != m && Live(s.messages[o])
  }

  /** Effectively once: at most one result, created by exactly one execution; attempt numbers never
      collide; every acknowledged success has a result, and an acknowledgement without one leaves
      another delivery with the work, unless a task raised; sends never exceed recorded attempts and a
      published event was sent. */
  lemma EffectivelyOnce(s: State)
    requires Reachable(s)
    ensures |s.rows.results| <= 1
    ensures s.rows.results != [] <==>
              exists k :: 0 <= k < |s.rows.executions| && s.rows.executions[k].status == Created
    ensures forall i, j :: 0 <= i < j < |s.rows.executions| ==>
              && s.rows.executions[i].attemptNo != s.rows.executions[j].attemptNo
              && !(s.rows.executions[i].status == Created && s.rows.executions[j].status == Created)
              && !(s.rows.executions[i].status == InProgress && s.rows.executions[j].status == InProgress)
    ensures forall m :: m in s.messages && s.messages[m] == Acked(true) ==> s.rows.results != []
    ensures forall m :: m in s.messages && s.messages[m].Acked? && s.rows.results == [] && !s.aborted ==>
              OthersLive(s, m)
    ensures |s.messages| <= s.rows.publishAttempts
    ensures s.rows.event == Published ==> s.messages != map[]
  {
    ReachableInv(s);
    if s.rows.results != [] {
      assert s.rows.executions[s.rows.results[0]].status == Created;
    } else if s.messages != map[] && !s.aborted {
      NoLostWork(s);
    }
  }

  /** No lost work: as long as no task failed on its own, an event that was sent but has no result
      still has a live message. This holds even though a superseded execution raises and its message
      is acknowledged without a result. */
  lemma NoLostWork(s: State)
    requires Reachable(s) && s.messages != map[] && s.rows.results == [] && !s.aborted
    ensures exists m :: m in s.messages && Live(s.messages[m])
  {
    ReachableInv(s);
    if s.rows.executions == [] {
      var m :| m in s.messages;
      assert Live(s.messages[m]);
    } else {
      var owner := s.rows.executions[|s.rows.executions| - 1].delivery;
      assert owner in s.messages && Live(s.messages[owner]);
    }
  }

  lemma StartIsReachable()
    ensures Reachable(INIT)
  {
    assert INIT == Exec(INIT, []);
  }

  lemma StepIsReachable(s: State, step: Step)
    requires Reachable(s)
    ensures Reachable(Do(s, step))
  {
    var steps :| s == Exec(INIT, steps);
    assert (steps + [step])[..|steps|] == steps;
    assert Do(s, step) == Exec(INIT, steps + [step]);
  }

  lemma RedeliveryCompletes(s: State, m: nat)
    requires m in s.messages && s.messages[m] == Waiting && s.rows.results == []
    ensures |Do(Do(Do(s, Deliver(m)), Begin(m)), Complete(m)).rows.results| == 1
  {
    var begun := Do(Do(s, Deliver(m)), Begin(m));
    assert begun.messages[m] == Begun(|s.rows.executions|);
    assert begun.rows.executions[|s.rows.executions|].status == InProgress && begun.rows.results == [];
  }

  /** From every such state one redelivery completes the job, so nothing ever blocks it. */
  lemma AlwaysRecoverable(s: State)
    requires Reachable(s) && s.messages != map[] && s.rows.results == [] && !s.aborted
    ensures exists m :: |Do(Do(Do(Do(s, Kill(m)), Deliver(m)), Begin(m)), Complete(m)).rows.results| == 1
  {
    NoLostWork(s);
    var m :| m in s.messages && Live(s.messages[m]);
    RedeliveryCompletes(Do(s, Kill(m)), m);
  }

  /** Something is left that can still bring the work to a worker: an event that may be dispatched,
      a dispatcher about to send, or a message that is not acknowledged. */
  ghost predicate CanFinish(s: State) {
    || Publishable(s.rows)
    || (exists d :: At(s, d, Recorded))
    || (exists m :: m in s.messages && !s.messages[m].Acked?)
  }

  ghost predicate Finishes(s: State) {
    exists steps :: Exec(s, steps).rows.results != []
  }

  ghost predicate Stuck(s: State) {
    s.rows.results == [] && !CanFinish(s)
  }

  /** Without any of the three no continuation produces a result, whatever phase dispatchers are in. */
  lemma {:induction false} StuckForever(s: State, steps: seq<Step>)
    requires Stuck(s)
    ensures Stuck(Exec(s, steps))
  {
    if steps != [] {
      var n := |steps| - 1;
      StuckForever(s, steps[..n]);
      StuckStays(Exec(s, steps[..n]), steps[n]);
    }
  }

  lemma StuckStays(s: State, step: Step)
    requires Stuck(s)
    ensures Stuck(Do(s, step))
  {
    var t := Do(s, step);
    forall d ensures !At(t, d, Recorded) {
      assert !At(s, d, Recorded);
    }
    assert t.messages == s.messages && t.rows.event == Published;
  }

  lemma {:induction false} FreshId(used: set<nat>) returns (n: nat)
    ensures n !in used && forall x :: x in used ==> x < n
    decreases |used|
  {
    if used == {} {
      n := 0;
    } else {
      var x :| x in used;
      var m := FreshId(used - {x});
      assert used == (used - {x}) + {x};
      n := if x < m then m else x + 1;
    }
  }

  lemma {:induction false} ExecConcat(s: State, a: seq<Step>, b: seq<Step>)
    ensures Exec(s, a + b) == Exec(Exec(s, a), b)
  {
    if b == [] {
      assert a + b == a;
    } else {
      var n := |b| - 1;
      ExecConcat(s, a, b[..n]);
      assert (a + b)[..|a + b| - 1] == a + b[..n];
    }
  }

  lemma StepThenFinishes(s: State, step: Step)
    requires Finishes(Do(s, step))
    ensures Finishes(s)
  {
    var steps :| Exec(Do(s, step), steps).rows.results != [];
    ExecConcat(s, [step], steps);
    assert [step][..0] == [] && Exec(s, [step]) == Do(s, step);
    assert Exec(s, [step] + steps).rows.results != [];
  }

  lemma LiveFinishes(s: State, m: nat)
    requires s.rows.results == [] && m in s.messages && !s.messages[m].Acked?
    ensures Finishes(s)
  {
    var waiting := Do(s, Kill(m));
    RedeliveryCompletes(waiting, m);
    var done := Do(Do(Do(waiting, Deliver(m)), Begin(m)), Complete(m));
    assert Exec(done, []) == done;
    StepThenFinishes(Do(Do(waiting, Deliver(m)), Begin(m)), Complete(m));
    StepThenFinishes(Do(waiting, Deliver(m)), Begin(m));
    StepThenFinishes(waiting, Deliver(m));
    StepThenFinishes(s, Kill(m));
  }

  lemma RecordedFinishes(s: State, d: nat)
    requires s.rows.results == [] && At(s, d, Recorded)
    ensures Finishes(s)
  {
    var m := FreshId(s.messages.Keys);
    LiveFinishes(Do(s, DispatchSend(d, m)), m);
    StepThenFinishes(s, DispatchSend(d, m));
  }

  lemma PublishableFinishes(s: State)
    requires s.rows.results == [] && Publishable(s.rows)
    ensures Finishes(s)
  {
    var d := FreshId(s.dispatchers.Keys);
    var read := Do(s, DispatchRead(d));
    RecordedFinishes(Do(read, DispatchRecord(d)), d);
    StepThenFinishes(read, DispatchRecord(d));
    StepThenFinishes(s, DispatchRead(d));
  }

  /** When unfinished work is lost, exactly: some continuation produces the result if and only if the
      event may still be dispatched, a dispatcher is about to send, or a message is unacknowledged. */
  lemma LostExactlyWhenStuck(s: State)
    requires s.rows.results == []
    ensures Finishes(s) <==> CanFinish(s)
  {
    if Publishable(s.rows) {
      PublishableFinishes(s);
    } else if d :| At(s, d, Recorded) {
      RecordedFinishes(s, d);
    } else if m :| m in s.messages && !s.messages[m].Acked? {
      LiveFinishes(s, m);
    } else {
      forall steps ensures Exec(s, steps).rows.results == [] {
        StuckForever(s, steps);
      }
    }
  }

  lemma ThreeStepsReachable(s: State, a: Step, b: Step, c: Step)
    requires Reachable(s)
    ensures Reachable(Do(Do(Do(s, a), b), c))
  {
    StepIsReachable(s, a);
    StepIsReachable(Do(s, a), b);
    StepIsReachable(Do(Do(s, a), b), c);
  }

  /** One dispatcher has sent one message and not marked it yet. */
  ghost predicate JustSent(s: State) {
    && s.dispatchers == map[0 := Sent] && s.messages == map[1 := Waiting]
    && s.rows.event == Pending && s.rows.results == [] && s.rows.executions == []
  }

  lemma JustSentHappens() returns (s: State)
    ensures Reachable(s) && JustSent(s) && !s.aborted
  {
    StartIsReachable();
    ThreeStepsReachable(INIT, DispatchRead(0), DispatchRecord(0), DispatchSend(0, 1));
    s := Do(Do(Do(INIT, DispatchRead(0)), DispatchRecord(0)), DispatchSend(0, 1));
  }

  lemma PublishThenAbort(s: State)
    requires JustSent(s)
    ensures Stuck(Do(Do(Do(s, DispatchPublish(0)), Deliver(1)), Abort(1)))
  {
    var t := Do(Do(Do(s, DispatchPublish(0)), Deliver(1)), Abort(1));
    assert t.dispatchers == map[0 := Gone] && t.messages == map[1 := Acked(false)];
  }

  lemma OneTaskExceptionLosesTheWork()
    ensures exists s :: Reachable(s) && s.rows.results == [] && !Finishes(s)
  {
    var s := JustSentHappens();
    ThreeStepsReachable(s, DispatchPublish(0), Deliver(1), Abort(1));
    PublishThenAbort(s);
    LostExactlyWhenStuck(Do(Do(Do(s, DispatchPublish(0)), Deliver(1)), Abort(1)));
  }

  lemma ResendHappens() returns (t: State)
    ensures Reachable(t) && !t.aborted && t.rows.executions == [] && t.rows.results == []
    ensures t.messages == map[1 := Waiting, 3 := Waiting]
  {
    var s := JustSentHappens();
    ThreeStepsReachable(s, DispatchRead(2), DispatchRecord(2), DispatchSend(2, 3));
    t := Do(Do(Do(s, DispatchRead(2)), DispatchRecord(2)), DispatchSend(2, 3));
  }

  lemma FirstBegins(s: State)
    requires s.messages == map[1 := Waiting, 3 := Waiting] && s.rows.executions == [] && s.rows.results == []
    ensures var t := Do(Do(Do(s, Deliver(1)), Begin(1)), Deliver(3));
            && t.messages == map[1 := Begun(0), 3 := Started] && |t.rows.executions| == 1
            && t.rows.results == [] && t.aborted == s.aborted
  {
  }

  lemma OverlapHappens() returns (t: State)
    ensures Reachable(t) && !t.aborted && |t.rows.executions| == 1 && t.rows.results == []
    ensures t.messages == map[1 := Begun(0), 3 := Started]
  {
    var s := ResendHappens();
    FirstBegins(s);
    ThreeStepsReachable(s, Deliver(1), Begin(1), Deliver(3));
    t := Do(Do(Do(s, Deliver(1)), Begin(1)), Deliver(3));
  }

  lemma SecondSupersedes(s: State)
    requires s.messages == map[1 := Begun(0), 3 := Started] && |s.rows.executions| == 1 && s.rows.results == []
    ensures var t := Do(Do(Do(s, Begin(3)), Complete(1)), Acknowledge(1));
            t.messages[1] == Acked(false) && t.rows.results == [] && t.aborted == s.aborted
  {
    var both := Do(s, Begin(3));
    assert both.messages == map[1 := Begun(0), 3 := Begun(1)];
    assert both.rows.executions[0].status != InProgress && both.rows.results == [];
    assert Do(both, Complete(1)).messages == map[1 := Raised, 3 := Begun(1)];
  }

  /** An acknowledgement alone does not imply a result: a resent event whose two deliveries overlap
      acknowledges the superseded one first. */
  lemma SupersededDeliveryIsAckedWithoutResult()
    ensures exists s :: Reachable(s) && !s.aborted && s.rows.results == [] &&
                        1 in s.messages && s.messages[1] == Acked(false)
  {
    var s := OverlapHappens();
    SecondSupersedes(s);
    ThreeStepsReachable(s, Begin(3), Complete(1), Acknowledge(1));
  }

  /** A later delivery of the same event has begun since this one did. */
  predicate Superseded(s: State, m: nat)
    requires m in s.messages && s.messages[m].Begun?
  {
    s.messages[m].execution + 1 < |s.rows.executions|
  }

  /** Completing is refused exactly for a superseded execution or when the result exists. */
  lemma RefusedExactly(s: State, m: nat)
    requires Reachable(s) && m in s.messages && s.messages[m].Begun?
    ensures CompleteAttempt(s.rows, s.messages[m].execution).None? <==> Superseded(s, m) || s.rows.results != []
  {
    ReachableInv(s);
  }

  /** When an acknowledgement comes without a result, exactly: the delivery was superseded and
      nobody has finished yet. */
  lemma AckedWithoutResultExactly(s: State, m: nat)
    requires Reachable(s) && m in s.messages && s.messages[m].Begun?
    ensures var t := Do(Do(s, Complete(m)), Acknowledge(m));
            && t.messages[m].Acked?
            && (t.rows.results == [] <==> s.rows.results == [] && Superseded(s, m))
  {
    RefusedExactly(s, m);
    ReachableInv(s);
  }

  /** The step row should read SUCCEEDED once a result exists. */
  predicate StepTracksResult(s: State) {
    s.rows.results != [] ==> s.rows.step == Succeeded
  }

  /** It does, except exactly when a dispatcher marks the event published after the worker has
      already finished: the late mark puts the step back to QUEUED. */
  lemma StepTracksResultExactly(s: State, step: Step)
    requires Reachable(s) && StepTracksResult(s)
    ensures StepTracksResult(Do(s, step)) <==>
            !(step.DispatchPublish? && At(s, step.d, Sent) && Publishable(s.rows) && s.rows.results != [])
  {
    ReachableInv(s);
  }

  /** The late mark happens at most once in a run: a published event stays published. */
  lemma PublishedIsFinal(s: State, step: Step)
    requires s.rows.event == Published
    ensures Do(s, step).rows.event == Published
    ensures StepTracksResult(s) && Reachable(s) ==> StepTracksResult(Do(s, step))
  {
    if Reachable(s) {
      ReachableInv(s);
    }
  }

  lemma FinishBeforeMark(s: State)
    requires JustSent(s)
    ensures var t := Do(Do(Do(s, Deliver(1)), Begin(1)), Complete(1));
            t.rows.results != [] && t.rows.step == Succeeded && At(t, 0, Sent) && Publishable(t.rows)
  {
    var begun := Do(Do(s, Deliver(1)), Begin(1));
    assert begun.messages[1] == Begun(0) && begun.rows.executions[0].status == InProgress;
  }

  lemma LateMarkHappens()
    ensures exists s :: Reachable(s) && StepTracksResult(s) && !StepTracksResult(Do(s, DispatchPublish(0)))
  {
    var s := JustSentHappens();
    ThreeStepsReachable(s, Deliver(1), Begin(1), Complete(1));
    FinishBeforeMark(s);
    var t := Do(Do(Do(s, Deliver(1)), Begin(1)), Complete(1));
    StepTracksResultExactly(t, DispatchPublish(0));
  }

  // ---------------------------------------------------------------- undisturbed runs of the code

  /** `verify_delivery`: begin, return on an existing result, complete. Its rows are those of the
      machine's steps; `ok` is false when the task raises. */
  method VerifyDelivery(db: Database, m: nat, ghost s: State) returns (ok: bool)
    requires db.Rows() == s.rows && m in s.messages && s.messages[m] == Started
    modifies db
    ensures db.Rows() == Do(Do(s, Begin(m)), Complete(m)).rows
    ensures ok && |db.results| >= 1
  {
    var execution, found := db.BeginRecoveryAttempt(m);
    if found {
      return true;
    }
    ok := db.CompleteRecoveryAttempt(execution);
  }

  /** `_dispatch`: record the attempt, send, mark published; or mark for a retry when sending raised.
      `None` when the event was already published. */
  method DispatchOnce(db: Database, d: nat, m: nat, sends: bool, ghost s: State) returns (published: Option<bool>)
    requires db.Rows() == s.rows && d !in s.dispatchers && m !in s.messages
    modifies db
    ensures published.None? <==> s.rows.event == Published
    ensures published.None? ==> db.Rows() == s.rows
    ensures published == Some(true) ==>
              db.Rows() == s.rows.(event := Published, step := Queued, publishAttempts := s.rows.publishAttempts + 1)
    ensures published == Some(false) ==>
              db.Rows() == s.rows.(event := RetryPending, publishAttempts := s.rows.publishAttempts + 1)
    ensures published.Some? ==>
              var recorded := Do(Do(s, DispatchRead(d)), DispatchRecord(d));
              && published.value == sends
              && db.Rows() == (if sends then Do(Do(recorded, DispatchSend(d, m)), DispatchPublish(d))
                               else Do(Do(recorded, DispatchSendFails(d, None)), DispatchRetry(d))).rows
  {
    var recorded := db.RecordPublishAttempt();
    if !recorded {
      return None;
    }
    var marked: bool;
    if sends {
      marked := db.MarkEventPublished();
    } else {
      marked := db.MarkEventRetryPending();
    }
    return Some(sends);
  }
}
