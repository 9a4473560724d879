/** The resumable event stream of a Linux audit run.

    Events are numbered 1, 2, ... under a row lock. A poll first reads one page of events after its
    cursor, then, in a second statement, the run's status; it stops on a terminal status with an
    empty page. The audit itself commits the terminal status before its last event. */
module EventCursor {

  const PAGE_LIMIT: nat := 200

  datatype Row = Row(sequence: nat, payload: string)

  /** Event `i` of the log has sequence number `i + 1`. */
  function Rows(log: seq<string>, from: nat, to: nat): (r: seq<Row>)
    requires from <= to <= |log|
    ensures |r| == to - from
    ensures forall i :: 0 <= i < |r| ==> r[i] == Row(from + i + 1, log[from + i])
  {
    seq(to - from, i requires 0 <= i < to - from => Row(from + i + 1, log[from + i]))
  }

  /** `WHERE sequence > after ORDER BY sequence LIMIT 200`. */
  function Page(log: seq<string>, after: nat): seq<Row> {
    if after >= |log| then []
    else Rows(log, after, if |log| - after <= PAGE_LIMIT then |log| else after + PAGE_LIMIT)
  }

  /** A page holds the next events after the cursor, at most 200. */
  lemma PageIsNext(log: seq<string>, after: nat)
    ensures |Page(log, after)| == if after >= |log| then 0 else if |log| - after <= 200 then |log| - after else 200
    ensures forall i :: 0 <= i < |Page(log, after)| ==> Page(log, after)[i] == Row(after + i + 1, log[after + i])
  {
  }

  /** What a stream started at `start` owes its client once its cursor reached `cursor`. */
  function Owed(log: seq<string>, start: nat, cursor: nat): seq<Row> {
    if start <= cursor <= |log| then Rows(log, start, cursor) else []
  }

  class CursorStream {
    var cursor: nat

    constructor (after: nat, lastEventId: nat)
      ensures cursor == if lastEventId > after then lastEventId else after
    {
      cursor := if lastEventId > after then lastEventId else after;
    }

    method Deliver(events: seq<Row>, terminal: bool) returns (out: seq<Row>, stop: bool)
      modifies this
      ensures out == events
      ensures cursor == if events == [] then old(cursor) else events[|events| - 1].sequence
      ensures stop <==> terminal && events == []
    {
      out := [];
      for i := 0 to |events|
        invariant out == events[..i]
        invariant cursor == if i == 0 then old(cursor) else events[i - 1].sequence
      {
        cursor := events[i].sequence;
        out := out + [events[i]];
      }
      stop := terminal && |events| == 0;
    }
  }

  // ---------------------------------------------------------------- the machine

  /** `page` is what the poll in progress has read; `lastRead` the length of the log at that time. */
  datatype State = State(
    log: seq<string>, terminal: bool,
    start: nat, cursor: nat, emitted: seq<Row>,
    reading: bool, page: seq<Row>, lastRead: nat, stopped: bool)

  datatype Step = Append(payload: string) | Finish | ReadEvents | ReadStatus

  function Start(log: seq<string>, terminal: bool, after: nat): State {
    State(log, terminal, after, after, [], false, [], 0, false)
  }

  function Do(s: State, step: Step): State {
    match step
    case Append(payload) => s.(log := s.log + [payload])
    case Finish => s.(terminal := true)
    case ReadEvents =>
      if s.stopped || s.reading then s
      else s.(reading := true, page := Page(s.log, s.cursor), lastRead := |s.log|)
    case ReadStatus =>
      if s.stopped || !s.reading then s
      else s.(reading := false,
              emitted := s.emitted + s.page,
              cursor := if s.page == [] then s.cursor else s.page[|s.page| - 1].sequence,
              stopped := s.terminal && s.page == [])
  }

  function Exec(s: State, steps: seq<Step>): State {
    if steps == [] then s else Do(Exec(s, steps[..|steps| - 1]), steps[|steps| - 1])
  }

  ghost predicate Inv(s: State) {
    && s.start <= s.cursor && s.lastRead <= |s.log|
    && (s.cursor <= |s.log| || (s.cursor == s.start && s.emitted == []))
    && s.emitted == Owed(s.log, s.start, s.cursor)
    && (s.reading ==>
          && (s.page == [] ==> s.cursor >= s.lastRead)
          && (s.page != [] ==> s.cursor + |s.page| <= |s.log| && s.page == Rows(s.log, s.cursor, s.cursor + |s.page|)))
    && (s.stopped ==> s.terminal && s.cursor >= s.lastRead && !s.reading)
  }

  lemma RowsExtend(log: seq<string>, from: nat, mid: nat, to: nat)
    requires from <= mid <= to <= |log|
    ensures Rows(log, from, mid) + Rows(log, mid, to) == Rows(log, from, to)
  {
  }

  lemma RowsOfPrefix(log: seq<string>, longer: seq<string>, from: nat, to: nat, n: nat)
    requires log <= longer && from <= to <= |log| && n <= to - from
    ensures Rows(log, from, to)[..n] == Rows(longer, from, from + n)
  {
  }

  lemma RowsOfLongerLog(log: seq<string>, payload: string, from: nat, to: nat)
    requires from <= to <= |log|
    ensures Rows(log + [payload], from, to) == Rows(log, from, to)
  {
  }

  lemma StepKeepsInv(s: State, step: Step)
    requires Inv(s)
    ensures Inv(Do(s, step))
  {
    match step
    case Append(payload) =>
      if s.cursor <= |s.log| { RowsOfLongerLog(s.log, payload, s.start, s.cursor); }
      if s.reading && s.page != [] { RowsOfLongerLog(s.log, payload, s.cursor, s.cursor + |s.page|); }
    case ReadStatus =>
      if s.reading && s.page != [] { RowsExtend(s.log, s.start, s.cursor, s.cursor + |s.page|); }
    case _ =>
  }

  lemma {:induction false} EveryRunKeepsInv(s: State, steps: seq<Step>)
    requires Inv(s)
    ensures Inv(Exec(s, steps))
  {
    if steps != [] {
      EveryRunKeepsInv(s, steps[..|steps| - 1]);
      StepKeepsInv(Exec(s, steps[..|steps| - 1]), steps[|steps| - 1]);
    }
  }

  // ---------------------------------------------------------------- what every run guarantees

  ghost predicate Reachable(s: State) {
    exists log, terminal, after, steps :: s == Exec(Start(log, terminal, after), steps)
  }

  lemma ReachableInv(s: State)
    requires Reachable(s)
    ensures Inv(s)
  {
    var log, terminal, after, steps :| s == Exec(Start(log, terminal, after), steps);
    EveryRunKeepsInv(Start(log, terminal, after), steps);
  }

  /** At any moment the client has received exactly the events after its start up to the cursor,
      each once and in order. */
  lemma EmittedExactlyOnceInOrder(s: State)
    requires Reachable(s)
    ensures s.emitted == Owed(s.log, s.start, s.cursor)
    ensures forall i :: 0 <= i < |s.emitted| ==> s.emitted[i].sequence == s.start + i + 1
  {
    ReachableInv(s);
  }

  /** A stopped stream delivered everything exactly when nothing was appended after its last read
      of the events. */
  lemma StoppedStreamIsCompleteExactly(s: State)
    requires Reachable(s) && s.stopped && s.start <= |s.log|
    ensures s.emitted == Rows(s.log, s.start, |s.log|) <==> (s.lastRead == |s.log| || s.start == |s.log|)
    ensures s.lastRead < |s.log| && s.start < |s.log| ==> |s.emitted| < |s.log| - s.start
  {
    ReachableInv(s);
    StoppedCursor(s);
  }

  /** The cursor never runs ahead of what was read. */
  ghost predicate CursorInv(s: State) {
    && (s.cursor <= s.lastRead || s.cursor == s.start)
    && (s.reading && s.page != [] ==> s.cursor + |s.page| <= s.lastRead)
  }

  lemma {:induction false} CursorNeverAhead(s: State, steps: seq<Step>)
    requires Inv(s) && CursorInv(s)
    ensures Inv(Exec(s, steps)) && CursorInv(Exec(s, steps))
  {
    if steps != [] {
      CursorNeverAhead(s, steps[..|steps| - 1]);
      StepKeepsInv(Exec(s, steps[..|steps| - 1]), steps[|steps| - 1]);
    }
  }

  lemma StoppedCursor(s: State)
    requires Reachable(s) && s.stopped
    ensures s.cursor == s.start || s.cursor == s.lastRead
  {
    var log, terminal, after, steps :| s == Exec(Start(log, terminal, after), steps);
    CursorNeverAhead(Start(log, terminal, after), steps);
  }

  /** Everything the stream has taken from the log: delivered pages and the page in delivery. */
  function Taken(s: State): seq<Row> {
    if s.reading then s.emitted + s.page else s.emitted
  }

  lemma TakenIsOwed(s: State)
    requires Inv(s)
    ensures s.start + |Taken(s)| <= |s.log| || Taken(s) == []
    ensures s.start + |Taken(s)| <= |s.log| ==> Taken(s) == Rows(s.log, s.start, s.start + |Taken(s)|)
  {
    if s.reading && s.page != [] {
      RowsExtend(s.log, s.start, s.cursor, s.cursor + |s.page|);
    } else if s.reading {
      assert s.emitted + s.page == s.emitted;
    }
  }

  /** Cutting a stream after any event, also between two events of one page, and resuming from the
      last event received yields, together, exactly what one uninterrupted stream would have
      delivered. */
  lemma ResumeContinuesExactly(first: State, second: State, n: nat)
    requires Reachable(first) && Reachable(second) && first.log <= second.log
    requires n <= |Taken(first)| && second.start == first.start + n
    ensures Taken(first)[..n] + second.emitted == Owed(second.log, first.start, second.cursor)
  {
    ReachableInv(first);
    ReachableInv(second);
    TakenIsOwed(first);
    ReceivedThenResumed(first.log, first.start, Taken(first), n, second);
  }

  lemma ReceivedThenResumed(log: seq<string>, start: nat, taken: seq<Row>, n: nat, second: State)
    requires start + |taken| <= |log| || taken == []
    requires start + |taken| <= |log| ==> taken == Rows(log, start, start + |taken|)
    requires Inv(second) && log <= second.log && n <= |taken| && second.start == start + n
    ensures taken[..n] + second.emitted == Owed(second.log, start, second.cursor)
  {
    if n == 0 {
      assert taken[..0] + second.emitted == second.emitted;
    } else {
      OwedContinues(log, second.log, start, |taken|, n, second.cursor);
    }
  }

  lemma OwedContinues(log: seq<string>, longer: seq<string>, start: nat, taken: nat, n: nat, cursor: nat)
    requires log <= longer && start + taken <= |log| && n <= taken && start + n <= cursor <= |longer|
    ensures Rows(log, start, start + taken)[..n] + Owed(longer, start + n, cursor) == Owed(longer, start, cursor)
  {
    RowsOfPrefix(log, longer, start, start + taken, n);
    RowsExtend(longer, start, start + n, cursor);
  }

  /** If each poll were one snapshot and the audit appended nothing after its terminal status, every
      stopped stream would be complete. */
  datatype SnapshotStep = SafeAppend(payload: string) | SafeFinish | Poll

  function DoSnapshot(s: State, step: SnapshotStep): State {
    match step
    case SafeAppend(payload) => if s.terminal then s else Do(s, Append(payload))
    case SafeFinish => Do(s, Finish)
    case Poll => Do(Do(s, ReadEvents), ReadStatus)
  }

  function ExecSnapshot(s: State, steps: seq<SnapshotStep>): State {
    if steps == [] then s else DoSnapshot(ExecSnapshot(s, steps[..|steps| - 1]), steps[|steps| - 1])
  }

  lemma {:induction false} SnapshotPollsAreComplete(s: State, steps: seq<SnapshotStep>)
    requires Inv(s) && !s.reading && (s.stopped ==> s.cursor >= |s.log|)
    ensures var t := ExecSnapshot(s, steps);
            && Inv(t) && !t.reading
            && (t.stopped ==> t.cursor >= |t.log|)
            && (t.stopped && t.start <= |t.log| ==> t.emitted == Rows(t.log, t.start, |t.log|))
  {
    if steps != [] {
      SnapshotPollsAreComplete(s, steps[..|steps| - 1]);
      var u, step := ExecSnapshot(s, steps[..|steps| - 1]), steps[|steps| - 1];
      match step
      case SafeAppend(payload) => StepKeepsInv(u, Append(payload));
      case SafeFinish => StepKeepsInv(u, Finish);
      case Poll => StepKeepsInv(u, ReadEvents); StepKeepsInv(Do(u, ReadEvents), ReadStatus);
    }
    var t := ExecSnapshot(s, steps);
    if t.stopped && t.start <= |t.log| {
      assert t.cursor == |t.log|;
    }
  }

  /** The audit breaks the second hypothesis: its last event may never reach the client. */
  lemma LastEventCanBeMissed()
    ensures var s := Do(Do(Do(Do(Start([], false, 0), Finish), ReadEvents), ReadStatus), Append("RUN_COMPLETED"));
            s.stopped && s.emitted == [] && s.log == ["RUN_COMPLETED"]
  {
  }

  /** The order of the two reads breaks the first: events committed between them are lost together
      with the terminal event, however many there are. */
  lemma EventsBetweenTheReadsAreMissed(payloads: seq<string>)
    ensures var read := Do(Start([], false, 0), ReadEvents);
            var s := Do(Do(AppendAll(read, payloads), Finish), ReadStatus);
            s.stopped && s.emitted == [] && s.log == payloads
  {
    var read := Do(Start([], false, 0), ReadEvents);
    AppendAllKeepsRest(read, payloads);
    assert read.log + payloads == payloads;
  }

  function AppendAll(s: State, payloads: seq<string>): State {
    if payloads == [] then s
    else Do(AppendAll(s, payloads[..|payloads| - 1]), Append(payloads[|payloads| - 1]))
  }

  lemma {:induction false} AppendAllKeepsRest(s: State, payloads: seq<string>)
    ensures AppendAll(s, payloads) == s.(log := s.log + payloads)
  {
    if payloads == [] {
      assert s.log + payloads == s.log;
    } else {
      AppendAllKeepsRest(s, payloads[..|payloads| - 1]);
      assert payloads == payloads[..|payloads| - 1] + [payloads[|payloads| - 1]];
    }
  }

  function PollTimes(s: State, n: nat): State
    decreases n
  {
    if n == 0 then s else PollTimes(DoSnapshot(s, Poll), n - 1)
  }

  lemma PollMakesProgress(s: State)
    requires Inv(s) && !s.reading && !s.stopped && s.terminal && s.start <= |s.log|
    ensures var t := DoSnapshot(s, Poll);
            && Inv(t) && !t.reading && t.terminal && t.log == s.log && t.start == s.start
            && (if s.cursor == |s.log| then t.stopped && t.cursor == s.cursor else !t.stopped && s.cursor < t.cursor)
  {
    StepKeepsInv(s, ReadEvents);
    StepKeepsInv(Do(s, ReadEvents), ReadStatus);
  }

  /** Once the run is terminal and quiet, polling drains every page and then stops. */
  lemma {:induction false} PollingDrainsAndStops(s: State) returns (n: nat)
    requires Inv(s) && !s.reading && !s.stopped && s.terminal && s.start <= |s.log|
    ensures PollTimes(s, n).stopped && PollTimes(s, n).emitted == Rows(s.log, s.start, |s.log|)
    decreases |s.log| - s.cursor
  {
    var t := DoSnapshot(s, Poll);
    PollMakesProgress(s);
    if s.cursor == |s.log| {
      assert PollTimes(t, 0) == t;
      n := 1;
    } else {
      var m := PollingDrainsAndStops(t);
      n := m + 1;
    }
  }
}
