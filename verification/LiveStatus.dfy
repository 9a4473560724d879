/** What a client of a streamed answer is told about the status of its generation, and how a
    generation that nobody disturbs ends. */
module LiveStatus {
  import opened Options
  import opened StreamBuffer
  import opened LiveStream

  /** The statuses among the events. */
  function StatusesOf(events: seq<Event>): seq<Status> {
    if events == [] then []
    else
      var last := events[|events| - 1];
      StatusesOf(events[..|events| - 1]) + if last.GenerationStatus? then [last.status] else []
  }

  /** What a client knows after some events: the last status told, else what it knew before. */
  function Knows(before: Option<Status>, events: seq<Event>): Option<Status> {
    var told := StatusesOf(events);
    if told == [] then before else Some(told[|told| - 1])
  }

  lemma {:induction false} StatusesOfConcat(a: seq<Event>, b: seq<Event>)
    ensures StatusesOf(a + b) == StatusesOf(a) + StatusesOf(b)
  {
    if b == [] {
      assert a + b == a;
    } else {
      var n := |b| - 1;
      StatusesOfConcat(a, b[..n]);
      assert (a + b)[..|a + b| - 1] == a + b[..n];
    }
  }

  lemma StatusesOfFew(events: seq<Event>)
    requires |events| <= 1
    ensures StatusesOf(events) == if events != [] && events[0].GenerationStatus? then [events[0].status] else []
  {
    if events != [] {
      assert events[..0] == [];
    }
  }

  /** After a poll the client knows the status that was read, and it is told one exactly when that
      differs from what the poller told last. */
  lemma PollTellsChange(p: Poller, snapshot: Stored, status: Status)
    ensures var polled := Poll(p, snapshot, status);
            && polled.poller.previous == Some(status) == Knows(p.previous, polled.events)
            && StatusesOf(polled.events) == (if p.previous == Some(status) then [] else [status])
  {
    var polled := Poll(p, snapshot, status);
    var told := p.previous != Some(status);
    var text := polled.events[..|polled.events| - if told then 1 else 0];
    var tail := polled.events[|text|..];
    assert text + tail == polled.events;
    StatusesOfConcat(text, tail);
    StatusesOfFew(tail);
    NoStatusInText(text);
  }

  lemma {:induction false} NoStatusInText(events: seq<Event>)
    requires forall i :: 0 <= i < |events| ==> !events[i].GenerationStatus?
    ensures StatusesOf(events) == []
  {
    if events != [] {
      NoStatusInText(events[..|events| - 1]);
    }
  }

  // ---------------------------------------------------------------- over whole runs

  /** The events of one step: only a poll of an open stream sends any. */
  function Sends(s: State, step: Step): seq<Event> {
    if step.PollRead? && s.ended.Open?
    then Poll(s.poller, if step.ok then s.store else Stored("", 0), s.seen).events else []
  }

  function ToldBy(s: State, step: Step): seq<Status> {
    StatusesOf(Sends(s, step))
  }

  function ReadBy(s: State, step: Step): seq<Status> {
    if step.PollRead? && s.ended.Open? then [s.seen] else []
  }

  /** All statuses the client was told in a run. */
  function Told(steps: seq<Step>): seq<Status> {
    if steps == [] then []
    else
      var n := |steps| - 1;
      Told(steps[..n]) + ToldBy(Exec(steps[..n]), steps[n])
  }

  /** The status the poller had read at each of its polls. */
  function Read(steps: seq<Step>): seq<Status> {
    if steps == [] then []
    else
      var n := |steps| - 1;
      Read(steps[..n]) + ReadBy(Exec(steps[..n]), steps[n])
  }

  /** A sequence without its immediate repetitions. */
  function Changes(xs: seq<Status>): seq<Status> {
    if |xs| <= 1 then xs
    else Changes(xs[..|xs| - 1]) + if xs[|xs| - 1] == xs[|xs| - 2] then [] else [xs[|xs| - 1]]
  }

  lemma ChangesSnoc(xs: seq<Status>, x: Status)
    ensures Changes(xs + [x]) == if xs != [] && xs[|xs| - 1] == x then Changes(xs) else Changes(xs) + [x]
  {
    assert (xs + [x])[..|xs|] == xs;
  }

  lemma {:induction false} ChangesEnd(xs: seq<Status>)
    requires xs != []
    ensures Changes(xs) != [] && Changes(xs)[|Changes(xs)| - 1] == xs[|xs| - 1]
  {
    if |xs| > 1 {
      ChangesEnd(xs[..|xs| - 1]);
    }
  }

  function Last(read: seq<Status>): Option<Status> {
    if read == [] then None else Some(read[|read| - 1])
  }

  lemma PollStepTells(s: State, ok: bool)
    requires s.ended.Open?
    ensures ToldBy(s, PollRead(ok)) == if s.poller.previous == Some(s.seen) then [] else [s.seen]
  {
    PollTellsChange(s.poller, if ok then s.store else Stored("", 0), s.seen);
  }

  lemma PollStepRemembers(s: State, ok: bool)
    requires s.ended.Open?
    ensures Do(s, PollRead(ok)).poller.previous == Some(s.seen)
  {
  }

  lemma OtherStepsTellNothing(s: State, step: Step)
    requires !(step.PollRead? && s.ended.Open?)
    ensures ToldBy(s, step) == [] && ReadBy(s, step) == [] && Do(s, step).poller == s.poller
  {
  }

  lemma ReadTells(previous: Option<Status>, read: seq<Status>, seen: Status)
    requires previous == Last(read)
    ensures Changes(read + [seen]) == Changes(read) + if previous == Some(seen) then [] else [seen]
    ensures Last(read + [seen]) == Some(seen)
  {
    ChangesSnoc(read, seen);
  }

  lemma StepTellsChange(s: State, step: Step, read: seq<Status>)
    requires s.poller.previous == Last(read)
    ensures Changes(read + ReadBy(s, step)) == Changes(read) + ToldBy(s, step)
    ensures Do(s, step).poller.previous == Last(read + ReadBy(s, step))
  {
    if step.PollRead? && s.ended.Open? {
      PollStepTells(s, step.ok);
      PollStepRemembers(s, step.ok);
      ReadTells(s.poller.previous, read, s.seen);
    } else {
      OtherStepsTellNothing(s, step);
      assert read + [] == read && Changes(read) + [] == Changes(read);
    }
  }

  /** In every run the client is told exactly the changes among the statuses read: each once, in order,
      and an unchanged one never again. */
  lemma {:induction false} EveryChangeIsToldOnce(steps: seq<Step>)
    ensures Told(steps) == Changes(Read(steps))
    ensures Exec(steps).poller.previous == Last(Read(steps))
  {
    if steps != [] {
      var n := |steps| - 1;
      EveryChangeIsToldOnce(steps[..n]);
      StepTellsChange(Exec(steps[..n]), steps[n], Read(steps[..n]));
    }
  }

  function Rank(status: Status): nat {
    match status
    case Queued => 0
    case Streaming => 1
    case _ => 2
  }

  /** What the poller read only advances and is never ahead of the status; a terminal status is read
      once, by the poll that ends the stream. */
  ghost predicate StatusInv(s: State, read: seq<Status>) {
    && Rank(s.seen) <= Rank(s.status) && (Terminal(s.seen) ==> s.seen == s.status)
    && Advancing(read)
    && (forall i :: 0 <= i < |read| ==> Rank(read[i]) <= Rank(s.seen))
    && (s.ended.Open? ==> forall i :: 0 <= i < |read| ==> !Terminal(read[i]))
    && (s.ended.EndedWith? ==> read != [] && read[|read| - 1] == s.ended.status)
  }

  ghost predicate Advancing(xs: seq<Status>) {
    && (forall i, j :: 0 <= i < j < |xs| ==> Rank(xs[i]) <= Rank(xs[j]))
    && (forall i :: 0 <= i < |xs| - 1 ==> !Terminal(xs[i]))
  }

  lemma StepAdvancesStatus(s: State, step: Step)
    ensures var t := Do(s, step);
            && (t.status == s.status || (Rank(s.status) < Rank(t.status)))
            && (t.seen == s.seen || (s.ended.Open? && t.seen == s.status == t.status))
            && (!(step.PollRead? && s.ended.Open?) ==> t.ended == s.ended || t.ended.TimedOut?)
  {
  }

  lemma StepKeepsStatusInv(s: State, step: Step, read: seq<Status>)
    requires StatusInv(s, read)
    ensures StatusInv(Do(s, step), read + ReadBy(s, step))
  {
    StepAdvancesStatus(s, step);
    if !(step.PollRead? && s.ended.Open?) {
      assert read + ReadBy(s, step) == read;
    }
  }

  lemma {:induction false} EveryRunAdvancesStatus(steps: seq<Step>)
    ensures StatusInv(Exec(steps), Read(steps))
  {
    if steps != [] {
      var n := |steps| - 1;
      EveryRunAdvancesStatus(steps[..n]);
      StepKeepsStatusInv(Exec(steps[..n]), steps[n], Read(steps[..n]));
    }
  }

  lemma {:induction false} ChangesIncrease(xs: seq<Status>)
    requires Advancing(xs)
    ensures forall i, j :: 0 <= i < j < |Changes(xs)| ==> Rank(Changes(xs)[i]) < Rank(Changes(xs)[j])
    ensures forall c :: c in Changes(xs) ==> c in xs
  {
    if |xs| > 1 {
      var n := |xs| - 1;
      var front := xs[..n];
      ChangesIncrease(front);
      ChangesEnd(front);
      assert xs == front + [xs[n]];
      if xs[n] != xs[n - 1] {
        assert Rank(xs[n - 1]) < Rank(xs[n]);
        forall c | c in Changes(front) ensures Rank(c) < Rank(xs[n]) {
          assert c in front;
          var i :| 0 <= i < n && xs[i] == c;
          assert i < n - 1 ==> Rank(xs[i]) <= Rank(xs[n - 1]);
        }
      }
    }
  }

  lemma ReadIncreases(s: State, read: seq<Status>)
    requires StatusInv(s, read)
    ensures forall i, j :: 0 <= i < j < |Changes(read)| ==> Rank(Changes(read)[i]) < Rank(Changes(read)[j])
    ensures s.ended.EndedWith? ==> Changes(read) != [] && Changes(read)[|Changes(read)| - 1] == s.ended.status
  {
    ChangesIncrease(read);
    if read != [] {
      ChangesEnd(read);
    }
  }

  /** So a client is told at most one status of each kind, queued before streaming before terminal, and
      a stream that ended has told its terminal status, last. */
  lemma ToldStatusesAdvance(steps: seq<Step>)
    ensures forall i, j :: 0 <= i < j < |Told(steps)| ==> Rank(Told(steps)[i]) < Rank(Told(steps)[j])
    ensures Exec(steps).ended.EndedWith? ==>
              Told(steps) != [] && Told(steps)[|Told(steps)| - 1] == Exec(steps).ended.status
  {
    EveryChangeIsToldOnce(steps);
    EveryRunAdvancesStatus(steps);
    ReadIncreases(Exec(steps), Read(steps));
  }

  // ---------------------------------------------------------------- undisturbed endings

  ghost predicate EndsAs(s: State, status: Status, store: Stored) {
    s.phase.Done? && s.status == status && s.store == store
  }

  lemma ClearingFails(s: State)
    requires (s.phase.SafeReset? || s.phase.HandlerReset?) && s.status == Streaming
    ensures EndsAs(Advanced(Advanced(s)), Failed, Stored("", s.store.epoch + 1))
  {
  }

  lemma FixedAnswerCompletes(s: State, answer: string)
    requires s.phase == NoEvidenceReset(answer) && s.status == Streaming && |answer| <= STREAM_MAX_CHARS
    ensures EndsAs(Advanced(Advanced(Advanced(Advanced(s)))), Completed, Stored(answer, s.store.epoch + 1))
  {
    var a := Advanced(s);
    assert a.store == Stored("", s.store.epoch + 1) && Remaining(a.store.content) == STREAM_MAX_CHARS;
    var b := Advanced(a);
    assert b.phase == NoEvidencePush(answer, STREAM_MAX_CHARS);
    assert Advanced(b).store.content == "" + answer == answer;
  }

  /** How a working generation ends when nobody disturbs it: generated text completes as it is, the
      fixed answer replaces what was streamed, and a refusal or an exception clears it and fails. */
  lemma OutcomeDecidesEnding(s: State, answer: string)
    requires s.phase.Working? && s.status == Streaming && |answer| <= STREAM_MAX_CHARS
    ensures EndsAs(Advanced(Do(s, Finish(Generated))), Completed, s.store)
    ensures EndsAs(Advanced(Advanced(Advanced(Advanced(Do(s, Finish(NoEvidence(answer))))))), Completed,
                   Stored(answer, s.store.epoch + 1))
    ensures EndsAs(Advanced(Advanced(Do(s, Finish(Unsafe)))), Failed, Stored("", s.store.epoch + 1))
    ensures EndsAs(Advanced(Advanced(Do(s, Raise))), Failed, Stored("", s.store.epoch + 1))
  {
    FinishPhases(s, answer);
    FixedAnswerCompletes(s.(phase := NoEvidenceReset(answer)), answer);
    ClearingFails(s.(phase := SafeReset));
    ClearingFails(s.(phase := HandlerReset));
  }

  lemma FinishPhases(s: State, answer: string)
    requires s.phase.Working? && |answer| <= STREAM_MAX_CHARS
    ensures Do(s, Finish(Generated)) == s.(phase := Completing(false, ""))
    ensures Do(s, Finish(NoEvidence(answer))) == s.(phase := NoEvidenceReset(answer))
    ensures Do(s, Finish(Unsafe)) == s.(phase := SafeReset) && Do(s, Raise) == s.(phase := HandlerReset)
  {
  }

  /** The poll that reads a terminal status ends the stream with it and deletes what was stored. */
  lemma TerminalPollEnds(s: State, ok: bool)
    requires s.ended.Open?
    ensures var t := Do(s, PollRead(ok));
            && (Terminal(s.seen) ==> t.ended == EndedWith(s.seen, ok) && t.store == Stored("", 0))
            && (!Terminal(s.seen) ==> t.ended.Open? && t.store == s.store)
            && t.status == s.status && t.phase == s.phase && t.seen == s.seen
            && t.failures == s.failures + if ok then 0 else 1
  {
  }

  /** What requests do: a run starts a queued generation once, a stop ends one that has not ended, a
      fallback of the model starts the text over, and a timeout ends the stream and deletes it. */
  lemma RequestsDecide(s: State)
    ensures s.phase.Idle? && s.status == Queued ==>
              Do(s, RequestRun) == s.(status := Streaming, phase := Spawned, store := Stored("", 0))
    ensures !(s.phase.Idle? && s.status == Queued) ==> Do(s, RequestRun) == s
    ensures s.phase.Spawned? && s.status == Streaming ==> Do(s, StartTask) == s.(phase := Working)
    ensures Do(s, Stop) == if Terminal(s.status) then s else s.(status := Stopped)
    ensures s.phase.Working? ==> Do(s, FallBack) == s.(store := Stored("", s.store.epoch + 1), sent := "")
    ensures s.ended.Open? ==> Do(s, TimeOut) == s.(ended := TimedOut, store := Stored("", 0))
  {
  }

  /** A generation stopped by its user stays stopped: the producer that notices clears the text, and
      one that has not begun does nothing. */
  lemma StoppedStaysStopped(s: State)
    requires s.status == Stopped
    ensures s.phase.Working? ==>
              EndsAs(Advanced(Advanced(Advanced(Do(s, Finish(Generated))))), Stopped, Stored("", s.store.epoch + 1))
    ensures s.phase.Spawned? ==> EndsAs(Do(s, StartTask), Stopped, s.store)
  {
  }
}
