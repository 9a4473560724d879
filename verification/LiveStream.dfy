/** Producer, store, poller and client of one streamed answer, as a state machine over their steps.

    The producer runs the generation task; a separate poller turns (content, epoch) snapshots into
    server-sent events; two kinds of client consume them. Any interleaving of steps is a run. A step
    whose guard does not hold leaves the state as it is. */
module LiveStream {
  import opened Options
  import opened StreamBuffer

  datatype Status = Queued | Streaming | Completed | Stopped | Failed

  predicate Terminal(s: Status) {
    s == Completed || s == Stopped || s == Failed
  }

  // ---------------------------------------------------------------- events and clients

  datatype Event =
    | AnswerReset
    | AnswerToken(delta: string, offset: nat)
    | GenerationStatus(status: Status)

  function Cut(text: string, length: int): string {
    if length <= 0 then "" else if |text| <= length then text else text[..length]
  }

  /** The browser: clears on a reset, appends every delta. */
  function Show(text: string, event: Event): string {
    match event
    case AnswerReset => ""
    case AnswerToken(delta, _) => text + delta
    case GenerationStatus(_) => text
  }

  /** A client that uses the offset: each delta says where it belongs. */
  function Place(text: string, event: Event): string {
    match event
    case AnswerReset => ""
    case AnswerToken(delta, offset) => Cut(text, offset - |delta|) + delta
    case GenerationStatus(_) => text
  }

  function ShowAll(text: string, events: seq<Event>): string
    decreases |events|
  {
    if events == [] then text else ShowAll(Show(text, events[0]), events[1..])
  }

  function PlaceAll(text: string, events: seq<Event>): string
    decreases |events|
  {
    if events == [] then text else PlaceAll(Place(text, events[0]), events[1..])
  }

  // ---------------------------------------------------------------- the poller

  datatype Poller = Poller(offset: nat, epoch: nat, previous: Option<Status>)

  datatype Polled = Polled(poller: Poller, events: seq<Event>, shrank: bool)

  /** One iteration of the poll loop on a snapshot; `shrank` records that the branch for a content
      shorter than the offset was taken. */
  function Poll(p: Poller, snapshot: Stored, status: Status): Polled {
    var reset := snapshot.epoch != p.epoch;
    var offset := if reset then 0 else p.offset;
    var shrank := |snapshot.content| < offset;
    var start := if shrank then 0 else offset;
    var size := |snapshot.content|;
    Polled(
      Poller(size, snapshot.epoch, Some(status)),
      (if reset then [AnswerReset] else [])
      + (if size > start then [AnswerToken(snapshot.content[start..], size)] else [])
      + (if Some(status) != p.previous then [GenerationStatus(status)] else []),
      shrank)
  }

  class EventStream {
    var offset: nat
    var epoch: nat
    var previous: Option<Status>

    ghost function State(): Poller
      reads this
    {
      Poller(offset, epoch, previous)
    }

    constructor ()
      ensures State() == Poller(0, 0, None)
    {
      offset, epoch, previous := 0, 0, None;
    }

    method Next(store: StreamStore, status: Status) returns (events: seq<Event>)
      modifies this
      ensures var polled := old(Poll(State(), store.State(), status));
              State() == polled.poller && events == polled.events
    {
      events := [];
      if store.epoch != epoch {
        events := events + [AnswerReset];
        epoch := store.epoch;
        offset := 0;
      }
      if |store.content| < offset {
        offset := 0;
      }
      if |store.content| > offset {
        var delta := store.content[offset..];
        offset := |store.content|;
        events := events + [AnswerToken(delta, offset)];
      }
      if Some(status) != previous {
        events := events + [GenerationStatus(status)];
        previous := Some(status);
      }
    }
  }

  // ---------------------------------------------------------------- the machine

  /** Where the generation task is in its order of effects. */
  datatype Phase =
    | Idle                                          // not requested yet
    | Spawned                                       // requested, task not started
    | Working                                       // the model may emit tokens or fall back
    | Measured(token: string, remaining: int)       // between STRLEN and APPEND
    | NoEvidenceReset(answer: string)
    | NoEvidenceAppend(answer: string)
    | NoEvidencePush(answer: string, remaining: int)
    | Completing(fixed: bool, answer: string)
    | SafeReset                                     // safe refusal: reset, then fail
    | SafeFail
    | HandlerReset                                  // exception handler: reset, then fail
    | HandlerFail
    | Done

  datatype Ended = Open | EndedWith(status: Status, ok: bool) | TimedOut

  /** `sent`, `final`, `finalSent`, `fixed`, `shrunk` and `failures` are history: what was sent since
      the last reset, what was stored (and sent) when the answer was completed, whether that was the
      fixed no-evidence answer, whether the shorter-content branch was taken since the last reset
      event, and the number of failed reads. */
  datatype State = State(
    store: Stored, status: Status, phase: Phase, sent: string,
    poller: Poller, seen: Status, ended: Ended,
    text: string, placed: string,
    final: string, finalSent: string, fixed: bool, finalAnswer: string,
    shrunk: bool, failures: nat)

  const INIT := State(Stored("", 0), Queued, Idle, "", Poller(0, 0, None), Queued, Open,
                      "", "", "", "", false, "", false, 0)

  datatype Outcome = Generated | NoEvidence(answer: string) | Unsafe

  datatype Step =
    | RequestRun
    | StartTask
    | Measure(token: string)
    | Push
    | FallBack
    | Finish(outcome: Outcome)
    | Advance
    | Raise
    | Stop
    | PollStatus
    | PollRead(ok: bool)
    | TimeOut

  function Cleared(s: State, phase: Phase): State {
    s.(store := Written(s.store, Reset), sent := "", phase := phase)
  }

  function Pushed(s: State, token: string, remaining: int, phase: Phase): State {
    s.(store := if remaining <= 0 || token == "" then s.store
                else s.store.(content := s.store.content + Sliced(token, remaining)),
       sent := s.sent + token, phase := phase)
  }

  /** The next effect of a finishing producer. */
  function Advanced(s: State): State {
    match s.phase
    case NoEvidenceReset(answer) => Cleared(s, NoEvidenceAppend(answer))
    case NoEvidenceAppend(answer) => s.(phase := NoEvidencePush(answer, Remaining(s.store.content)))
    case NoEvidencePush(answer, remaining) => Pushed(s, answer, remaining, Completing(true, answer))
    case Completing(fixed, answer) =>
      if s.status == Streaming
      then s.(status := Completed, phase := Done, final := s.store.content, finalSent := s.sent,
              fixed := fixed, finalAnswer := answer)
      else s.(phase := HandlerReset)
    case SafeReset => Cleared(s, SafeFail)
    case SafeFail =>
      if s.status == Queued || s.status == Streaming then s.(status := Failed, phase := Done)
      else s.(phase := HandlerReset)
    case HandlerReset => Cleared(s, HandlerFail)
    case HandlerFail =>
      if s.status == Queued || s.status == Streaming then s.(status := Failed, phase := Done)
      else s.(phase := Done)
    case _ => s
  }

  /** The poller reads the stream after the status, delivers events, and ends on a terminal status.
      A failed read yields ("", 0). Ending deletes the stream. */
  function PollReads(s: State, ok: bool): State {
    var polled := Poll(s.poller, if ok then s.store else Stored("", 0), s.seen);
    var after := s.(
      poller := polled.poller,
      text := ShowAll(s.text, polled.events),
      placed := PlaceAll(s.placed, polled.events),
      shrunk := polled.shrank || (s.shrunk && AnswerReset !in polled.events),
      failures := if ok then s.failures else s.failures + 1);
    if Terminal(s.seen) then after.(ended := EndedWith(s.seen, ok), store := Stored("", 0)) else after
  }

  function Do(s: State, step: Step): State {
    match step
    case RequestRun =>
      if s.phase.Idle? && s.status == Queued
      then s.(status := Streaming, phase := Spawned, store := Stored("", 0)) else s
    case StartTask =>
      if s.phase.Spawned? then s.(phase := if s.status == Streaming then Working else Done) else s
    case Measure(token) =>
      if s.phase.Working? then s.(phase := Measured(token, Remaining(s.store.content))) else s
    case Push =>
      if s.phase.Measured? then Pushed(s, s.phase.token, s.phase.remaining, Working) else s
    case FallBack => if s.phase.Working? then Cleared(s, Working) else s
    case Finish(outcome) =>
      if !s.phase.Working? then s
      else
        (match outcome
         case Generated => s.(phase := Completing(false, ""))
         case NoEvidence(answer) =>
           if |answer| <= STREAM_MAX_CHARS then s.(phase := NoEvidenceReset(answer)) else s
         case Unsafe => s.(phase := SafeReset))
    case Advance => Advanced(s)
    case Raise =>
      if s.phase.Idle? || s.phase.Spawned? || s.phase.Done? || s.phase.HandlerFail? then s
      else s.(phase := HandlerReset)
    case Stop => if s.status == Queued || s.status == Streaming then s.(status := Stopped) else s
    case PollStatus => if s.ended.Open? then s.(seen := s.status) else s
    case PollRead(ok) => if s.ended.Open? then PollReads(s, ok) else s
    case TimeOut => if s.ended.Open? then s.(ended := TimedOut, store := Stored("", 0)) else s
  }

  function Exec(steps: seq<Step>): State {
    if steps == [] then INIT else Do(Exec(steps[..|steps| - 1]), steps[|steps| - 1])
  }

  // ---------------------------------------------------------------- the invariant

  ghost predicate StoreInv(s: State) {
    && Buffers(s.store.content, s.sent)
    && (s.phase.Measured? || s.phase.NoEvidencePush? ==>
          s.phase.remaining == Remaining(s.store.content))
  }

  ghost predicate PhaseInv(s: State) {
    && (s.phase.Idle? || s.phase.Spawned? ==> s.store == Stored("", 0) && s.sent == "")
    && (s.phase.NoEvidenceReset? ==> |s.phase.answer| <= STREAM_MAX_CHARS)
    && (s.phase.NoEvidenceAppend? || s.phase.NoEvidencePush? ==>
          s.sent == "" && |s.phase.answer| <= STREAM_MAX_CHARS)
    && (s.phase.Completing? && s.phase.fixed ==> s.store.content == s.phase.answer)
    && (s.phase.SafeFail? || s.phase.HandlerFail? ==> s.sent == "")
    && (s.status == Failed ==> s.phase.Done? && s.sent == "")
    && (s.status == Completed ==>
          && s.phase.Done? && s.store.content == s.final && s.sent == s.finalSent
          && Buffers(s.final, s.finalSent)
          && (s.fixed ==> s.final == s.finalAnswer))
    && (Terminal(s.seen) ==> s.status == s.seen)
  }

  /** The client's text ends with the first `offset` characters of the content; anything before
      them is surplus, present exactly when `shrunk`. */
  ghost predicate Synced(p: Poller, content: string, text: string, placed: string, shrunk: bool) {
    && p.offset <= |placed| && placed <= content
    && p.offset <= |text| && text[|text| - p.offset..] == content[..p.offset]
    && (shrunk <==> p.offset < |text|)
  }

  ghost predicate ClientInv(s: State) {
    && s.poller.epoch <= s.store.epoch
    && (s.failures == 0 ==> !s.shrunk)
    && (s.poller.epoch == s.store.epoch ==>
          Synced(s.poller, s.store.content, s.text, s.placed, s.shrunk))
  }

  ghost predicate EndInv(s: State) {
    s.ended.EndedWith? && s.ended.ok ==>
      && (s.ended.status == Completed ==>
            && s.placed == s.final
            && (s.text == s.final <==> !s.shrunk)
            && Buffers(s.final, s.finalSent)
            && (s.fixed ==> s.final == s.finalAnswer))
      && (s.ended.status == Failed ==> s.placed == "" && (s.text == "" <==> !s.shrunk))
      && (s.failures == 0 ==> !s.shrunk)
      && s.status == s.ended.status && Terminal(s.status)
  }

  ghost predicate Inv(s: State) {
    && (s.ended.Open? ==> StoreInv(s) && PhaseInv(s) && ClientInv(s))
    && EndInv(s)
  }

  // ---------------------------------------------------------------- steps keep the invariant

  lemma PollDelivers(p: Poller, snapshot: Stored, status: Status, text: string, placed: string)
    ensures var polled := Poll(p, snapshot, status);
            var reset := snapshot.epoch != p.epoch;
            var offset := if reset then 0 else p.offset;
            var start := if polled.shrank then 0 else offset;
            && (AnswerReset in polled.events <==> reset)
            && ShowAll(text, polled.events) == (if reset then "" else text) + snapshot.content[start..]
            && PlaceAll(placed, polled.events) ==
               if |snapshot.content| > start
               then Cut(if reset then "" else placed, start) + snapshot.content[start..]
               else if reset then "" else placed
  {
    var polled := Poll(p, snapshot, status);
    var reset := snapshot.epoch != p.epoch;
    var offset := if reset then 0 else p.offset;
    var start := if polled.shrank then 0 else offset;
    var heads: seq<Event> := if reset then [AnswerReset] else [];
    var tokens: seq<Event> :=
      if |snapshot.content| > start then [AnswerToken(snapshot.content[start..], |snapshot.content|)] else [];
    var tails: seq<Event> := if Some(status) != p.previous then [GenerationStatus(status)] else [];
    ShowAllConcat(text, heads, tokens + tails);
    ShowAllConcat(ShowAll(text, heads), tokens, tails);
    assert heads + (tokens + tails) == polled.events;
    var shown, put := ShowAll(text, heads), PlaceAll(placed, heads);
    assert ShowAll(shown, tokens) == shown + snapshot.content[start..];
    assert |snapshot.content| > start ==>
        PlaceAll(put, tokens) == Cut(put, start) + snapshot.content[start..];
    PlaceAllConcat(placed, heads, tokens + tails);
    PlaceAllConcat(put, tokens, tails);
  }

  lemma {:induction false} ShowAllConcat(text: string, a: seq<Event>, b: seq<Event>)
    ensures ShowAll(text, a + b) == ShowAll(ShowAll(text, a), b)
    decreases |a|
  {
    if a == [] {
      assert a + b == b;
    } else {
      assert (a + b)[1..] == a[1..] + b;
      ShowAllConcat(Show(text, a[0]), a[1..], b);
    }
  }

  lemma {:induction false} PlaceAllConcat(text: string, a: seq<Event>, b: seq<Event>)
    ensures PlaceAll(text, a + b) == PlaceAll(PlaceAll(text, a), b)
    decreases |a|
  {
    if a == [] {
      assert a + b == b;
    } else {
      assert (a + b)[1..] == a[1..] + b;
      PlaceAllConcat(Place(text, a[0]), a[1..], b);
    }
  }

  lemma SuffixGrows(text: string, content: string, offset: nat)
    requires offset <= |text| && offset <= |content|
    requires text[|text| - offset..] == content[..offset]
    ensures var grown := text + content[offset..];
            |grown| == |text| - offset + |content| && grown[|text| - offset..] == content
  {
    var extra := text[..|text| - offset];
    assert text == extra + content[..offset];
    assert content == content[..offset] + content[offset..];
    assert text + content[offset..] == extra + content;
  }

  lemma SyncedGrows(p: Poller, q: Poller, content: string, text: string, placed: string, shrunk: bool)
    requires Synced(p, content, text, placed, shrunk) && q.offset == |content|
    ensures Synced(q, content, text + content[p.offset..], content, shrunk)
    ensures (if |content| > p.offset then Cut(placed, p.offset) + content[p.offset..] else placed) == content
  {
    SuffixGrows(text, content, p.offset);
    assert content[..p.offset] + content[p.offset..] == content;
  }

  lemma SyncedPoll(p: Poller, store: Stored, status: Status, text: string, placed: string, shrunk: bool)
    requires p.epoch == store.epoch ==> Synced(p, store.content, text, placed, shrunk)
    ensures var polled := Poll(p, store, status);
            var text' := ShowAll(text, polled.events);
            var shrunk' := shrunk && AnswerReset !in polled.events;
            && !polled.shrank
            && PlaceAll(placed, polled.events) == store.content
            && Synced(polled.poller, store.content, text', store.content, shrunk')
  {
    PollDelivers(p, store, status, text, placed);
    var polled := Poll(p, store, status);
    if p.epoch == store.epoch {
      SyncedGrows(p, polled.poller, store.content, text, placed, shrunk);
    } else {
      SyncedGrows(Poller(0, 0, None), polled.poller, store.content, "", "", false);
    }
  }

  /** The heart of the protocol. A successful read leaves the offset-using client with exactly the
      content read; the appending client has it too unless the shorter-content branch was taken
      since the last reset, in which case it shows too much. */
  lemma SuccessfulRead(s: State)
    requires s.ended.Open? && Inv(s)
    ensures var t := PollReads(s, true);
            && t.placed == s.store.content
            && (t.text == s.store.content <==> !t.shrunk)
            && (t.shrunk ==> |t.text| > |s.store.content|)
            && (s.failures == 0 ==> !t.shrunk)
            && !Poll(s.poller, s.store, s.seen).shrank
            && (t.ended.Open? ==> ClientInv(t))
  {
    SyncedPoll(s.poller, s.store, s.seen, s.text, s.placed, s.shrunk);
    var text', content := PollReads(s, true).text, s.store.content;
    if |text'| == |content| {
      assert text'[0..] == text' && content[..|content|] == content;
    }
  }

  /** A failed read looks like an empty stream of epoch 0. */
  lemma FailedReadShows(s: State)
    requires s.ended.Open?
    ensures var t := PollReads(s, false);
            && t.poller.offset == 0 && t.poller.epoch == 0
            && t.text == (if s.poller.epoch == 0 then s.text else "")
            && t.placed == (if s.poller.epoch == 0 then s.placed else "")
            && t.shrunk == (s.poller.epoch == 0 && (s.shrunk || s.poller.offset > 0))
            && t.failures == s.failures + 1
  {
    PollDelivers(s.poller, Stored("", 0), s.seen, s.text, s.placed);
    assert s.text + "" == s.text && "" + "" == "";
  }

  lemma FailedReadKeepsClient(s: State, t: State)
    requires ClientInv(s) && t.store == s.store && t.poller.offset == 0 && t.poller.epoch == 0
    requires t.text == (if s.poller.epoch == 0 then s.text else "")
    requires t.placed == (if s.poller.epoch == 0 then s.placed else "")
    requires t.shrunk == (s.poller.epoch == 0 && (s.shrunk || s.poller.offset > 0))
    requires t.failures == s.failures + 1
    ensures ClientInv(t)
  {
    if t.store.epoch == 0 {
      assert s.poller.epoch == 0;
    }
  }

  /** `t` is `s` after a poll changed the poller and the client. */
  ghost predicate OnlyRead(s: State, t: State) {
    t == s.(poller := t.poller, text := t.text, placed := t.placed, shrunk := t.shrunk, failures := t.failures,
            ended := t.ended, store := t.store)
  }

  lemma OpenReadKeepsInv(s: State, t: State)
    requires s.ended.Open? && Inv(s) && OnlyRead(s, t) && t.ended.Open? && t.store == s.store && ClientInv(t)
    ensures Inv(t)
  {
  }

  lemma LastReadKeepsInv(s: State, t: State, ok: bool)
    requires s.ended.Open? && Inv(s) && OnlyRead(s, t) && Terminal(s.seen) && t.ended == EndedWith(s.seen, ok)
    requires ok ==> t.placed == s.store.content && (t.text == s.store.content <==> !t.shrunk)
    requires ok ==> t.failures == s.failures && (s.failures == 0 ==> !t.shrunk)
    ensures Inv(t)
  {
  }

  lemma ReadFrame(s: State, ok: bool)
    requires s.ended.Open?
    ensures var t := PollReads(s, ok);
            && OnlyRead(s, t) && (ok ==> t.failures == s.failures)
            && (Terminal(s.seen) ==> t.ended == EndedWith(s.seen, ok))
            && (!Terminal(s.seen) ==> t.ended.Open? && t.store == s.store)
  {
  }

  lemma ReadKeepsInv(s: State, ok: bool)
    requires s.ended.Open? && Inv(s)
    ensures Inv(PollReads(s, ok))
  {
    ReadFrame(s, ok);
    if ok {
      SuccessfulRead(s);
    } else {
      FailedReadShows(s);
    }
    if Terminal(s.seen) {
      LastReadKeepsInv(s, PollReads(s, ok), ok);
    } else {
      if !ok {
        FailedReadKeepsClient(s, PollReads(s, ok));
      }
      OpenReadKeepsInv(s, PollReads(s, ok));
    }
  }

  /** Appending leaves the client where it was: what it shows is still the beginning of the content. */
  lemma GrowthKeepsClient(s: State, t: State)
    requires ClientInv(s) && t == s.(store := t.store, sent := t.sent, phase := t.phase)
    requires t.store.epoch == s.store.epoch && s.store.content <= t.store.content
    ensures ClientInv(t)
  {
  }

  lemma PushedContent(s: State, token: string, remaining: int, phase: Phase)
    requires Buffers(s.store.content, s.sent) && remaining == Remaining(s.store.content)
    ensures var t := Pushed(s, token, remaining, phase);
            && t == s.(store := t.store, sent := s.sent + token, phase := phase) && t.store.epoch == s.store.epoch
            && s.store.content <= t.store.content && Buffers(t.store.content, t.sent)
            && (s.store.content == "" && |token| <= STREAM_MAX_CHARS ==> t.store.content == token)
  {
    AppendBuffers(s.store.content, s.sent, token);
  }

  lemma PushKeepsInv(s: State, token: string, remaining: int, phase: Phase)
    requires Inv(s) && s.ended.Open? && remaining == Remaining(s.store.content)
    requires s.status != Failed && s.status != Completed
    requires phase.Working? || (phase == Completing(true, token) && s.sent == "" && |token| <= STREAM_MAX_CHARS)
    ensures Inv(Pushed(s, token, remaining, phase))
  {
    PushedContent(s, token, remaining, phase);
    var t := Pushed(s, token, remaining, phase);
    GrowthKeepsClient(s, t);
    PushedPhase(s, t, token);
  }

  lemma PushedPhase(s: State, t: State, token: string)
    requires Inv(s) && s.ended.Open? && s.status != Failed && s.status != Completed
    requires t == s.(store := t.store, sent := s.sent + token, phase := t.phase) && Buffers(t.store.content, t.sent)
    requires t.phase.Working? || (t.phase == Completing(true, token) && t.store.content == token)
    ensures StoreInv(t) && PhaseInv(t)
  {
  }

  lemma ClearKeepsInv(s: State, phase: Phase)
    requires Inv(s) && s.status != Failed && s.status != Completed
    requires phase.Working? || phase.SafeFail? || phase.HandlerFail? ||
             (phase.NoEvidenceAppend? && |phase.answer| <= STREAM_MAX_CHARS)
    ensures Inv(Cleared(s, phase))
  {
  }

  /** Steps that move only the phase or the status, leaving store, poller and client alone. */
  lemma RelabelKeepsInv(s: State, t: State)
    requires Inv(s)
    requires t == s.(phase := t.phase, status := t.status, seen := t.seen, final := t.final,
                     finalSent := t.finalSent, fixed := t.fixed, finalAnswer := t.finalAnswer)
    requires s.ended.Open? ==> PhaseInv(t)
    requires s.ended.Open? && (t.phase.Measured? || t.phase.NoEvidencePush?) ==>
               t.phase.remaining == Remaining(s.store.content)
    requires !s.ended.Open? && Terminal(s.status) ==>
               t.(phase := s.phase, seen := s.seen) == s
    ensures Inv(t)
  {
  }

  lemma CompletionKeepsInv(s: State)
    requires Inv(s) && s.phase.Completing?
    ensures Inv(Advanced(s))
  {
    RelabelKeepsInv(s, Advanced(s));
  }

  lemma SettleKeepsInv(s: State)
    requires Inv(s)
    requires s.phase.NoEvidenceAppend? || s.phase.SafeFail? || s.phase.HandlerFail?
    ensures Inv(Advanced(s))
  {
    RelabelKeepsInv(s, Advanced(s));
  }

  lemma AdvanceKeepsInv(s: State)
    requires Inv(s)
    ensures Inv(Advanced(s))
  {
    match s.phase
    case NoEvidenceReset(answer) => if s.ended.Open? { ClearKeepsInv(s, NoEvidenceAppend(answer)); }
    case NoEvidencePush(answer, remaining) =>
      if s.ended.Open? { PushKeepsInv(s, answer, remaining, Completing(true, answer)); }
    case SafeReset => if s.ended.Open? { ClearKeepsInv(s, SafeFail); }
    case HandlerReset => if s.ended.Open? { ClearKeepsInv(s, HandlerFail); }
    case NoEvidenceAppend(_) => SettleKeepsInv(s);
    case Completing(_, _) => CompletionKeepsInv(s);
    case SafeFail => SettleKeepsInv(s);
    case HandlerFail => SettleKeepsInv(s);
    case _ =>
  }

  lemma TaskStepKeepsInv(s: State, step: Step)
    requires Inv(s) && (step.StartTask? || step.Measure?)
    ensures Inv(Do(s, step))
  {
    RelabelKeepsInv(s, Do(s, step));
  }

  lemma FinishKeepsInv(s: State, outcome: Outcome)
    requires Inv(s)
    ensures Inv(Do(s, Finish(outcome)))
  {
    RelabelKeepsInv(s, Do(s, Finish(outcome)));
  }

  lemma SignalKeepsInv(s: State, step: Step)
    requires Inv(s) && (step.Raise? || step.Stop? || step.PollStatus?)
    ensures Inv(Do(s, step))
  {
    RelabelKeepsInv(s, Do(s, step));
  }

  lemma StepKeepsInv(s: State, step: Step)
    requires Inv(s)
    ensures Inv(Do(s, step))
  {
    match step
    case PollRead(ok) => if s.ended.Open? { ReadKeepsInv(s, ok); }
    case Advance => AdvanceKeepsInv(s);
    case Push =>
      if s.ended.Open? && s.phase.Measured? {
        PushKeepsInv(s, s.phase.token, s.phase.remaining, Working);
      }
    case FallBack => if s.ended.Open? && s.phase.Working? { ClearKeepsInv(s, Working); }
    case RequestRun =>
    case TimeOut =>
    case StartTask => TaskStepKeepsInv(s, step);
    case Measure(_) => TaskStepKeepsInv(s, step);
    case Finish(outcome) => FinishKeepsInv(s, outcome);
    case _ => SignalKeepsInv(s, step);
  }

  lemma {:induction false} EveryRunKeepsInv(steps: seq<Step>)
    ensures Inv(Exec(steps))
  {
    if steps != [] {
      EveryRunKeepsInv(steps[..|steps| - 1]);
      StepKeepsInv(Exec(steps[..|steps| - 1]), steps[|steps| - 1]);
    }
  }

  // ---------------------------------------------------------------- what every run guarantees

  lemma OpenPoll(s: State)
    requires s.ended.Open? && Inv(s)
    ensures var t := Do(s, PollRead(true));
            && t.placed == s.store.content
            && (t.text == s.store.content <==> !t.shrunk)
            && (s.failures == 0 ==> t.text == s.store.content)
            && !Poll(s.poller, s.store, s.seen).shrank
  {
    SuccessfulRead(s);
  }

  /** After any interleaving, a successful poll leaves the offset-using client with exactly the
      content read, whatever reads failed before and in whatever epoch. The appending client has it
      exactly when the shorter-content branch was not taken since the last reset event; with no
      failed read in the run that branch is never taken. */
  lemma EveryPollShowsContent(steps: seq<Step>)
    requires Exec(steps).ended.Open?
    ensures var s, t := Exec(steps), Exec(steps + [PollRead(true)]);
            && t.placed == s.store.content
            && (t.text == s.store.content <==> !t.shrunk)
            && (s.failures == 0 ==> t.text == s.store.content)
            && !Poll(s.poller, s.store, s.seen).shrank
  {
    EveryRunKeepsInv(steps);
    ExecLast(steps, PollRead(true));
    OpenPoll(Exec(steps));
  }

  /** Between polls the appending client shows a prefix of the stored content, unless the epoch has
      moved or a failed read made it stale. */
  lemma BetweenPollsTextIsPrefix(steps: seq<Step>)
    requires Exec(steps).ended.Open? && Exec(steps).failures == 0
    requires Exec(steps).poller.epoch == Exec(steps).store.epoch
    ensures Exec(steps).text <= Exec(steps).store.content
  {
    EveryRunKeepsInv(steps);
    var s := Exec(steps);
    assert s.text[0..] == s.text;
  }

  /** A stream that ended COMPLETED shows everything stored when the answer was completed: the
      bounded prefix of all tokens of the last epoch, and the whole fixed answer on the no-evidence
      path. A stream that ended FAILED shows nothing. */
  lemma EndedStreamShowsFinalContent(steps: seq<Step>)
    requires Exec(steps).ended.EndedWith? && Exec(steps).ended.ok
    ensures var s := Exec(steps);
            && (s.ended.status == Completed ==>
                  && s.placed == s.final && Buffers(s.final, s.finalSent)
                  && (s.failures == 0 ==> s.text == s.final)
                  && (s.fixed ==> s.final == s.finalAnswer))
            && (s.ended.status == Failed ==> s.placed == "" && (s.failures == 0 ==> s.text == ""))
  {
    EveryRunKeepsInv(steps);
  }

  /** What one failed read does to the appending browser client: after the next successful read it
      shows the content exactly unless the failure hit a poller that had already delivered something
      in epoch 0 and the stream is still in that epoch, since no reset event separates the two
      deliveries. The offset-using client is right in every case. */
  lemma FailedReadDuplicatesExactlyInEpochZero(steps: seq<Step>)
    requires Exec(steps).ended.Open? && Exec(steps).failures == 0 && !Terminal(Exec(steps).seen)
    ensures var s, t := Exec(steps), Exec(steps + [PollRead(false)] + [PollRead(true)]);
            && t.placed == s.store.content
            && (t.text == s.store.content <==>
                  !(s.poller.epoch == 0 && s.poller.offset > 0 && s.store.epoch == 0))
  {
    var s := Exec(steps);
    var failing := steps + [PollRead(false)];
    EveryRunKeepsInv(steps);
    assert failing[..|steps|] == steps;
    assert (failing + [PollRead(true)])[..|failing|] == failing;
    EveryPollShowsContent(failing);
    PollDelivers(s.poller, Stored("", 0), s.seen, s.text, s.placed);
    var m := PollReads(s, false);
    assert m.shrunk <==> s.poller.epoch == 0 && s.poller.offset > 0;
    PollDelivers(m.poller, m.store, m.seen, m.text, m.placed);
  }

  lemma ExecLast(steps: seq<Step>, step: Step)
    ensures Exec(steps + [step]) == Do(Exec(steps), step)
  {
    assert (steps + [step])[..|steps|] == steps;
  }

  /** The exceptional case above does happen. */
  lemma EpochZeroDeliveryHappens()
    ensures var s := Exec([] + [RequestRun] + [StartTask] + [Measure("ab")] + [Push] + [PollRead(true)]);
            s.ended.Open? && s.failures == 0 && !Terminal(s.seen) &&
            s.poller.epoch == 0 && s.poller.offset > 0 && s.store.epoch == 0
  {
    ExecLast([], RequestRun);
    ExecLast([] + [RequestRun], StartTask);
    ExecLast([] + [RequestRun] + [StartTask], Measure("ab"));
    ExecLast([] + [RequestRun] + [StartTask] + [Measure("ab")], Push);
    ExecLast([] + [RequestRun] + [StartTask] + [Measure("ab")] + [Push], PollRead(true));
    assert Exec([]) == INIT;
    assert ByteLength("") == 0;
  }
}
