/** The PostgreSQL rows of one recovery job and the transactions that change them: an outbox event,
    its workflow step, the executions of that step and the results under its idempotency key. */
module OutboxTables {
  import opened Options

  datatype EventStatus = Pending | Published | RetryPending

  datatype StepStatus = DispatchPending | Queued | Running | Succeeded

  datatype ExecutionStatus = InProgress | WorkerLost | Created | ReturnedExisting

  datatype Execution = Execution(attemptNo: nat, delivery: nat, status: ExecutionStatus)

  /** `results` lists, for each result row under the step's key, the execution that inserted it. */
  datatype Tables = Tables(
    event: EventStatus, publishAttempts: nat,
    step: StepStatus, attemptCount: nat,
    executions: seq<Execution>, results: seq<nat>)

  const PREPARED := Tables(Pending, 0, DispatchPending, 0, [], [])

  predicate Publishable(t: Tables) {
    t.event == Pending || t.event == RetryPending
  }

  /** `None`: the transaction raised and was rolled back. */
  function RecordAttempt(t: Tables): Option<Tables> {
    if Publishable(t) then Some(t.(event := Pending, publishAttempts := t.publishAttempts + 1)) else None
  }

  /** Also puts the step back to QUEUED, whatever it was. */
  function MarkPublished(t: Tables): Option<Tables> {
    if Publishable(t) then Some(t.(event := Published, step := Queued)) else None
  }

  function MarkRetryPending(t: Tables): Option<Tables> {
    if t.event == Pending then Some(t.(event := RetryPending)) else None
  }

  function Abandoned(e: Execution): Execution {
    if e.status == InProgress then e.(status := WorkerLost) else e
  }

  /** Closes abandoned executions, then opens one for this delivery. */
  function BeginAttempt(t: Tables, delivery: nat): Tables {
    var found := t.results != [];
    var newest := Execution(t.attemptCount + 1, delivery, if found then ReturnedExisting else InProgress);
    t.(executions := seq(|t.executions|, i requires 0 <= i < |t.executions| => Abandoned(t.executions[i])) + [newest],
       attemptCount := t.attemptCount + 1,
       step := if found then Succeeded else Running)
  }

  /** Inserts the result unless one exists; refuses an execution that is no longer in progress. */
  function CompleteAttempt(t: Tables, k: nat): Option<Tables> {
    if k >= |t.executions| || t.executions[k].status != InProgress then None
    else
      var inserted := t.results == [];
      var status := if inserted then Created else ReturnedExisting;
      Some(t.(results := if inserted then [k] else t.results,
              executions := t.executions[k := t.executions[k].(status := status)],
              step := Succeeded))
  }

  /** The same rows as mutable state; each method is one committed transaction. */
  class Database {
    var event: EventStatus
    var publishAttempts: nat
    var step: StepStatus
    var attemptCount: nat
    var executions: seq<Execution>
    var results: seq<nat>

    ghost function Rows(): Tables
      reads this
    {
      Tables(event, publishAttempts, step, attemptCount, executions, results)
    }

    constructor Prepare()
      ensures Rows() == PREPARED
    {
      event, publishAttempts, step, attemptCount := Pending, 0, DispatchPending, 0;
      executions, results := [], [];
    }

    method RecordPublishAttempt() returns (ok: bool)
      modifies this
      ensures ok == RecordAttempt(old(Rows())).Some?
      ensures ok <==> old(event) != Published
      ensures ok ==> Rows() == old(Rows()).(event := Pending, publishAttempts := old(publishAttempts) + 1)
      ensures Rows() == if ok then RecordAttempt(old(Rows())).value else old(Rows())
    {
      ok := event == Pending || event == RetryPending;
      if ok {
        event, publishAttempts := Pending, publishAttempts + 1;
      }
    }

    method MarkEventPublished() returns (ok: bool)
      modifies this
      ensures ok == MarkPublished(old(Rows())).Some?
      ensures ok <==> old(event) != Published
      ensures ok ==> Rows() == old(Rows()).(event := Published, step := Queued)
      ensures Rows() == if ok then MarkPublished(old(Rows())).value else old(Rows())
    {
      ok := event == Pending || event == RetryPending;
      if ok {
        event := Published;
        step := Queued;
      }
    }

    method MarkEventRetryPending() returns (ok: bool)
      modifies this
      ensures ok == MarkRetryPending(old(Rows())).Some?
      ensures ok <==> old(event) == Pending
      ensures ok ==> Rows() == old(Rows()).(event := RetryPending)
      ensures Rows() == if ok then MarkRetryPending(old(Rows())).value else old(Rows())
    {
      ok := event == Pending;
      if ok {
        event := RetryPending;
      }
    }

    method BeginRecoveryAttempt(delivery: nat) returns (execution: nat, found: bool)
      modifies this
      ensures Rows() == BeginAttempt(old(Rows()), delivery)
      ensures execution == |old(executions)| && found == (results != [])
    {
      var closed: seq<Execution> := [];
      for i := 0 to |executions|
        invariant |closed| == i
        invariant forall j :: 0 <= j < i ==> closed[j] == Abandoned(executions[j])
        invariant Rows() == old(Rows())
      {
        var row := executions[i];
        closed := closed + [if row.status == InProgress then row.(status := WorkerLost) else row];
      }
      found := results != [];
      execution := |executions|;
      attemptCount := attemptCount + 1;
      executions := closed + [Execution(attemptCount, delivery, if found then ReturnedExisting else InProgress)];
      step := if found then Succeeded else Running;
    }

    method CompleteRecoveryAttempt(execution: nat) returns (ok: bool)
      modifies this
      ensures ok == CompleteAttempt(old(Rows()), execution).Some?
      ensures Rows() == if ok then CompleteAttempt(old(Rows()), execution).value else old(Rows())
    {
      ok := execution < |executions| && executions[execution].status == InProgress;
      if ok {
        var inserted := results == [];
        if inserted {
          results := [execution];
        }
        var status := if inserted then Created else ReturnedExisting;
        executions := executions[execution := executions[execution].(status := status)];
        step := Succeeded;
      }
    }
  }
}
