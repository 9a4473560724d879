/** The stream that explains a scan batch by batch and ends with the merged result. */
module BatchStream {
  import opened Options
  import opened Elements
  import opened BatchMerge
  import StableSort

  datatype Event =
    | Generating(batch: nat, batches: nat, completed: nat, total: nat)
    | BatchCompleted(batch: nat, batches: nat, completed: nat, total: nat)
    | Failed
    | Completed(result: Merged)

  /** `None`: the request for the batch failed. */
  predicate Succeeded(outcome: Option<Batch>) {
    outcome.Some? && outcome.value.generated
  }

  /** What is reported while the first `n` batches are generated. */
  ghost function Reported<I>(parts: seq<seq<I>>, total: nat, n: nat): (events: seq<Event>)
    requires n <= |parts|
    ensures |events| == 2 * n
  {
    if n == 0 then []
    else Reported(parts, total, n - 1) + [
           Generating(n, |parts|, |Flatten(parts[..n - 1])|, total),
           BatchCompleted(n, |parts|, |Flatten(parts[..n])|, total)]
  }

  ghost function Values(outcomes: seq<Option<Batch>>): seq<Batch>
    requires forall i :: 0 <= i < |outcomes| ==> Succeeded(outcomes[i])
  {
    seq(|outcomes|, i requires 0 <= i < |outcomes| && Succeeded(outcomes[i]) => outcomes[i].value)
  }

  /** The loop over the batches: it stops at the first one that was not generated, and merges when all
      were. The reported numbers count the inputs of the batches done. */
  method ExplainInBatches<I>(inputs: seq<I>, parts: seq<seq<I>>, outcomes: seq<Option<Batch>>)
    returns (events: seq<Event>, generated: nat)
    requires Flatten(parts) == inputs && |outcomes| == |parts|
    ensures generated <= |parts| && forall b :: 0 <= b < generated ==> Succeeded(outcomes[b])
    ensures generated < |parts| ==>
              && !Succeeded(outcomes[generated])
              && events == Reported(parts, |inputs|, generated)
                         + [Generating(generated + 1, |parts|, |Flatten(parts[..generated])|, |inputs|), Failed]
    ensures generated == |parts| ==>
              events == Reported(parts, |inputs|, |parts|)
                      + [if Mergeable(Values(outcomes)) then Completed(Combined(Values(outcomes))) else Failed]
  {
    events, generated := [], 0;
    var results: seq<Batch> := [];
    var completed := 0;
    while generated < |parts|
      invariant generated <= |parts| && forall b :: 0 <= b < generated ==> Succeeded(outcomes[b])
      invariant results == Values(outcomes[..generated]) && completed == |Flatten(parts[..generated])|
      invariant events == Reported(parts, |inputs|, generated)
    {
      ghost var before := events;
      events := events + [Generating(generated + 1, |parts|, completed, |inputs|)];
      if !Succeeded(outcomes[generated]) {
        events := events + [Failed];
        assert events == before + [Generating(generated + 1, |parts|, completed, |inputs|), Failed];
        return;
      }
      results := results + [outcomes[generated].value];
      NextCount(parts, generated);
      completed := completed + |parts[generated]|;
      generated := generated + 1;
      events := events + [BatchCompleted(generated, |parts|, completed, |inputs|)];
      assert events == before + [Generating(generated, |parts|, |Flatten(parts[..generated - 1])|, |inputs|),
                                 BatchCompleted(generated, |parts|, completed, |inputs|)];
    }
    assert outcomes[..generated] == outcomes;
    var merged := Merge(results);
    events := events + [if merged.Some? then Completed(merged.value) else Failed];
  }

  lemma NextCount<I>(parts: seq<seq<I>>, n: nat)
    requires n < |parts|
    ensures |Flatten(parts[..n + 1])| == |Flatten(parts[..n])| + |parts[n]|
  {
    FlattenSnoc(parts[..n], parts[n]);
    assert parts[..n] + [parts[n]] == parts[..n + 1];
  }

  // ---------------------------------------------------------------- the result explains every input

  function Ids(controls: seq<string>): (ids: seq<Option<string>>)
    ensures |ids| == |controls| && forall i :: 0 <= i < |ids| ==> ids[i] == Some(controls[i])
  {
    seq(|controls|, i requires 0 <= i < |controls| => Some(controls[i]))
  }

  /** A batch has one item for every control of its part. */
  ghost predicate Explains(batch: Batch, part: seq<string>) {
    multiset(Controls(Items(batch))) == multiset(Ids(part))
  }

  lemma PartsAppend(a: seq<Entry>, b: seq<Entry>, x: seq<string>, y: seq<string>)
    requires multiset(Controls(a)) == multiset(Ids(x)) && multiset(Controls(b)) == multiset(Ids(y))
    ensures multiset(Controls(a + b)) == multiset(Ids(x + y))
  {
    assert Controls(a + b) == Controls(a) + Controls(b);
    assert Ids(x + y) == Ids(x) + Ids(y);
  }

  lemma {:induction false} ItemsCoverParts(batches: seq<Batch>, parts: seq<seq<string>>)
    requires |batches| == |parts| && forall i :: 0 <= i < |parts| ==> Explains(batches[i], parts[i])
    ensures multiset(Controls(Gather(batches, Items))) == multiset(Ids(Flatten(parts)))
  {
    if batches != [] {
      var n := |batches| - 1;
      ItemsCoverParts(batches[..n], parts[..n]);
      assert Explains(batches[n], parts[n]);
      PartsAppend(Gather(batches[..n], Items), Items(batches[n]), Flatten(parts[..n]), parts[n]);
    } else {
      assert Controls([]) == Ids([]);
    }
  }

  lemma ControlsAround(before: seq<Entry>, e: Entry, after: seq<Entry>)
    ensures multiset(Controls(before + [e] + after)) == multiset(Controls(before + after)) + multiset{e.control}
  {
    assert Controls(before + [e] + after) == Controls(before) + [e.control] + Controls(after);
    assert Controls(before + after) == Controls(before) + Controls(after);
  }

  lemma Without(b: seq<Entry>, e: Entry) returns (rest: seq<Entry>)
    requires e in b
    ensures multiset(rest) == multiset(b) - multiset{e}
    ensures multiset(Controls(b)) == multiset(Controls(rest)) + multiset{e.control}
  {
    var k :| 0 <= k < |b| && b[k] == e;
    rest := b[..k] + b[k + 1..];
    assert b == b[..k] + [e] + b[k + 1..];
    ControlsAround(b[..k], e, b[k + 1..]);
  }

  lemma LastControl(a: seq<Entry>)
    requires a != []
    ensures multiset(Controls(a)) == multiset(Controls(a[..|a| - 1])) + multiset{a[|a| - 1].control}
  {
    var n := |a| - 1;
    assert Controls(a) == Controls(a[..n]) + [a[n].control];
  }

  lemma {:induction false} SameControlMultiset(a: seq<Entry>, b: seq<Entry>)
    requires multiset(a) == multiset(b)
    ensures multiset(Controls(a)) == multiset(Controls(b))
  {
    StableSort.SameElements(a, b);
    if a != [] {
      var n := |a| - 1;
      StableSort.DropLast(a);
      var rest := Without(b, a[n]);
      SameControlMultiset(a[..n], rest);
      LastControl(a);
    }
  }

  /** Different inputs whose batches each explain their own part always pass the duplicate check, and the
      merged items are exactly one for every input, in the order of the control ids. */
  lemma EveryInputIsExplainedOnce(inputs: seq<string>, parts: seq<seq<string>>, batches: seq<Batch>)
    requires Flatten(parts) == inputs && Distinct(inputs) && |batches| == |parts|
    requires forall i :: 0 <= i < |parts| ==> Explains(batches[i], parts[i])
    ensures OneControlEach(Gather(batches, Items)) && Controlled(Gather(batches, Items))
    ensures batches != [] ==>
              && multiset(Controls(Combined(batches).items)) == multiset(Ids(inputs))
              && StableSort.Sorted(Combined(batches).items, ByControl)
  {
    var items := Gather(batches, Items);
    ItemsCoverParts(batches, parts);
    StableSort.SameElements(Controls(items), Ids(inputs));
    forall i | 0 <= i < |items| ensures items[i].control.Some? {
      assert Controls(items)[i] in Ids(inputs);
    }
    DistinctCount(Ids(inputs));
    ElementsAreMembers(Ids(inputs));
    ElementsAreMembers(Controls(items));
    assert ElementSet(Controls(items)) == ElementSet(Ids(inputs));
    CountDecidesOneEach(items);
    if batches != [] {
      SortKeepsAll(items);
      SameControlMultiset(Combined(batches).items, items);
    }
  }
}
