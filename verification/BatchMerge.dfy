/** Splitting a scan into batches for the model and merging the generated batches again. */
module BatchMerge {
  import opened Options
  import opened Elements
  import opened StableUnique
  import StableSort

  // ---------------------------------------------------------------- splitting

  /** `configured` is the parsed setting, `None` when it is not a number. */
  function BatchSize(configured: Option<int>): (n: nat)
    ensures 1 <= n <= 6
    ensures configured.Some? && 1 <= configured.value <= 6 ==> n == configured.value
    ensures configured.None? ==> n == 6
    ensures configured.Some? && configured.value < 1 ==> n == 1
    ensures configured.Some? && configured.value > 6 ==> n == 6
  {
    match configured
    case None => 6
    case Some(k) => if k < 1 then 1 else if k > 6 then 6 else k
  }

  /** Python's `xs[from:to]`. */
  function Slice<T>(xs: seq<T>, from: nat, to: nat): seq<T>
    requires from <= to
  {
    if from >= |xs| then [] else if to >= |xs| then xs[from..] else xs[from..to]
  }

  /** Where batch number `b` starts. */
  ghost function StartOf(b: nat, size: nat): nat {
    if b == 0 then 0 else StartOf(b - 1, size) + size
  }

  lemma {:induction false} StartIsMultiple(b: nat, size: nat)
    ensures StartOf(b, size) == b * size
  {
    if b > 0 {
      StartIsMultiple(b - 1, size);
      assert b * size == (b - 1) * size + size;
    }
  }

  /** A batch holds what stands at `size` positions from `start` of the inputs and of the evidence. */
  ghost predicate Aligned<I, E>(
    inputs: seq<I>, evidence: seq<E>, size: nat, start: nat, batch: seq<I>, attached: seq<E>)
  {
    && 1 <= |batch| <= size
    && batch == Slice(inputs, start, start + size)
    && attached == Slice(evidence, start, start + size)
  }

  method Split<I, E>(inputs: seq<I>, evidence: seq<E>, size: nat)
    returns (batches: seq<seq<I>>, attached: seq<seq<E>>)
    requires size > 0
    ensures |batches| == |attached| && Flatten(batches) == inputs
    ensures |evidence| == |inputs| ==> Flatten(attached) == evidence
    ensures AllAligned(inputs, evidence, size, batches, attached)
  {
    batches, attached := [], [];
    var start := 0;
    while start < |inputs|
      invariant SplitUpTo(inputs, evidence, size, batches, attached, start)
    {
      var batch, evidenceBatch := Slice(inputs, start, start + size), Slice(evidence, start, start + size);
      NextBatch(inputs, evidence, size, batches, attached, start);
      batches := batches + [batch];
      attached := attached + [evidenceBatch];
      start := start + size;
    }
  }

  /** Every batch is aligned with the inputs and the evidence. */
  ghost predicate AllAligned<I, E>(
    inputs: seq<I>, evidence: seq<E>, size: nat, batches: seq<seq<I>>, attached: seq<seq<E>>)
    requires |batches| == |attached|
  {
    forall b :: 0 <= b < |batches| ==>
      Aligned(inputs, evidence, size, StartOf(b, size), batches[b], attached[b])
  }

  /** The positions before `start` are split. */
  ghost predicate SplitUpTo<I, E>(
    inputs: seq<I>, evidence: seq<E>, size: nat, batches: seq<seq<I>>, attached: seq<seq<E>>, start: nat)
  {
    && start == StartOf(|batches|, size) && |attached| == |batches|
    && Flatten(batches) == Slice(inputs, 0, start)
    && Flatten(attached) == Slice(evidence, 0, start)
    && AllAligned(inputs, evidence, size, batches, attached)
  }

  lemma AddAligned<I, E>(
    inputs: seq<I>, evidence: seq<E>, size: nat, batches: seq<seq<I>>, attached: seq<seq<E>>,
    batch: seq<I>, evidenceBatch: seq<E>)
    requires |batches| == |attached| && AllAligned(inputs, evidence, size, batches, attached)
    requires Aligned(inputs, evidence, size, StartOf(|batches|, size), batch, evidenceBatch)
    ensures AllAligned(inputs, evidence, size, batches + [batch], attached + [evidenceBatch])
  {
  }

  lemma BatchIsAligned<I, E>(inputs: seq<I>, evidence: seq<E>, size: nat, start: nat)
    requires size > 0 && start < |inputs|
    ensures Aligned(inputs, evidence, size, start, Slice(inputs, start, start + size),
                    Slice(evidence, start, start + size))
  {
  }

  lemma NextBatch<I, E>(
    inputs: seq<I>, evidence: seq<E>, size: nat, batches: seq<seq<I>>, attached: seq<seq<E>>, start: nat)
    requires size > 0 && start < |inputs| && SplitUpTo(inputs, evidence, size, batches, attached, start)
    ensures SplitUpTo(inputs, evidence, size, batches + [Slice(inputs, start, start + size)],
                      attached + [Slice(evidence, start, start + size)], start + size)
  {
    BatchIsAligned(inputs, evidence, size, start);
    AddAligned(inputs, evidence, size, batches, attached,
               Slice(inputs, start, start + size), Slice(evidence, start, start + size));
    NextPart(inputs, batches, start, size);
    NextPart(evidence, attached, start, size);
  }

  lemma NextPart<T>(xs: seq<T>, parts: seq<seq<T>>, start: nat, size: nat)
    requires Flatten(parts) == Slice(xs, 0, start)
    ensures Flatten(parts + [Slice(xs, start, start + size)]) == Slice(xs, 0, start + size)
  {
    FlattenSnoc(parts, Slice(xs, start, start + size));
    SliceExtends(xs, start, start + size);
  }

  lemma SliceExtends<T>(xs: seq<T>, mid: nat, to: nat)
    requires mid <= to
    ensures Slice(xs, 0, mid) + Slice(xs, mid, to) == Slice(xs, 0, to)
  {
  }

  // ---------------------------------------------------------------- order on control ids

  /** Python's order on strings, by code point. */
  predicate LexLeq(a: string, b: string) {
    if a == "" then true
    else if b == "" then false
    else if a[0] != b[0] then a[0] < b[0]
    else LexLeq(a[1..], b[1..])
  }

  lemma {:induction false} LexTotal(a: string, b: string)
    ensures LexLeq(a, b) || LexLeq(b, a)
    ensures LexLeq(a, b) && LexLeq(b, a) ==> a == b
  {
    if a != "" && b != "" && a[0] == b[0] {
      LexTotal(a[1..], b[1..]);
      assert a == [a[0]] + a[1..] && b == [b[0]] + b[1..];
    }
  }

  lemma {:induction false} LexTransitive(a: string, b: string, c: string)
    requires LexLeq(a, b) && LexLeq(b, c)
    ensures LexLeq(a, c)
  {
    if a != "" && b != "" && c != "" && a[0] == b[0] == c[0] {
      LexTransitive(a[1..], b[1..], c[1..]);
    }
  }

  /** `a` comes first in the order if it begins `b`, or has the smaller character where they first differ. */
  ghost predicate ComesFirst(a: string, b: string) {
    || a <= b
    || exists i :: 0 <= i < |a| && i < |b| && a[..i] == b[..i] && a[i] < b[i]
  }

  lemma {:induction false} LexExactly(a: string, b: string)
    ensures LexLeq(a, b) <==> ComesFirst(a, b)
  {
    if a != "" && b != "" && a[0] == b[0] {
      LexExactly(a[1..], b[1..]);
      assert a == [a[0]] + a[1..] && b == [b[0]] + b[1..];
      if i :| 0 <= i < |a[1..]| && i < |b[1..]| && a[1..][..i] == b[1..][..i] && a[1..][i] < b[1..][i] {
        assert a[..i + 1] == [a[0]] + a[1..][..i] && b[..i + 1] == [b[0]] + b[1..][..i];
        assert a[i + 1] < b[i + 1];
      }
      if i :| 0 <= i < |a| && i < |b| && a[..i] == b[..i] && a[i] < b[i] {
        assert a[1..][..i - 1] == a[..i][1..] && b[1..][..i - 1] == b[..i][1..];
        assert a[1..][i - 1] < b[1..][i - 1];
      }
    } else if a != "" && b != "" {
      if a[0] < b[0] {
        assert a[..0] == b[..0];
      }
      if i :| 0 <= i < |a| && i < |b| && a[..i] == b[..i] && a[i] < b[i] {
        assert i > 0 ==> a[..i][0] == b[..i][0];
      }
    }
  }

  // ---------------------------------------------------------------- merging

  /** An object of a list field; `control` is `None` when its control id is not a string. */
  datatype Entry = Entry(control: Option<string>, body: string)

  predicate ByControl(a: Entry, b: Entry) {
    a.control.None? || (b.control.Some? && LexLeq(a.control.value, b.control.value))
  }

  lemma ByControlIsTotalPreorder()
    ensures StableSort.TotalPreorder(ByControl)
  {
    forall a: Entry, b: Entry ensures ByControl(a, b) || ByControl(b, a) {
      if a.control.Some? && b.control.Some? {
        LexTotal(a.control.value, b.control.value);
      }
    }
    forall a: Entry, b: Entry, c: Entry | ByControl(a, b) && ByControl(b, c) ensures ByControl(a, c) {
      if a.control.Some? {
        LexTransitive(a.control.value, b.control.value, c.control.value);
      }
    }
  }

  /** The fields every batch must agree on. */
  datatype Lineage = Lineage(
    schemaVersion: string, profile: string, external: string, model: string, prompt: string, safety: string)

  datatype Summary = Summary(
    overall: string, risks: seq<string>, userActions: seq<string>, administratorActions: seq<string>,
    limitations: seq<string>)

  /** A batch result; a missing or ill-typed field is `None`. */
  datatype Batch = Batch(
    generated: bool, lineage: Lineage, summary: Option<Summary>,
    explanationHashes: Option<seq<string>>, evidenceHashes: Option<seq<string>>,
    official: Option<seq<Entry>>, items: Option<seq<Entry>>, citations: Option<seq<Entry>>,
    inputHash: Option<string>, outputHash: Option<string>)

  datatype Merged = Merged(
    lineage: Lineage, summary: Summary, explanationHashes: seq<string>, evidenceHashes: seq<string>,
    inputHashes: seq<string>, outputHashes: seq<string>,
    official: seq<Entry>, items: seq<Entry>, citations: seq<Entry>)

  predicate WellTyped(b: Batch) {
    && b.generated && b.summary.Some? && b.explanationHashes.Some? && b.evidenceHashes.Some?
    && b.official.Some? && b.items.Some? && b.citations.Some? && b.inputHash.Some? && b.outputHash.Some?
  }

  predicate Controlled(entries: seq<Entry>) {
    forall i :: 0 <= i < |entries| ==> entries[i].control.Some?
  }

  function Gather<T>(batches: seq<Batch>, field: Batch -> seq<T>): seq<T> {
    if batches == [] then [] else Gather(batches[..|batches| - 1], field) + field(batches[|batches| - 1])
  }

  function Items(b: Batch): seq<Entry> { if b.items.Some? then b.items.value else [] }
  function Official(b: Batch): seq<Entry> { if b.official.Some? then b.official.value else [] }
  function Citations(b: Batch): seq<Entry> { if b.citations.Some? then b.citations.value else [] }
  function ExplanationHashes(b: Batch): seq<string> {
    if b.explanationHashes.Some? then b.explanationHashes.value else []
  }
  function EvidenceHashes(b: Batch): seq<string> { if b.evidenceHashes.Some? then b.evidenceHashes.value else [] }
  function InputHashes(b: Batch): seq<string> { if b.inputHash.Some? then [b.inputHash.value] else [] }
  function OutputHashes(b: Batch): seq<string> { if b.outputHash.Some? then [b.outputHash.value] else [] }
  function Overall(b: Batch): seq<string> { if b.summary.Some? then [b.summary.value.overall] else [] }
  function Risks(b: Batch): seq<string> { if b.summary.Some? then b.summary.value.risks else [] }
  function UserActions(b: Batch): seq<string> { if b.summary.Some? then b.summary.value.userActions else [] }
  function AdministratorActions(b: Batch): seq<string> {
    if b.summary.Some? then b.summary.value.administratorActions else []
  }
  function Limitations(b: Batch): seq<string> { if b.summary.Some? then b.summary.value.limitations else [] }

  /** `" ".join(...)[:2_000]`. */
  function JoinWords(words: seq<string>): string {
    if words == [] then "" else if |words| == 1 then words[0] else words[0] + " " + JoinWords(words[1..])
  }

  function Shortened(s: string): string {
    if |s| <= 2_000 then s else s[..2_000]
  }

  /** `" ".join` is determined by these laws. */
  lemma {:induction false} JoinWordsConcat(a: seq<string>, b: seq<string>)
    ensures JoinWords([]) == ""
    ensures forall w :: JoinWords([w]) == w
    ensures a != [] && b != [] ==> JoinWords(a + b) == JoinWords(a) + " " + JoinWords(b)
  {
    if |a| > 1 {
      JoinWordsConcat(a[1..], b);
      assert (a + b)[1..] == a[1..] + b;
      var head, rest, tail := a[0] + " ", JoinWords(a[1..]), JoinWords(b);
      assert head + (rest + " " + tail) == head + rest + " " + tail;
    } else if |a| == 1 {
      assert (a + b)[1..] == b;
    }
  }

  /** The longest beginning of at most 2,000 characters. */
  lemma ShortenedIsLongestPrefix(s: string)
    ensures Shortened(s) <= s && |Shortened(s)| <= 2_000
    ensures forall t :: t <= s && |t| <= 2_000 ==> t <= Shortened(s)
  {
  }

  ghost predicate OneControlEach(items: seq<Entry>) {
    forall i, j :: 0 <= i < j < |items| ==> items[i].control != items[j].control
  }

  ghost predicate AllTyped(batches: seq<Batch>) {
    forall b :: b in batches ==> WellTyped(b)
  }

  ghost predicate SameLineage(batches: seq<Batch>) {
    forall a, b :: a in batches && b in batches ==> a.lineage == b.lineage
  }

  /** When the merge goes through, said without reference to the order of the batches. */
  ghost predicate Mergeable(batches: seq<Batch>) {
    && batches != []
    && AllTyped(batches)
    && SameLineage(batches)
    && Controlled(Gather(batches, Official)) && Controlled(Gather(batches, Items))
    && Controlled(Gather(batches, Citations))
    && OneControlEach(Gather(batches, Items))
  }

  function MergedSummary(batches: seq<Batch>): Summary {
    Summary(Shortened(JoinWords(Unique(Gather(batches, Overall), |batches|))),
            Unique(Gather(batches, Risks), 8),
            Unique(Gather(batches, UserActions), 8),
            Unique(Gather(batches, AdministratorActions), 8),
            Unique(Gather(batches, Limitations), 8))
  }

  function Combined(batches: seq<Batch>): Merged
    requires batches != []
  {
    Merged(batches[0].lineage, MergedSummary(batches),
           Unique(Gather(batches, ExplanationHashes), 18), Unique(Gather(batches, EvidenceHashes), 18),
           Gather(batches, InputHashes), Gather(batches, OutputHashes),
           StableSort.Sort(Gather(batches, Official), ByControl),
           StableSort.Sort(Gather(batches, Items), ByControl),
           StableSort.Sort(Gather(batches, Citations), ByControl))
  }

  lemma GatherSnoc<T>(batches: seq<Batch>, i: nat, field: Batch -> seq<T>)
    requires i < |batches|
    ensures Gather(batches[..i + 1], field) == Gather(batches[..i], field) + field(batches[i])
  {
    assert batches[..i + 1][..i] == batches[..i];
  }

  function Controls(items: seq<Entry>): seq<Option<string>> {
    seq(|items|, i requires 0 <= i < |items| => items[i].control)
  }

  /** The duplicate test of the code: as many ids as different ids. */
  lemma CountDecidesOneEach(items: seq<Entry>)
    ensures |ElementSet(Controls(items))| == |items| <==> OneControlEach(items)
  {
    assert forall i :: 0 <= i < |items| ==> Controls(items)[i] == items[i].control;
    CountDecidesDistinct(Controls(items));
  }

  lemma SameControls(a: seq<Entry>, b: seq<Entry>)
    requires multiset(a) == multiset(b)
    ensures ElementSet(Controls(a)) == ElementSet(Controls(b)) && |a| == |b|
    ensures OneControlEach(a) <==> OneControlEach(b)
    ensures Controlled(a) <==> Controlled(b)
  {
    StableSort.SameElements(a, b);
    SomeControls(a, b);
    SomeControls(b, a);
    CountDecidesOneEach(a);
    CountDecidesOneEach(b);
  }

  lemma SomeControls(a: seq<Entry>, b: seq<Entry>)
    requires forall e :: e in a ==> e in b
    ensures ElementSet(Controls(a)) <= ElementSet(Controls(b))
    ensures Controlled(b) ==> Controlled(a)
  {
    forall c | c in ElementSet(Controls(a)) ensures c in ElementSet(Controls(b)) {
      var i :| 0 <= i < |a| && c == Controls(a)[i];
      assert a[i] in b;
      var j :| 0 <= j < |b| && b[j] == a[i];
      assert Controls(b)[j] == c;
    }
    forall i | 0 <= i < |a| && Controlled(b) ensures a[i].control.Some? {
      assert a[i] in b;
    }
  }

  // ---------------------------------------------------------------- the merge

  /** `summary_strings`: the values of all batches, then de-duplicated. */
  method SummaryStrings(batches: seq<Batch>, field: Batch -> seq<string>, limit: nat) returns (values: seq<string>)
    ensures values == Unique(Gather(batches, field), limit)
  {
    values := [];
    for i := 0 to |batches|
      invariant values == Gather(batches[..i], field)
    {
      GatherSnoc(batches, i, field);
      values := values + field(batches[i]);
    }
    assert batches[..|batches|] == batches;
    values := Unique(values, limit);
  }

  lemma IndicesAreMembers(batches: seq<Batch>)
    ensures AllTyped(batches) <==> (forall i :: 0 <= i < |batches| ==> WellTyped(batches[i]))
    ensures SameLineage(batches)
        <==> (forall i :: 0 <= i < |batches| ==> batches[i].lineage == batches[0].lineage)
  {
    if forall i :: 0 <= i < |batches| ==> batches[i].lineage == batches[0].lineage {
      forall a, b | a in batches && b in batches ensures a.lineage == b.lineage {
        assert a.lineage == batches[0].lineage && b.lineage == batches[0].lineage;
      }
    }
  }

  method Merge(batches: seq<Batch>) returns (r: Option<Merged>)
    ensures r.Some? <==> Mergeable(batches)
    ensures r.Some? ==> r.value == Combined(batches)
  {
    IndicesAreMembers(batches);
    if batches == [] || exists i :: 0 <= i < |batches| && !batches[i].generated {
      return None;
    }
    if exists i :: 0 <= i < |batches| && batches[i].lineage != batches[0].lineage {
      return None;
    }
    if exists i :: 0 <= i < |batches| && batches[i].summary.None? {
      return None;
    }
    var lists := Collect(batches);
    if lists.None? {
      return None;
    }
    var Lists(explanations, evidence, official, items, citations, inputHashes, outputHashes) := lists.value;
    if !(Controlled(official) && Controlled(items) && Controlled(citations)) {
      return None;
    }
    official := StableSort.Sort(official, ByControl);
    StableSort.SortPermutes(items, ByControl);
    SameControls(items, StableSort.Sort(items, ByControl));
    items := StableSort.Sort(items, ByControl);
    citations := StableSort.Sort(citations, ByControl);
    CountDecidesOneEach(items);
    ControlSet(items);
    if |items| != |set e | e in items :: e.control| {
      return None;
    }
    var overall := SummaryStrings(batches, Overall, |batches|);
    var risks := SummaryStrings(batches, Risks, 8);
    var userActions := SummaryStrings(batches, UserActions, 8);
    var administratorActions := SummaryStrings(batches, AdministratorActions, 8);
    var limitations := SummaryStrings(batches, Limitations, 8);
    r := Some(Merged(batches[0].lineage,
                     Summary(Shortened(JoinWords(overall)), risks, userActions, administratorActions, limitations),
                     Unique(explanations, 18), Unique(evidence, 18), inputHashes, outputHashes,
                     official, items, citations));
  }

  lemma ControlSet(items: seq<Entry>)
    ensures (set e | e in items :: e.control) == ElementSet(Controls(items))
  {
    forall i | 0 <= i < |items| ensures items[i].control in ElementSet(Controls(items)) {
      assert Controls(items)[i] == items[i].control;
    }
  }

  /** The lists the loop over the batches extends. */
  datatype Lists = Lists(
    explanations: seq<string>, evidence: seq<string>, official: seq<Entry>, items: seq<Entry>, citations: seq<Entry>,
    inputHashes: seq<string>, outputHashes: seq<string>)

  ghost function Collected(batches: seq<Batch>): Lists {
    Lists(Gather(batches, ExplanationHashes), Gather(batches, EvidenceHashes),
          Gather(batches, Official), Gather(batches, Items), Gather(batches, Citations),
          Gather(batches, InputHashes), Gather(batches, OutputHashes))
  }

  lemma CollectedSnoc(batches: seq<Batch>, i: nat)
    requires i < |batches|
    ensures var before, b := Collected(batches[..i]), batches[i];
            Collected(batches[..i + 1]) ==
            Lists(before.explanations + ExplanationHashes(b), before.evidence + EvidenceHashes(b),
                  before.official + Official(b), before.items + Items(b), before.citations + Citations(b),
                  before.inputHashes + InputHashes(b), before.outputHashes + OutputHashes(b))
  {
    GatherSnoc(batches, i, ExplanationHashes);
    GatherSnoc(batches, i, EvidenceHashes);
    GatherSnoc(batches, i, Official);
    GatherSnoc(batches, i, Items);
    GatherSnoc(batches, i, Citations);
    GatherSnoc(batches, i, InputHashes);
    GatherSnoc(batches, i, OutputHashes);
  }

  method Collect(batches: seq<Batch>) returns (r: Option<Lists>)
    requires forall i :: 0 <= i < |batches| ==> batches[i].generated && batches[i].summary.Some?
    ensures r.Some? <==> forall i :: 0 <= i < |batches| ==> WellTyped(batches[i])
    ensures r.Some? ==> r.value == Collected(batches)
  {
    var lists := Lists([], [], [], [], [], [], []);
    for i := 0 to |batches|
      invariant lists == Collected(batches[..i])
      invariant forall k :: 0 <= k < i ==> WellTyped(batches[k])
    {
      var b := batches[i];
      if !WellTyped(b) {
        return None;
      }
      CollectedSnoc(batches, i);
      lists := Lists(lists.explanations + b.explanationHashes.value, lists.evidence + b.evidenceHashes.value,
                     lists.official + b.official.value, lists.items + b.items.value,
                     lists.citations + b.citations.value,
                     lists.inputHashes + [b.inputHash.value], lists.outputHashes + [b.outputHash.value]);
    }
    assert batches[..|batches|] == batches;
    r := Some(lists);
  }

  // ---------------------------------------------------------------- what a merge keeps

  ghost predicate SortsTo(entries: seq<Entry>, sorted: seq<Entry>) {
    && multiset(sorted) == multiset(entries)
    && StableSort.Sorted(sorted, ByControl)
    && forall c: Option<string> ::
         StableSort.Select(sorted, OfControl(c)) == StableSort.Select(entries, OfControl(c))
  }

  function OfControl(c: Option<string>): Entry -> bool {
    (e: Entry) => e.control == c
  }

  lemma SortKeepsAll(entries: seq<Entry>)
    ensures SortsTo(entries, StableSort.Sort(entries, ByControl))
  {
    ByControlIsTotalPreorder();
    StableSort.SortPermutes(entries, ByControl);
    StableSort.SortSorts(entries, ByControl);
    forall c: Option<string>
      ensures StableSort.Select(StableSort.Sort(entries, ByControl), OfControl(c)) ==
              StableSort.Select(entries, OfControl(c))
    {
      if c.Some? {
        LexTotal(c.value, c.value);
      }
      StableSort.SortIsStable(entries, ByControl, OfControl(c));
    }
  }

  /** No item, official result or citation is lost, added or moved against its own control, no two items
      share a control, and every batch has the lineage of the result. */
  lemma MergeConserves(batches: seq<Batch>)
    requires Mergeable(batches)
    ensures var m := Combined(batches);
            && SortsTo(Gather(batches, Official), m.official)
            && SortsTo(Gather(batches, Items), m.items)
            && SortsTo(Gather(batches, Citations), m.citations)
            && OneControlEach(m.items)
            && forall b :: b in batches ==> b.lineage == m.lineage
  {
    SortKeepsAll(Gather(batches, Official));
    SortKeepsAll(Gather(batches, Items));
    SortKeepsAll(Gather(batches, Citations));
    SameControls(Gather(batches, Items), Combined(batches).items);
    assert batches[0] in batches;
  }

  lemma {:induction false} GatherMembers<T>(batches: seq<Batch>, field: Batch -> seq<T>)
    ensures forall x :: x in Gather(batches, field) <==> exists b :: b in batches && x in field(b)
  {
    if batches != [] {
      var n := |batches| - 1;
      GatherMembers(batches[..n], field);
      assert batches == batches[..n] + [batches[n]];
    }
  }

  /** Only non-empty values of the field, and all of them when there are no more than the limit. */
  ghost predicate HoldsValues(list: seq<string>, batches: seq<Batch>, field: Batch -> seq<string>, limit: nat) {
    && (forall x :: x in list ==> x != "" && exists b :: b in batches && x in field(b))
    && (|Gather(batches, field)| <= limit ==> forall b, x :: b in batches && x in field(b) && x != "" ==> x in list)
  }

  lemma UniqueHoldsValues(batches: seq<Batch>, field: Batch -> seq<string>, limit: nat)
    ensures HoldsValues(Unique(Gather(batches, field), limit), batches, field, limit)
  {
    var all := Gather(batches, field);
    GatherMembers(batches, field);
    DedupIsDistinct(all);
    forall x | x in Unique(all, limit) ensures x != "" && exists b :: b in batches && x in field(b) {
      assert x in Dedup(all);
      assert x in all;
    }
  }

  /** Each list of the result holds the values of its own field. */
  lemma ListsAreOwn(batches: seq<Batch>)
    requires batches != []
    ensures var m := Combined(batches);
            && HoldsValues(m.explanationHashes, batches, ExplanationHashes, 18)
            && HoldsValues(m.evidenceHashes, batches, EvidenceHashes, 18)
            && HoldsValues(m.summary.risks, batches, Risks, 8)
            && HoldsValues(m.summary.userActions, batches, UserActions, 8)
            && HoldsValues(m.summary.administratorActions, batches, AdministratorActions, 8)
            && HoldsValues(m.summary.limitations, batches, Limitations, 8)
  {
    UniqueHoldsValues(batches, ExplanationHashes, 18);
    UniqueHoldsValues(batches, EvidenceHashes, 18);
    UniqueHoldsValues(batches, Risks, 8);
    UniqueHoldsValues(batches, UserActions, 8);
    UniqueHoldsValues(batches, AdministratorActions, 8);
    UniqueHoldsValues(batches, Limitations, 8);
  }

  lemma {:induction false} OneOverallEach(batches: seq<Batch>)
    ensures |Gather(batches, Overall)| <= |batches|
  {
    if batches != [] {
      OneOverallEach(batches[..|batches| - 1]);
    }
  }

  lemma OverallIsUncut(batches: seq<Batch>)
    ensures Unique(Gather(batches, Overall), |batches|) == Dedup(Gather(batches, Overall))
  {
    OneOverallEach(batches);
    DedupIsDistinct(Gather(batches, Overall));
  }

  /** The overall text joins every different overall state, none dropped, and is then shortened. */
  lemma OverallKeepsAll(batches: seq<Batch>)
    requires batches != []
    ensures Combined(batches).summary.overall == Shortened(JoinWords(Dedup(Gather(batches, Overall))))
    ensures HoldsValues(Dedup(Gather(batches, Overall)), batches, Overall, |batches|)
    ensures |Gather(batches, Overall)| <= |batches|
  {
    OverallIsUncut(batches);
    OneOverallEach(batches);
    UniqueHoldsValues(batches, Overall, |batches|);
  }

  /** The digests of inputs and of model outputs are listed batch by batch. */
  lemma {:induction false} DigestsInOrder(batches: seq<Batch>)
    requires AllTyped(batches)
    ensures |Gather(batches, InputHashes)| == |batches| == |Gather(batches, OutputHashes)|
    ensures forall i :: 0 <= i < |batches| ==> Some(Gather(batches, InputHashes)[i]) == batches[i].inputHash
    ensures forall i :: 0 <= i < |batches| ==> Some(Gather(batches, OutputHashes)[i]) == batches[i].outputHash
  {
    if batches != [] {
      assert batches[|batches| - 1] in batches;
      DigestsInOrder(batches[..|batches| - 1]);
    }
  }

  // ---------------------------------------------------------------- the order of the batches

  lemma {:induction false} GatherAppend<T>(a: seq<Batch>, b: seq<Batch>, field: Batch -> seq<T>)
    ensures Gather(a + b, field) == Gather(a, field) + Gather(b, field)
  {
    if b == [] {
      assert a + b == a;
    } else {
      var n := |b| - 1;
      GatherAppend(a, b[..n], field);
      assert (a + b)[..|a + b| - 1] == a + b[..n];
    }
  }

  lemma Around<T>(a: seq<T>, b: seq<T>, c: seq<T>)
    ensures multiset(a + b + c) == multiset(a + c) + multiset(b)
  {
  }

  lemma GatherAround<T>(before: seq<Batch>, b: Batch, after: seq<Batch>, field: Batch -> seq<T>)
    ensures multiset(Gather(before + [b] + after, field)) ==
            multiset(Gather(before + after, field)) + multiset(field(b))
  {
    GatherAppend(before + [b], after, field);
    GatherAppend(before, [b], field);
    GatherOne(b, field);
    GatherAppend(before, after, field);
    Around(Gather(before, field), field(b), Gather(after, field));
  }

  lemma {:induction false} GatherPermutes<T>(a: seq<Batch>, b: seq<Batch>, field: Batch -> seq<T>)
    requires multiset(a) == multiset(b)
    ensures multiset(Gather(a, field)) == multiset(Gather(b, field))
  {
    StableSort.SameElements(a, b);
    if a != [] {
      var n := |a| - 1;
      assert a[n] in b;
      var k :| 0 <= k < |b| && b[k] == a[n];
      var rest := b[..k] + b[k + 1..];
      assert b == b[..k] + [b[k]] + b[k + 1..];
      StableSort.SplitLast(a);
      assert multiset(rest) == multiset(b) - multiset{b[k]};
      assert multiset(a[..n]) == multiset(a) - multiset{a[n]};
      GatherPermutes(a[..n], rest, field);
      GatherAround(b[..k], b[k], b[k + 1..], field);
    }
  }

  lemma OneEachDistinguishes(items: seq<Entry>)
    requires OneControlEach(items) && Controlled(items)
    ensures StableSort.Distinguishes(items, ByControl)
  {
    forall a, b | a in items && b in items && ByControl(a, b) && ByControl(b, a) ensures a == b {
      LexTotal(a.control.value, b.control.value);
      var i :| 0 <= i < |items| && items[i] == a;
      var j :| 0 <= j < |items| && items[j] == b;
    }
  }

  lemma OrderKeepsMergeable(a: seq<Batch>, b: seq<Batch>)
    requires multiset(a) == multiset(b) && Mergeable(a)
    ensures Mergeable(b)
  {
    StableSort.SameElements(a, b);
    GatherPermutes(a, b, Official);
    GatherPermutes(a, b, Items);
    GatherPermutes(a, b, Citations);
    SameControls(Gather(a, Official), Gather(b, Official));
    SameControls(Gather(a, Items), Gather(b, Items));
    SameControls(Gather(a, Citations), Gather(b, Citations));
  }

  lemma SortedItemsAreUnique(a: seq<Entry>, b: seq<Entry>)
    requires multiset(a) == multiset(b) && OneControlEach(a) && Controlled(a)
    requires StableSort.Sorted(a, ByControl) && StableSort.Sorted(b, ByControl)
    ensures a == b
  {
    OneEachDistinguishes(a);
    StableSort.SortedIsUnique(a, b, ByControl);
  }

  lemma SameItems(a: seq<Batch>, b: seq<Batch>)
    requires multiset(a) == multiset(b) && Mergeable(a)
    ensures b != [] && Combined(a).items == Combined(b).items
  {
    OrderKeepsMergeable(a, b);
    GatherPermutes(a, b, Items);
    SortKeepsAll(Gather(a, Items));
    SortKeepsAll(Gather(b, Items));
    SameControls(Combined(a).items, Gather(a, Items));
    SortedItemsAreUnique(Combined(a).items, Combined(b).items);
  }

  /** Reordering the batches changes neither whether they merge nor the list of items. */
  lemma BatchOrderIsIrrelevant(a: seq<Batch>, b: seq<Batch>)
    requires multiset(a) == multiset(b)
    ensures Mergeable(a) <==> Mergeable(b)
    ensures Mergeable(a) ==>
              && Combined(a).items == Combined(b).items
              && Combined(a).lineage == Combined(b).lineage
              && multiset(Combined(a).official) == multiset(Combined(b).official)
              && multiset(Combined(a).citations) == multiset(Combined(b).citations)
  {
    if Mergeable(a) {
      OrderKeepsMergeable(a, b);
      SameItems(a, b);
      GatherPermutes(a, b, Official);
      GatherPermutes(a, b, Citations);
      StableSort.SortPermutes(Gather(a, Official), ByControl);
      StableSort.SortPermutes(Gather(b, Official), ByControl);
      StableSort.SortPermutes(Gather(a, Citations), ByControl);
      StableSort.SortPermutes(Gather(b, Citations), ByControl);
      StableSort.SameElements(a, b);
      assert a[0] in b;
    }
    if Mergeable(b) {
      OrderKeepsMergeable(b, a);
    }
  }

  // ---------------------------------------------------------------- merging merged batches

  /** A merge result in the form of a batch; `hash` stands for the digest of a list of digests. */
  function AsBatch(m: Merged, hash: seq<string> -> string): Batch {
    Batch(true, m.lineage, Some(m.summary), Some(m.explanationHashes), Some(m.evidenceHashes),
          Some(m.official), Some(m.items), Some(m.citations), Some(hash(m.inputHashes)), Some(hash(m.outputHashes)))
  }

  ghost predicate AllMergeable(groups: seq<seq<Batch>>) {
    forall g :: 0 <= g < |groups| ==> Mergeable(groups[g])
  }

  function MergedGroups(groups: seq<seq<Batch>>, hash: seq<string> -> string): (merged: seq<Batch>)
    requires forall g :: 0 <= g < |groups| ==> groups[g] != []
    ensures |merged| == |groups|
  {
    if groups == [] then []
    else MergedGroups(groups[..|groups| - 1], hash) + [AsBatch(Combined(groups[|groups| - 1]), hash)]
  }

  /** The field of a merged batch is the truncated de-duplication of the field of its parts. */
  ghost predicate Deduplicates(field: Batch -> seq<string>, limit: nat, hash: seq<string> -> string) {
    forall group: seq<Batch> :: group != [] ==>
        field(AsBatch(Combined(group), hash)) == Unique(Gather(group, field), limit)
  }

  lemma {:induction false} GroupedStrings(
    groups: seq<seq<Batch>>, field: Batch -> seq<string>, rest: seq<string>, limit: nat, hash: seq<string> -> string)
    requires forall g :: 0 <= g < |groups| ==> groups[g] != []
    requires Deduplicates(field, limit, hash)
    ensures Unique(Gather(MergedGroups(groups, hash), field) + rest, limit) ==
            Unique(Gather(Flatten(groups), field) + rest, limit)
  {
    if groups != [] {
      var n := |groups| - 1;
      var front, last := groups[..n], groups[n];
      var collected, added := Gather(MergedGroups(front, hash), field), Gather(last, field);
      GatherAppend(MergedGroups(front, hash), [AsBatch(Combined(last), hash)], field);
      GatherOne(AsBatch(Combined(last), hash), field);
      GroupedStrings(front, field, added + rest, limit, hash);
      GatherAppend(Flatten(front), last, field);
      AbsorbLast(collected, Gather(Flatten(front), field), added, rest, limit);
    }
  }

  lemma AbsorbLast(collected: seq<string>, all: seq<string>, added: seq<string>, rest: seq<string>, limit: nat)
    requires Unique(collected + (added + rest), limit) == Unique(all + (added + rest), limit)
    ensures Unique(collected + Unique(added, limit) + rest, limit) == Unique(all + added + rest, limit)
  {
    UniqueAbsorbs(collected, added, rest, limit);
    assert collected + added + rest == collected + (added + rest);
    assert all + added + rest == all + (added + rest);
  }

  lemma GatherOne<T>(b: Batch, field: Batch -> seq<T>)
    ensures Gather([b], field) == field(b)
  {
    assert [b][..0] == [];
  }

  /** The field of a merged batch is the sorted field of its parts. */
  ghost predicate Sorts(field: Batch -> seq<Entry>, hash: seq<string> -> string) {
    forall group: seq<Batch> :: group != [] ==>
        field(AsBatch(Combined(group), hash)) == StableSort.Sort(Gather(group, field), ByControl)
  }

  lemma {:induction false} GroupedClasses(
    groups: seq<seq<Batch>>, field: Batch -> seq<Entry>, hash: seq<string> -> string, p: Entry -> bool)
    requires forall g :: 0 <= g < |groups| ==> groups[g] != []
    requires Sorts(field, hash) && StableSort.OneClass(p, ByControl)
    ensures StableSort.Select(Gather(MergedGroups(groups, hash), field), p) ==
            StableSort.Select(Gather(Flatten(groups), field), p)
  {
    if groups != [] {
      var n := |groups| - 1;
      var front, last := groups[..n], groups[n];
      var before, merged := MergedGroups(front, hash), AsBatch(Combined(last), hash);
      GroupedClasses(front, field, hash, p);
      GatherAppend(before, [merged], field);
      GatherOne(merged, field);
      StableSort.SelectAppend(Gather(before, field), field(merged), p);
      StableSort.SortIsStable(Gather(last, field), ByControl, p);
      GatherAppend(Flatten(front), last, field);
      StableSort.SelectAppend(Gather(Flatten(front), field), Gather(last, field), p);
    }
  }

  lemma GroupedEntries(groups: seq<seq<Batch>>, field: Batch -> seq<Entry>, hash: seq<string> -> string)
    requires forall g :: 0 <= g < |groups| ==> groups[g] != []
    requires Sorts(field, hash)
    ensures var merged, flat := Gather(MergedGroups(groups, hash), field), Gather(Flatten(groups), field);
            multiset(merged) == multiset(flat) && StableSort.Sort(merged, ByControl) == StableSort.Sort(flat, ByControl)
  {
    var merged, flat := Gather(MergedGroups(groups, hash), field), Gather(Flatten(groups), field);
    ByControlIsTotalPreorder();
    forall x
      ensures StableSort.Select(merged, StableSort.Class(x, ByControl)) ==
              StableSort.Select(flat, StableSort.Class(x, ByControl))
    {
      StableSort.ClassIsOneClass(x, ByControl);
      GroupedClasses(groups, field, hash, StableSort.Class(x, ByControl));
    }
    StableSort.SameClassesSortAlike(merged, flat, ByControl);
    StableSort.SortPermutes(merged, ByControl);
    StableSort.SortPermutes(flat, ByControl);
  }

  ghost function Lineages(batches: seq<Batch>): set<Lineage> {
    set b | b in batches :: b.lineage
  }

  lemma OneLineage(batches: seq<Batch>)
    ensures SameLineage(batches) <==> forall x, y :: x in Lineages(batches) && y in Lineages(batches) ==> x == y
  {
    if forall x, y :: x in Lineages(batches) && y in Lineages(batches) ==> x == y {
      forall a, b | a in batches && b in batches ensures a.lineage == b.lineage {
        assert a.lineage in Lineages(batches) && b.lineage in Lineages(batches);
      }
    }
  }

  lemma LineagesAppend(a: seq<Batch>, b: seq<Batch>)
    ensures Lineages(a + b) == Lineages(a) + Lineages(b)
  {
  }

  lemma SharedLineage(batches: seq<Batch>)
    requires batches != [] && SameLineage(batches)
    ensures Lineages(batches) == {batches[0].lineage}
  {
    assert batches[0] in batches;
  }

  lemma LineageOfGroup(front: seq<Batch>, mergedFront: seq<Batch>, last: seq<Batch>, merged: Batch)
    requires Lineages(front) == Lineages(mergedFront)
    requires last != [] && SameLineage(last) && merged.lineage == last[0].lineage
    ensures Lineages(front + last) == Lineages(mergedFront + [merged])
  {
    LineagesAppend(front, last);
    LineagesAppend(mergedFront, [merged]);
    SharedLineage(last);
    SharedLineage([merged]);
  }

  lemma {:induction false} GroupedLineages(groups: seq<seq<Batch>>, hash: seq<string> -> string)
    requires forall g :: 0 <= g < |groups| ==> groups[g] != [] && SameLineage(groups[g])
    ensures Lineages(Flatten(groups)) == Lineages(MergedGroups(groups, hash))
    ensures Flatten(groups) == [] <==> groups == []
  {
    if groups != [] {
      var n := |groups| - 1;
      GroupedLineages(groups[..n], hash);
      LineageOfGroup(Flatten(groups[..n]), MergedGroups(groups[..n], hash), groups[n],
                     AsBatch(Combined(groups[n]), hash));
    }
  }

  lemma {:induction false} GroupedTypes(groups: seq<seq<Batch>>, hash: seq<string> -> string)
    requires AllMergeable(groups)
    ensures AllTyped(Flatten(groups)) && AllTyped(MergedGroups(groups, hash))
  {
    if groups != [] {
      GroupedTypes(groups[..|groups| - 1], hash);
    }
  }

  lemma MergedFields(hash: seq<string> -> string)
    ensures Sorts(Official, hash) && Sorts(Items, hash) && Sorts(Citations, hash)
    ensures Deduplicates(Risks, 8, hash) && Deduplicates(UserActions, 8, hash)
    ensures Deduplicates(AdministratorActions, 8, hash) && Deduplicates(Limitations, 8, hash)
    ensures Deduplicates(ExplanationHashes, 18, hash) && Deduplicates(EvidenceHashes, 18, hash)
  {
  }

  lemma GroupedControls(groups: seq<seq<Batch>>, field: Batch -> seq<Entry>, hash: seq<string> -> string)
    requires AllMergeable(groups) && Sorts(field, hash)
    ensures var merged, flat := Gather(MergedGroups(groups, hash), field), Gather(Flatten(groups), field);
            && (Controlled(merged) <==> Controlled(flat))
            && (OneControlEach(merged) <==> OneControlEach(flat))
  {
    GroupedEntries(groups, field, hash);
    SameControls(Gather(MergedGroups(groups, hash), field), Gather(Flatten(groups), field));
  }

  lemma GroupedMergeable(groups: seq<seq<Batch>>, hash: seq<string> -> string)
    requires AllMergeable(groups)
    ensures Mergeable(MergedGroups(groups, hash)) <==> Mergeable(Flatten(groups))
  {
    GroupedTypes(groups, hash);
    GroupedLineages(groups, hash);
    OneLineage(MergedGroups(groups, hash));
    OneLineage(Flatten(groups));
    MergedFields(hash);
    GroupedControls(groups, Official, hash);
    GroupedControls(groups, Items, hash);
    GroupedControls(groups, Citations, hash);
  }

  /** Merging the results of merges is possible exactly when merging all their parts at once is, and it
      yields the same lists in the same order. */
  lemma MergingMergedIsOneMerge(groups: seq<seq<Batch>>, hash: seq<string> -> string)
    requires AllMergeable(groups) && groups != []
    ensures Flatten(groups) != []
    ensures var merged, flat := MergedGroups(groups, hash), Flatten(groups);
            && (Mergeable(merged) <==> Mergeable(flat))
            && Combined(merged).official == Combined(flat).official
            && Combined(merged).items == Combined(flat).items
            && Combined(merged).citations == Combined(flat).citations
  {
    GroupedLineages(groups, hash);
    GroupedMergeable(groups, hash);
    MergedFields(hash);
    GroupedEntries(groups, Official, hash);
    GroupedEntries(groups, Items, hash);
    GroupedEntries(groups, Citations, hash);
  }

  /** The same for the truncated lists of the summary and of the hashes. */
  lemma MergingMergedKeepsSummaries(groups: seq<seq<Batch>>, hash: seq<string> -> string)
    requires AllMergeable(groups) && groups != []
    ensures Flatten(groups) != []
    ensures var merged, flat := Combined(MergedGroups(groups, hash)), Combined(Flatten(groups));
            && merged.summary.risks == flat.summary.risks
            && merged.summary.userActions == flat.summary.userActions
            && merged.summary.administratorActions == flat.summary.administratorActions
            && merged.summary.limitations == flat.summary.limitations
            && merged.explanationHashes == flat.explanationHashes
            && merged.evidenceHashes == flat.evidenceHashes
  {
    GroupedLineages(groups, hash);
    MergedFields(hash);
    WholeStrings(groups, Risks, 8, hash);
    WholeStrings(groups, UserActions, 8, hash);
    WholeStrings(groups, AdministratorActions, 8, hash);
    WholeStrings(groups, Limitations, 8, hash);
    WholeStrings(groups, ExplanationHashes, 18, hash);
    WholeStrings(groups, EvidenceHashes, 18, hash);
  }

  lemma WholeStrings(groups: seq<seq<Batch>>, field: Batch -> seq<string>, limit: nat, hash: seq<string> -> string)
    requires forall g :: 0 <= g < |groups| ==> groups[g] != []
    requires Deduplicates(field, limit, hash)
    ensures Unique(Gather(MergedGroups(groups, hash), field), limit) == Unique(Gather(Flatten(groups), field), limit)
  {
    GroupedStrings(groups, field, [], limit, hash);
    assert Gather(MergedGroups(groups, hash), field) + [] == Gather(MergedGroups(groups, hash), field);
    assert Gather(Flatten(groups), field) + [] == Gather(Flatten(groups), field);
  }
}
