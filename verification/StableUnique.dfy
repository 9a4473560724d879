/** The truncated stable de-duplication used for summary lists and hashes. */
module StableUnique {
  import opened Elements

  /** The distinct non-empty values, each at its first occurrence. */
  function Dedup(values: seq<string>): seq<string> {
    if values == [] then []
    else
      var before, last := Dedup(values[..|values| - 1]), values[|values| - 1];
      if last == "" || last in before then before else before + [last]
  }

  function Take(values: seq<string>, limit: nat): seq<string> {
    if |values| <= limit then values else values[..limit]
  }

  /** `list(dict.fromkeys(value for value in values if value))[:limit]`. */
  function Unique(values: seq<string>, limit: nat): seq<string> {
    Take(Dedup(values), limit)
  }

  ghost predicate DistinctNonEmpty(values: seq<string>) {
    Distinct(values) && forall i :: 0 <= i < |values| ==> values[i] != ""
  }

  lemma {:induction false} DedupIsDistinct(values: seq<string>)
    ensures DistinctNonEmpty(Dedup(values)) && |Dedup(values)| <= |values|
    ensures forall x :: x in Dedup(values) <==> x in values && x != ""
  {
    if values != [] {
      DedupIsDistinct(values[..|values| - 1]);
      assert values == values[..|values| - 1] + [values[|values| - 1]];
    }
  }

  lemma {:induction false} DistinctIsFixed(values: seq<string>)
    requires DistinctNonEmpty(values)
    ensures Dedup(values) == values
  {
    if values != [] {
      DistinctIsFixed(values[..|values| - 1]);
      assert values == values[..|values| - 1] + [values[|values| - 1]];
    }
  }

  lemma DedupSnoc(a: seq<string>, x: string)
    ensures Dedup(a + [x]) == if x == "" || x in Dedup(a) then Dedup(a) else Dedup(a) + [x]
  {
    assert (a + [x])[..|a|] == a;
  }

  lemma ConcatSnoc(a: seq<string>, b: seq<string>)
    requires b != []
    ensures a + b == (a + b[..|b| - 1]) + [b[|b| - 1]]
  {
  }

  /** What was already collected is never reordered. */
  lemma {:induction false} DedupGrows(a: seq<string>, b: seq<string>)
    ensures Dedup(a) <= Dedup(a + b)
  {
    if b == [] {
      assert a + b == a;
    } else {
      DedupGrows(a, b[..|b| - 1]);
      ConcatSnoc(a, b);
      DedupSnoc(a + b[..|b| - 1], b[|b| - 1]);
    }
  }

  /** Only the collected values matter for what follows. */
  lemma {:induction false} DedupDependsOnDedup(a: seq<string>, a': seq<string>, b: seq<string>)
    requires Dedup(a) == Dedup(a')
    ensures Dedup(a + b) == Dedup(a' + b)
  {
    if b == [] {
      assert a + b == a && a' + b == a';
    } else {
      DedupDependsOnDedup(a, a', b[..|b| - 1]);
      ConcatSnoc(a, b);
      ConcatSnoc(a', b);
      DedupSnoc(a + b[..|b| - 1], b[|b| - 1]);
      DedupSnoc(a' + b[..|b| - 1], b[|b| - 1]);
    }
  }

  /** Replacing a middle part by its de-duplication changes nothing. */
  lemma {:induction false} DedupMiddle(a: seq<string>, b: seq<string>)
    ensures Dedup(a + Dedup(b)) == Dedup(a + b)
  {
    if b != [] {
      var front, x := b[..|b| - 1], b[|b| - 1];
      DedupMiddle(a, front);
      ConcatSnoc(a, b);
      DedupSnoc(a + front, x);
      DedupIsDistinct(a + front);
      DedupIsDistinct(b[..|b| - 1]);
      if x == "" || x in Dedup(front) {
        assert x != "" ==> x in a + front;
      } else {
        assert a + (Dedup(front) + [x]) == (a + Dedup(front)) + [x];
        DedupSnoc(a + Dedup(front), x);
      }
    }
  }

  /** Collecting more parts never collects fewer values. */
  lemma DedupCountsSuffix(a: seq<string>, t: seq<string>)
    requires DistinctNonEmpty(t)
    ensures |Dedup(a + t)| >= |t|
  {
    var d := Dedup(a + t);
    DedupIsDistinct(a + t);
    DistinctCount(d);
    DistinctCount(t);
    ElementsAreMembers(d);
    ElementsAreMembers(t);
    SubsetSize(ElementSet(t), ElementSet(d));
  }

  lemma TakePrefix(a: seq<string>, b: seq<string>, limit: nat)
    requires a <= b && |a| >= limit
    ensures Take(a, limit) == Take(b, limit)
  {
  }

  /** The absorbing law: de-duplicating and truncating any middle part first changes nothing. */
  lemma UniqueAbsorbs(a: seq<string>, b: seq<string>, c: seq<string>, limit: nat)
    ensures Unique(a + Unique(b, limit) + c, limit) == Unique(a + b + c, limit)
  {
    var d := Dedup(b);
    DedupIsDistinct(b);
    DedupMiddle(a, b);
    if |d| <= limit {
      DedupDependsOnDedup(a + d, a + b, c);
    } else {
      var t := d[..limit];
      DedupCountsSuffix(a, t);
      DedupGrows(a + t, c);
      TakePrefix(Dedup(a + t), Dedup(a + t + c), limit);
      assert a + d == (a + t) + d[limit..];
      DedupGrows(a + t, d[limit..]);
      DedupGrows(a + b, c);
      TakePrefix(Dedup(a + t), Dedup(a + b + c), limit);
    }
  }

  /** The first `limit` of the distinct non-empty values, in order of first occurrence. */
  lemma UniqueIsFirst(values: seq<string>, limit: nat)
    ensures Unique(values, limit) <= Dedup(values) && DistinctNonEmpty(Unique(values, limit))
    ensures |Unique(values, limit)| == if |Dedup(values)| <= limit then |Dedup(values)| else limit
  {
    DedupIsDistinct(values);
  }

  /** With no more values than the limit, none is dropped. */
  lemma LimitDropsNothing(values: seq<string>, limit: nat)
    requires |values| <= limit
    ensures forall x :: x in values && x != "" ==> x in Unique(values, limit)
  {
    DedupIsDistinct(values);
  }
}
