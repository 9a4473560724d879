/** Sequences without repetition, the sets of their elements, and concatenation. */
module Elements {

  ghost predicate Distinct<T>(xs: seq<T>) {
    forall i, j :: 0 <= i < j < |xs| ==> xs[i] != xs[j]
  }

  ghost function ElementSet<T>(xs: seq<T>): set<T> {
    set i | 0 <= i < |xs| :: xs[i]
  }

  lemma ElementsAreMembers<T>(xs: seq<T>)
    ensures forall x :: x in ElementSet(xs) <==> x in xs
  {
  }

  lemma ElementsSnoc<T>(xs: seq<T>, n: nat)
    requires n < |xs|
    ensures ElementSet(xs[..n + 1]) == ElementSet(xs[..n]) + {xs[n]}
  {
    ElementsAreMembers(xs[..n + 1]);
    ElementsAreMembers(xs[..n]);
    assert xs[..n + 1] == xs[..n] + [xs[n]];
  }

  lemma {:induction false} DistinctCount<T>(xs: seq<T>)
    requires Distinct(xs)
    ensures |ElementSet(xs)| == |xs|
  {
    if xs != [] {
      var n := |xs| - 1;
      DistinctCount(xs[..n]);
      ElementsSnoc(xs, n);
      assert xs[..n + 1] == xs;
      ElementsAreMembers(xs[..n]);
      assert xs[n] !in xs[..n];
    }
  }

  lemma RepeatedCount<T>(xs: seq<T>, i: nat, j: nat)
    requires i < j < |xs| && xs[i] == xs[j]
    ensures |ElementSet(xs)| < |xs|
  {
    var rest := xs[..j] + xs[j + 1..];
    assert xs == xs[..j] + [xs[j]] + xs[j + 1..];
    ElementsAreMembers(xs);
    ElementsAreMembers(rest);
    assert xs[j] in rest by {
      assert rest[i] == xs[j];
    }
    assert ElementSet(xs) == ElementSet(rest);
    AtMostLength(rest);
  }

  lemma {:induction false} AtMostLength<T>(xs: seq<T>)
    ensures |ElementSet(xs)| <= |xs|
  {
    if xs != [] {
      AtMostLength(xs[..|xs| - 1]);
      ElementsSnoc(xs, |xs| - 1);
      assert xs[..|xs| - 1 + 1] == xs;
    }
  }

  /** Counting different elements tells whether any is repeated. */
  lemma CountDecidesDistinct<T>(xs: seq<T>)
    ensures |ElementSet(xs)| == |xs| <==> Distinct(xs)
  {
    if i, j :| 0 <= i < j < |xs| && xs[i] == xs[j] {
      RepeatedCount(xs, i, j);
    } else {
      DistinctCount(xs);
    }
  }

  lemma SubsetSize<T>(small: set<T>, big: set<T>)
    requires small <= big
    ensures |small| <= |big|
    ensures |small| == |big| <==> small == big
  {
    var extra := big - small;
    assert big == small + extra;
    assert |big| == |small| + |extra|;
  }

  function Flatten<T>(groups: seq<seq<T>>): seq<T> {
    if groups == [] then [] else Flatten(groups[..|groups| - 1]) + groups[|groups| - 1]
  }

  lemma FlattenSnoc<T>(groups: seq<seq<T>>, group: seq<T>)
    ensures Flatten(groups + [group]) == Flatten(groups) + group
  {
    assert (groups + [group])[..|groups|] == groups;
  }
}
