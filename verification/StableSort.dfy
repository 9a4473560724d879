/** Python's `list.sort(key=...)`, as a stable insertion sort under a total preorder. */
module StableSort {

  ghost predicate TotalPreorder<T(!new)>(leq: (T, T) -> bool) {
    && (forall a, b :: leq(a, b) || leq(b, a))
    && (forall a, b, c :: leq(a, b) && leq(b, c) ==> leq(a, c))
  }

  ghost predicate Sorted<T>(xs: seq<T>, leq: (T, T) -> bool) {
    forall i, j :: 0 <= i < j < |xs| ==> leq(xs[i], xs[j])
  }

  /** Puts `x` behind every element that does not exceed it. */
  function Insert<T>(xs: seq<T>, x: T, leq: (T, T) -> bool): seq<T> {
    if xs == [] then [x]
    else if leq(xs[|xs| - 1], x) then xs + [x]
    else Insert(xs[..|xs| - 1], x, leq) + [xs[|xs| - 1]]
  }

  function Sort<T>(xs: seq<T>, leq: (T, T) -> bool): seq<T> {
    if xs == [] then [] else Insert(Sort(xs[..|xs| - 1], leq), xs[|xs| - 1], leq)
  }

  lemma SplitLast<T>(xs: seq<T>)
    requires xs != []
    ensures multiset(xs) == multiset(xs[..|xs| - 1]) + multiset{xs[|xs| - 1]}
  {
    assert xs == xs[..|xs| - 1] + [xs[|xs| - 1]];
  }

  lemma {:induction false} InsertKeepsAll<T>(xs: seq<T>, x: T, leq: (T, T) -> bool)
    ensures multiset(Insert(xs, x, leq)) == multiset(xs) + multiset{x}
  {
    if xs != [] && !leq(xs[|xs| - 1], x) {
      SplitLast(xs);
      InsertKeepsAll(xs[..|xs| - 1], x, leq);
    }
  }

  lemma {:induction false} SortPermutes<T>(xs: seq<T>, leq: (T, T) -> bool)
    ensures multiset(Sort(xs, leq)) == multiset(xs)
  {
    if xs != [] {
      SplitLast(xs);
      SortPermutes(xs[..|xs| - 1], leq);
      InsertKeepsAll(Sort(xs[..|xs| - 1], leq), xs[|xs| - 1], leq);
    }
  }

  lemma {:induction false} InsertSorts<T(!new)>(xs: seq<T>, x: T, leq: (T, T) -> bool)
    requires TotalPreorder(leq) && Sorted(xs, leq)
    ensures Sorted(Insert(xs, x, leq), leq)
  {
    if xs != [] {
      var last, front := xs[|xs| - 1], xs[..|xs| - 1];
      if leq(last, x) {
        assert forall i :: 0 <= i < |xs| ==> leq(xs[i], x) by {
          assert forall i :: 0 <= i < |front| ==> leq(xs[i], last);
        }
      } else {
        InsertSorts(front, x, leq);
        InsertKeepsAll(front, x, leq);
        var r := Insert(front, x, leq);
        forall i | 0 <= i < |r| ensures leq(r[i], last) {
          assert r[i] in multiset(r);
          assert r[i] in multiset(front) || r[i] == x;
        }
      }
    }
  }

  lemma {:induction false} SortSorts<T(!new)>(xs: seq<T>, leq: (T, T) -> bool)
    requires TotalPreorder(leq)
    ensures Sorted(Sort(xs, leq), leq)
  {
    if xs != [] {
      SortSorts(xs[..|xs| - 1], leq);
      InsertSorts(Sort(xs[..|xs| - 1], leq), xs[|xs| - 1], leq);
    }
  }

  /** The elements that satisfy `p`, in order. */
  function Select<T>(xs: seq<T>, p: T -> bool): seq<T> {
    if xs == [] then []
    else Select(xs[..|xs| - 1], p) + if p(xs[|xs| - 1]) then [xs[|xs| - 1]] else []
  }

  /** `p` picks out elements that compare equal. */
  ghost predicate OneClass<T(!new)>(p: T -> bool, leq: (T, T) -> bool) {
    forall a, b :: p(a) && p(b) ==> leq(a, b)
  }

  lemma SelectSnoc<T>(xs: seq<T>, x: T, p: T -> bool)
    ensures Select(xs + [x], p) == Select(xs, p) + if p(x) then [x] else []
  {
    assert (xs + [x])[..|xs|] == xs;
  }

  lemma {:induction false} InsertIsStable<T(!new)>(xs: seq<T>, x: T, leq: (T, T) -> bool, p: T -> bool)
    requires OneClass(p, leq)
    ensures Select(Insert(xs, x, leq), p) == Select(xs, p) + if p(x) then [x] else []
  {
    if xs == [] {
      assert [x][..0] == [];
    } else {
      var last, front := xs[|xs| - 1], xs[..|xs| - 1];
      if leq(last, x) {
        SelectSnoc(xs, x, p);
      } else {
        InsertIsStable(front, x, leq, p);
        SelectSnoc(Insert(front, x, leq), last, p);
      }
    }
  }

  /** Elements that compare equal keep their order. */
  lemma {:induction false} SortIsStable<T(!new)>(xs: seq<T>, leq: (T, T) -> bool, p: T -> bool)
    requires OneClass(p, leq)
    ensures Select(Sort(xs, leq), p) == Select(xs, p)
  {
    if xs != [] {
      SortIsStable(xs[..|xs| - 1], leq, p);
      InsertIsStable(Sort(xs[..|xs| - 1], leq), xs[|xs| - 1], leq, p);
    }
  }

  /** The order decides between any two different elements of `xs`. */
  ghost predicate Distinguishes<T>(xs: seq<T>, leq: (T, T) -> bool) {
    forall a, b :: a in xs && b in xs && leq(a, b) && leq(b, a) ==> a == b
  }

  lemma GreatestIsLast<T>(xs: seq<T>, x: T, leq: (T, T) -> bool)
    requires Sorted(xs, leq) && x in xs
    ensures x == xs[|xs| - 1] || leq(x, xs[|xs| - 1])
  {
  }

  lemma SameElements<T>(xs: seq<T>, ys: seq<T>)
    requires multiset(xs) == multiset(ys)
    ensures |xs| == |ys| && forall x :: x in xs <==> x in ys
  {
    assert |multiset(xs)| == |multiset(ys)|;
    assert forall x :: x in xs <==> x in multiset(xs);
    assert forall x :: x in ys <==> x in multiset(ys);
  }

  lemma DropLast<T>(xs: seq<T>)
    requires xs != []
    ensures multiset(xs[..|xs| - 1]) == multiset(xs) - multiset{xs[|xs| - 1]}
  {
    SplitLast(xs);
  }

  lemma DistinguishesFront<T>(xs: seq<T>, leq: (T, T) -> bool)
    requires xs != [] && Distinguishes(xs, leq)
    ensures Distinguishes(xs[..|xs| - 1], leq)
  {
  }

  /** A sorted sequence is determined by its elements when the order tells them apart. */
  lemma {:induction false} SortedIsUnique<T>(xs: seq<T>, ys: seq<T>, leq: (T, T) -> bool)
    requires Sorted(xs, leq) && Sorted(ys, leq)
    requires Distinguishes(xs, leq) && multiset(xs) == multiset(ys)
    ensures xs == ys
  {
    SameElements(xs, ys);
    if xs != [] {
      var n := |xs| - 1;
      GreatestIsLast(xs, ys[n], leq);
      GreatestIsLast(ys, xs[n], leq);
      DropLast(xs);
      DropLast(ys);
      DistinguishesFront(xs, leq);
      SortedIsUnique(xs[..n], ys[..n], leq);
      assert xs == xs[..n] + [xs[n]] && ys == ys[..n] + [ys[n]];
    }
  }

  /** The elements that compare equal to `x`. */
  function Class<T>(x: T, leq: (T, T) -> bool): T -> bool {
    y => leq(x, y) && leq(y, x)
  }

  lemma {:induction false} SelectMembers<T>(xs: seq<T>, p: T -> bool)
    ensures forall x :: x in Select(xs, p) <==> x in xs && p(x)
  {
    if xs != [] {
      SelectMembers(xs[..|xs| - 1], p);
      assert xs == xs[..|xs| - 1] + [xs[|xs| - 1]];
    }
  }

  lemma {:induction false} SelectAppend<T>(xs: seq<T>, ys: seq<T>, p: T -> bool)
    ensures Select(xs + ys, p) == Select(xs, p) + Select(ys, p)
  {
    if ys == [] {
      assert xs + ys == xs;
    } else {
      var n := |ys| - 1;
      SelectAppend(xs, ys[..n], p);
      SelectSnoc(xs + ys[..n], ys[n], p);
      assert xs + ys == xs + ys[..n] + [ys[n]];
    }
  }

  /** Both list the elements of every class in the same order. */
  ghost predicate SameClasses<T(!new)>(xs: seq<T>, ys: seq<T>, leq: (T, T) -> bool) {
    forall x :: Select(xs, Class(x, leq)) == Select(ys, Class(x, leq))
  }

  lemma SameClassesMember<T(!new)>(xs: seq<T>, ys: seq<T>, x: T, leq: (T, T) -> bool)
    requires TotalPreorder(leq) && SameClasses(xs, ys, leq) && x in xs
    ensures x in ys
  {
    SelectMembers(xs, Class(x, leq));
    SelectMembers(ys, Class(x, leq));
  }

  lemma LastOfSelect<T>(xs: seq<T>, p: T -> bool)
    requires xs != []
    ensures p(xs[|xs| - 1]) ==> Select(xs, p) == Select(xs[..|xs| - 1], p) + [xs[|xs| - 1]]
    ensures !p(xs[|xs| - 1]) ==> Select(xs, p) == Select(xs[..|xs| - 1], p)
  {
  }

  lemma SelectsEndAlike<T>(xs: seq<T>, ys: seq<T>, p: T -> bool)
    requires xs != [] && ys != [] && Select(xs, p) == Select(ys, p) && (p(xs[|xs| - 1]) <==> p(ys[|ys| - 1]))
    ensures p(xs[|xs| - 1]) ==> xs[|xs| - 1] == ys[|ys| - 1]
    ensures Select(xs[..|xs| - 1], p) == Select(ys[..|ys| - 1], p)
  {
    LastOfSelect(xs, p);
    LastOfSelect(ys, p);
    if p(xs[|xs| - 1]) {
      SnocInjective(Select(xs[..|xs| - 1], p), xs[|xs| - 1], Select(ys[..|ys| - 1], p), ys[|ys| - 1]);
    }
  }

  lemma SnocInjective<T>(a: seq<T>, x: T, b: seq<T>, y: T)
    requires a + [x] == b + [y]
    ensures a == b && x == y
  {
    assert (a + [x])[..|a + [x]| - 1] == a && (b + [y])[..|b + [y]| - 1] == b;
    assert (a + [x])[|a|] == x && (b + [y])[|b|] == y;
  }

  /** A sorted sequence is determined by the order within its classes. */
  lemma {:induction false} StableSortIsUnique<T(!new)>(xs: seq<T>, ys: seq<T>, leq: (T, T) -> bool)
    requires TotalPreorder(leq) && Sorted(xs, leq) && Sorted(ys, leq) && SameClasses(xs, ys, leq)
    ensures xs == ys
  {
    if xs == [] {
      if ys != [] {
        SameClassesMember(ys, xs, ys[0], leq);
      }
    } else {
      var m := |xs| - 1;
      SameClassesMember(xs, ys, xs[m], leq);
      var n := |ys| - 1;
      SameClassesMember(ys, xs, ys[n], leq);
      GreatestIsLast(xs, ys[n], leq);
      GreatestIsLast(ys, xs[m], leq);
      var p := Class(xs[m], leq);
      assert p(xs[m]) && p(ys[n]);
      SelectsEndAlike(xs, ys, p);
      forall x ensures Select(xs[..m], Class(x, leq)) == Select(ys[..n], Class(x, leq)) {
        SelectsEndAlike(xs, ys, Class(x, leq));
      }
      StableSortIsUnique(xs[..m], ys[..n], leq);
      assert xs == xs[..m] + [xs[m]] && ys == ys[..n] + [ys[n]];
    }
  }

  lemma ClassIsOneClass<T(!new)>(x: T, leq: (T, T) -> bool)
    requires TotalPreorder(leq)
    ensures OneClass(Class(x, leq), leq)
  {
  }

  /** Sequences that agree within every class sort to the same sequence. */
  lemma SameClassesSortAlike<T(!new)>(xs: seq<T>, ys: seq<T>, leq: (T, T) -> bool)
    requires TotalPreorder(leq) && SameClasses(xs, ys, leq)
    ensures Sort(xs, leq) == Sort(ys, leq)
  {
    SortSorts(xs, leq);
    SortSorts(ys, leq);
    forall x ensures Select(Sort(xs, leq), Class(x, leq)) == Select(Sort(ys, leq), Class(x, leq)) {
      ClassIsOneClass(x, leq);
      SortIsStable(xs, leq, Class(x, leq));
      SortIsStable(ys, leq, Class(x, leq));
    }
    StableSortIsUnique(Sort(xs, leq), Sort(ys, leq), leq);
  }
}
