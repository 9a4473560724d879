/** The citation scanner of an answer text.

    Bracketed numbers are references. A parenthesised number is one only right after a sentence or
    right after another accepted reference, so that list numbers such as "(1)" are left alone. */
module CitationScanner {
  import opened Options
  import opened Elements
  import opened PythonText
  import StableSort

  datatype Reference = Reference(start: nat, end: nat, ordinal: nat, canonical: bool)

  // ---------------------------------------------------------------- characters

  predicate IsSentenceEnding(c: char) {
    c == '.' || c == '!' || c == '?' || c == ';' || c == ':' || c == '\U{3002}' ||
    c == '\U{FF01}' || c == '\U{FF1F}' || c == '\U{FF1B}' || c == '\U{FF1A}'
  }

  predicate IsClosingMark(c: char) {
    c == '"' || c == '\'' || c == '\U{201D}' || c == '\U{2019}' || c == '\U{300D}' ||
    c == '\U{300F}' || c == '\U{300B}' || c == '\U{3009}'
  }

  /** The closing bracket that belongs to an opening one, for either kind of reference. */
  function Closer(c: char, canonical: bool): Option<char> {
    if canonical then
      if c == '[' then Some(']')
      else if c == '\U{FF3B}' then Some('\U{FF3D}')
      else if c == '\U{3010}' then Some('\U{3011}')
      else None
    else
      if c == '(' then Some(')') else if c == '\U{FF08}' then Some('\U{FF09}') else None
  }

  /** What the pattern matches when tried at position `i`. */
  function MatchAt(s: string, i: nat, canonical: bool): Option<Reference> {
    if i + 2 >= |s| || Closer(s[i], canonical).None? || !IsDigit(s[i + 1]) || s[i + 1] == '0' then None
    else
      var closer := Closer(s[i], canonical).value;
      if s[i + 2] == closer then Some(Reference(i, i + 3, DigitValue(s[i + 1]), canonical))
      else if i + 3 < |s| && IsDigit(s[i + 2]) && s[i + 3] == closer
      then Some(Reference(i, i + 4, 10 * DigitValue(s[i + 1]) + DigitValue(s[i + 2]), canonical))
      else None
  }

  predicate Occurs(s: string, r: Reference) {
    MatchAt(s, r.start, r.canonical) == Some(r)
  }

  /** Inside a match there is no opening bracket and no white space. */
  lemma MatchShape(s: string, r: Reference)
    requires Occurs(s, r)
    ensures r.start + 3 <= r.end <= |s| && 1 <= r.ordinal <= 99
    ensures forall k, canonical :: r.start < k < r.end ==> Closer(s[k], canonical).None?
    ensures forall k :: r.start <= k < r.end ==> !IsSpace(s[k])
    ensures Closer(s[r.start], !r.canonical).None?
  {
  }

  lemma MatchBounds(s: string, r: Reference)
    requires Occurs(s, r)
    ensures r.start + 3 <= r.end <= |s|
  {
  }

  /** The bracket pairs of the two kinds of reference. */
  function Brackets(canonical: bool): set<(char, char)> {
    if canonical then {('[', ']'), ('\U{FF3B}', '\U{FF3D}'), ('\U{3010}', '\U{3011}')}
    else {('(', ')'), ('\U{FF08}', '\U{FF09}')}
  }

  /** A reference is a number from 1 to 99, written without leading zero, in a pair of brackets. */
  predicate IsBracketedNumber(s: string, r: Reference) {
    && r.start + 1 < r.end <= |s| && 1 <= r.ordinal <= 99
    && (s[r.start], s[r.end - 1]) in Brackets(r.canonical)
    && s[r.start + 1..r.end - 1] == Decimal(r.ordinal)
  }

  lemma SmallDecimal(n: nat)
    requires 1 <= n <= 99
    ensures Decimal(n) == if n < 10 then [Digit(n)] else [Digit(n / 10), Digit(n % 10)]
  {
    if n >= 10 {
      assert Decimal(n / 10) == [Digit(n / 10)];
    }
  }

  lemma ClosersAreBrackets(open: char, close: char, canonical: bool)
    ensures Closer(open, canonical) == Some(close) <==> (open, close) in Brackets(canonical)
  {
  }

  lemma MatchIsBracketedNumber(s: string, r: Reference)
    requires Occurs(s, r)
    ensures IsBracketedNumber(s, r)
  {
    MatchShape(s, r);
    SmallDecimal(r.ordinal);
    ClosersAreBrackets(s[r.start], s[r.end - 1], r.canonical);
    var a := s[r.start + 1];
    if r.end == r.start + 3 {
      assert r.ordinal == DigitValue(a) && Digit(r.ordinal) == a;
      assert s[r.start + 1..r.end - 1] == [a];
    } else {
      var b := s[r.start + 2];
      TwoDigits(a, b, r.ordinal);
      assert s[r.start + 1..r.end - 1] == [a, b];
    }
  }

  lemma TwoDigits(a: char, b: char, n: nat)
    requires IsDigit(a) && IsDigit(b) && a != '0' && n == 10 * DigitValue(a) + DigitValue(b)
    ensures n / 10 == DigitValue(a) && n % 10 == DigitValue(b) && 10 <= n <= 99
    ensures Digit(n / 10) == a && Digit(n % 10) == b
  {
  }

  lemma BracketedNumberMatches(s: string, r: Reference)
    requires IsBracketedNumber(s, r)
    ensures Occurs(s, r)
  {
    var inner := s[r.start + 1..r.end - 1];
    SmallDecimal(r.ordinal);
    ClosersAreBrackets(s[r.start], s[r.end - 1], r.canonical);
    assert inner[0] == s[r.start + 1];
    if r.ordinal < 10 {
      assert |inner| == 1 && r.end == r.start + 3;
    } else {
      assert |inner| == 2 && r.end == r.start + 4 && inner[1] == s[r.start + 2];
    }
  }

  /** What the two patterns match, said without matching: exactly the bracketed numbers. */
  lemma OccursExactly(s: string, r: Reference)
    ensures Occurs(s, r) <==> IsBracketedNumber(s, r)
  {
    if Occurs(s, r) {
      MatchIsBracketedNumber(s, r);
    } else if IsBracketedNumber(s, r) {
      BracketedNumberMatches(s, r);
    }
  }

  // ---------------------------------------------------------------- finding matches

  /** `finditer`: leftmost matches, resuming at the end of each. */
  function FindAll(s: string, i: nat, canonical: bool): seq<Reference>
    decreases |s| - i
  {
    if i >= |s| then []
    else
      match MatchAt(s, i, canonical)
      case Some(r) => [r] + FindAll(s, r.end, canonical)
      case None => FindAll(s, i + 1, canonical)
  }

  predicate ByStart(a: Reference, b: Reference) {
    a.start <= b.start
  }

  ghost predicate Apart(rs: seq<Reference>) {
    forall i, j :: 0 <= i < j < |rs| ==> rs[i].end <= rs[j].start && rs[i].start < rs[j].start
  }

  lemma NoMatchInside(s: string, r: Reference, q: Reference)
    requires Occurs(s, r) && Occurs(s, q) && r.canonical == q.canonical && r.start <= q.start
    ensures q == r || r.end <= q.start
  {
    MatchShape(s, r);
  }

  /** `found` lists the matches that start at `i` or later. */
  ghost predicate ListsFrom(s: string, i: nat, canonical: bool, found: seq<Reference>) {
    && (forall r :: r in found <==> i <= r.start && r.canonical == canonical && Occurs(s, r))
    && Apart(found)
  }

  lemma MatchThenRest(s: string, r: Reference, rest: seq<Reference>)
    requires Occurs(s, r) && ListsFrom(s, r.end, r.canonical, rest)
    ensures ListsFrom(s, r.start, r.canonical, [r] + rest)
  {
    MatchBounds(s, r);
    forall q: Reference | r.start <= q.start && q.canonical == r.canonical && Occurs(s, q) ensures q == r || q in rest {
      NoMatchInside(s, r, q);
    }
    forall j | 0 <= j < |rest| ensures r.end <= rest[j].start {
      assert rest[j] in rest;
    }
  }

  lemma NoMatchHere(s: string, i: nat, canonical: bool, found: seq<Reference>)
    requires MatchAt(s, i, canonical).None? && ListsFrom(s, i + 1, canonical, found)
    ensures ListsFrom(s, i, canonical, found)
  {
  }

  /** Resuming at the end of a match skips nothing. */
  lemma {:induction false} FindAllIsComplete(s: string, i: nat, canonical: bool)
    ensures ListsFrom(s, i, canonical, FindAll(s, i, canonical))
    decreases |s| - i
  {
    if i < |s| {
      match MatchAt(s, i, canonical)
      case None =>
        FindAllIsComplete(s, i + 1, canonical);
        NoMatchHere(s, i, canonical, FindAll(s, i + 1, canonical));
      case Some(r) =>
        MatchBounds(s, r);
        FindAllIsComplete(s, r.end, canonical);
        MatchThenRest(s, r, FindAll(s, r.end, canonical));
    }
  }

  method FindIter(s: string, canonical: bool) returns (found: seq<Reference>)
    ensures found == FindAll(s, 0, canonical)
  {
    found := [];
    var i := 0;
    while i < |s|
      invariant 0 <= i
      invariant found + FindAll(s, i, canonical) == FindAll(s, 0, canonical)
      decreases |s| - i
    {
      match MatchAt(s, i, canonical)
      case Some(r) => found := found + [r]; i := r.end;
      case None => i := i + 1;
    }
  }

  /** All references of both kinds, in text order. */
  function References(s: string): seq<Reference> {
    StableSort.Sort(FindAll(s, 0, true) + FindAll(s, 0, false), ByStart)
  }

  /** `all` lists every reference of `s` once, in text order. */
  ghost predicate Enumerates(s: string, all: seq<Reference>) {
    && (forall r :: r in all <==> Occurs(s, r))
    && Apart(all)
  }

  lemma {:induction false} DistinctCounts(xs: seq<Reference>, r: Reference)
    requires Distinct(xs)
    ensures multiset(xs)[r] <= 1
  {
    if xs != [] {
      var n := |xs| - 1;
      assert xs == xs[..n] + [xs[n]];
      DistinctCounts(xs[..n], r);
      assert r in multiset(xs[..n]) ==> r in xs[..n];
    }
  }

  lemma TwiceCounts(xs: seq<Reference>, i: nat, j: nat)
    requires i < j < |xs| && xs[i] == xs[j]
    ensures multiset(xs)[xs[i]] >= 2
  {
    assert xs == xs[..i] + [xs[i]] + xs[i + 1..j] + [xs[i]] + xs[j + 1..];
  }

  lemma PermutedDistinct(xs: seq<Reference>, ys: seq<Reference>)
    requires Distinct(xs) && multiset(xs) == multiset(ys)
    ensures Distinct(ys)
  {
    forall i, j | 0 <= i < j < |ys| ensures ys[i] != ys[j] {
      DistinctCounts(xs, ys[i]);
      if ys[i] == ys[j] {
        TwiceCounts(ys, i, j);
      }
    }
  }

  lemma ReferencesAreAll(s: string)
    ensures Enumerates(s, References(s))
  {
    var canonical, parens := FindAll(s, 0, true), FindAll(s, 0, false);
    FindAllIsComplete(s, 0, true);
    FindAllIsComplete(s, 0, false);
    var both := canonical + parens;
    StableSort.SortPermutes(both, ByStart);
    StableSort.SortSorts(both, ByStart);
    MergedIsEnumeration(s, canonical, parens, StableSort.Sort(both, ByStart));
  }

  lemma MergedIsEnumeration(s: string, canonical: seq<Reference>, parens: seq<Reference>, sorted: seq<Reference>)
    requires forall r :: r in canonical <==> r.canonical && Occurs(s, r)
    requires forall r :: r in parens <==> !r.canonical && Occurs(s, r)
    requires Apart(canonical) && Apart(parens)
    requires StableSort.Sorted(sorted, ByStart) && multiset(sorted) == multiset(canonical + parens)
    ensures Enumerates(s, sorted)
  {
    var both := canonical + parens;
    StableSort.SameElements(sorted, both);
    assert forall r :: r in both <==> r in canonical || r in parens;
    assert Distinct(both) by {
      forall i, j | 0 <= i < j < |both| ensures both[i] != both[j] {
        if i < |canonical| <= j {
          assert both[i] in canonical && both[j] in parens;
        }
      }
    }
    PermutedDistinct(both, sorted);
    forall i, j | 0 <= i < j < |sorted|
      ensures sorted[i].end <= sorted[j].start && sorted[i].start < sorted[j].start
    {
      assert sorted[i] in sorted && sorted[j] in sorted;
      DifferentMatchesAreApart(s, sorted[i], sorted[j]);
    }
  }

  lemma DifferentMatchesAreApart(s: string, a: Reference, b: Reference)
    requires Occurs(s, a) && Occurs(s, b) && a != b && a.start <= b.start
    ensures a.end <= b.start && a.start < b.start
  {
    MatchShape(s, a);
    MatchShape(s, b);
  }

  // ---------------------------------------------------------------- acceptance

  /** Where the white space in front of position `i` starts. */
  function PrefixEnd(s: string, i: nat): (e: nat)
    requires i <= |s|
    ensures e <= i
    ensures forall k :: e <= k < i ==> IsSpace(s[k])
    ensures e == 0 || !IsSpace(s[e - 1])
  {
    if i > 0 && IsSpace(s[i - 1]) then PrefixEnd(s, i - 1) else i
  }

  /** The character before any closing marks that end at `i`, or -1. */
  function Preceding(s: string, i: nat): (k: int)
    requires i <= |s|
    ensures -1 <= k < i
    ensures forall m :: k < m < i ==> IsClosingMark(s[m])
    ensures k == -1 || !IsClosingMark(s[k])
  {
    if i > 0 && IsClosingMark(s[i - 1]) then Preceding(s, i - 1) else i - 1
  }

  /** Past any closing marks that end at `e` stands a sentence ending. */
  predicate SentenceEndsAt(s: string, e: nat)
    requires e <= |s|
  {
    var k := Preceding(s, e);
    k >= 0 && IsSentenceEnding(s[k])
  }

  predicate FollowsSentence(s: string, i: nat)
    requires i <= |s|
  {
    SentenceEndsAt(s, PrefixEnd(s, i))
  }

  /** Which references count, stated over all references before this one. */
  ghost predicate Accepted(s: string, r: Reference)
    decreases r.start
  {
    && Occurs(s, r)
    && (|| r.canonical
        || FollowsSentence(s, r.start)
        || exists q: Reference ::
             q.start < r.start && q.end == PrefixEnd(s, r.start) && Accepted(s, q))
  }

  /** The ordinals of the accepted references in `rs`, each at its first occurrence. */
  ghost function FirstOrdinals(s: string, rs: seq<Reference>): seq<nat> {
    if rs == [] then []
    else
      var before, r := FirstOrdinals(s, rs[..|rs| - 1]), rs[|rs| - 1];
      if Accepted(s, r) && r.ordinal !in before then before + [r.ordinal] else before
  }

  ghost function Ordinals(s: string): seq<nat> {
    FirstOrdinals(s, References(s))
  }

  /** Only the end of the last accepted reference has to be remembered. */
  ghost predicate LastAcceptedEnd(s: string, rs: seq<Reference>, previous: Option<nat>) {
    && (previous.None? ==> forall q :: q in rs ==> !Accepted(s, q))
    && (previous.Some? ==>
          && (exists q :: q in rs && Accepted(s, q) && q.end == previous.value)
          && (forall q :: q in rs && Accepted(s, q) ==> q.end <= previous.value))
  }

  lemma LastEndSuffices(s: string, all: seq<Reference>, k: nat, previous: Option<nat>)
    requires Enumerates(s, all) && k < |all| && LastAcceptedEnd(s, all[..k], previous)
    ensures var r := all[k];
            && Occurs(s, r) && r.end <= |s| && r.start <= r.end
            && (Accepted(s, r) <==>
                  r.canonical || FollowsSentence(s, r.start) || previous == Some(PrefixEnd(s, r.start)))
  {
    var r := all[k];
    assert r in all;
    MatchShape(s, r);
    var prefixEnd := PrefixEnd(s, r.start);
    if previous == Some(prefixEnd) {
      var q :| q in all[..k] && Accepted(s, q) && q.end == prefixEnd;
      MatchShape(s, q);
    }
    if exists q: Reference :: q.start < r.start && q.end == prefixEnd && Accepted(s, q) {
      var q: Reference :| q.start < r.start && q.end == prefixEnd && Accepted(s, q);
      EarlierIsListed(s, all, k, q);
      var last :| last in all[..k] && Accepted(s, last) && last.end == previous.value;
      EndsBeforeSpace(s, all, k, last);
    }
  }

  lemma EarlierIsListed(s: string, all: seq<Reference>, k: nat, q: Reference)
    requires Enumerates(s, all) && k < |all| && Occurs(s, q) && q.start < all[k].start
    ensures q in all[..k]
  {
    assert q in all;
    var i :| 0 <= i < |all| && all[i] == q;
    assert i < k;
    assert all[..k][i] == q;
  }

  /** No reference ends inside the white space in front of a later one. */
  lemma EndsBeforeSpace(s: string, all: seq<Reference>, k: nat, q: Reference)
    requires Enumerates(s, all) && k < |all| && q in all[..k] && all[k].start <= |s|
    ensures q.end <= PrefixEnd(s, all[k].start)
  {
    assert q in all;
    MatchShape(s, q);
    var j :| 0 <= j < k && all[..k][j] == q;
    assert all[j].end <= all[k].start;
    assert !IsSpace(s[q.end - 1]);
  }

  lemma RememberEnd(s: string, all: seq<Reference>, k: nat, previous: Option<nat>)
    requires Enumerates(s, all) && k < |all| && LastAcceptedEnd(s, all[..k], previous)
    ensures LastAcceptedEnd(s, all[..k + 1], if Accepted(s, all[k]) then Some(all[k].end) else previous)
  {
    var r := all[k];
    assert all[..k + 1] == all[..k] + [r];
    if Accepted(s, r) {
      MatchShape(s, r);
      forall q | q in all[..k + 1] && Accepted(s, q) ensures q.end <= r.end {
        if q != r {
          var i :| 0 <= i < k && all[..k][i] == q;
          assert all[i].end <= all[k].start;
        }
      }
      assert r in all[..k + 1];
    }
  }

  lemma NextOrdinal(s: string, rs: seq<Reference>, k: nat)
    requires k < |rs|
    ensures var before := FirstOrdinals(s, rs[..k]);
            FirstOrdinals(s, rs[..k + 1]) ==
            if Accepted(s, rs[k]) && rs[k].ordinal !in before then before + [rs[k].ordinal] else before
  {
    assert rs[..k + 1][..k] == rs[..k];
  }

  /** The scanner's pass over the matches, with a list, a set and one remembered end. */
  method ScanMatches(content: string, matches: seq<Reference>) returns (ordinals: seq<nat>)
    requires Enumerates(content, matches)
    ensures ordinals == FirstOrdinals(content, matches)
  {
    ordinals := [];
    var seen: set<nat> := {};
    var previous: Option<nat> := None;
    for k := 0 to |matches|
      invariant ordinals == FirstOrdinals(content, matches[..k])
      invariant forall o :: o in seen <==> o in ordinals
      invariant LastAcceptedEnd(content, matches[..k], previous)
    {
      var r := matches[k];
      LastEndSuffices(content, matches, k, previous);
      RememberEnd(content, matches, k, previous);
      NextOrdinal(content, matches, k);
      var accepted := r.canonical;
      if !r.canonical {
        var prefixEnd := PrefixEnd(content, r.start);
        var preceding := Preceding(content, prefixEnd);
        accepted := (preceding >= 0 && IsSentenceEnding(content[preceding])) || previous == Some(prefixEnd);
      }
      if accepted {
        previous := Some(r.end);
        if r.ordinal !in seen {
          seen := seen + {r.ordinal};
          ordinals := ordinals + [r.ordinal];
        }
      }
    }
    assert matches[..|matches|] == matches;
  }

  method ReferencedOrdinals(content: string) returns (ordinals: seq<nat>)
    ensures ordinals == Ordinals(content)
  {
    var canonical := FindIter(content, true);
    var parens := FindIter(content, false);
    var matches := StableSort.Sort(canonical + parens, ByStart);
    ReferencesAreAll(content);
    ordinals := ScanMatches(content, matches);
  }

  // ---------------------------------------------------------------- what the result is

  /** `rs[i]` is the first accepted reference with ordinal `o`. */
  ghost predicate FirstIn(s: string, rs: seq<Reference>, o: nat, i: nat) {
    && i < |rs| && Accepted(s, rs[i]) && rs[i].ordinal == o
    && forall j :: 0 <= j < i ==> !(Accepted(s, rs[j]) && rs[j].ordinal == o)
  }

  ghost predicate InFirstOrder(s: string, rs: seq<Reference>, os: seq<nat>) {
    forall a, b, i: nat, j: nat ::
      0 <= a < b < |os| && FirstIn(s, rs, os[a], i) && FirstIn(s, rs, os[b], j) ==> i < j
  }

  ghost predicate HasOrdinal(s: string, r: Reference, o: nat) {
    Accepted(s, r) && r.ordinal == o
  }

  ghost predicate Refers(s: string, o: nat) {
    exists r :: HasOrdinal(s, r, o)
  }

  ghost predicate HasOrdinalIn(s: string, rs: seq<Reference>, o: nat) {
    exists r :: r in rs && HasOrdinal(s, r, o)
  }

  lemma HasOrdinalInLast(s: string, rs: seq<Reference>, o: nat)
    requires rs != []
    ensures HasOrdinalIn(s, rs, o) <==>
            HasOrdinalIn(s, rs[..|rs| - 1], o) || HasOrdinal(s, rs[|rs| - 1], o)
  {
    var front, last := rs[..|rs| - 1], rs[|rs| - 1];
    assert rs == front + [last];
    assert last in rs;
  }

  lemma {:induction false} FirstOrdinalsAreExact(s: string, rs: seq<Reference>)
    ensures var os := FirstOrdinals(s, rs);
            && (forall i, j :: 0 <= i < j < |os| ==> os[i] != os[j])
            && (forall o :: o in os <==> HasOrdinalIn(s, rs, o))
  {
    if rs != [] {
      FirstOrdinalsAreExact(s, rs[..|rs| - 1]);
      forall o ensures o in FirstOrdinals(s, rs) <==> HasOrdinalIn(s, rs, o) {
        HasOrdinalInLast(s, rs, o);
      }
    }
  }

  lemma {:induction false} FirstOrdinalsAreOrdered(s: string, rs: seq<Reference>)
    ensures InFirstOrder(s, rs, FirstOrdinals(s, rs))
  {
    if rs != [] {
      var n := |rs| - 1;
      var front := rs[..n];
      FirstOrdinalsAreOrdered(s, front);
      FirstOrdinalsAreExact(s, front);
      var before, os := FirstOrdinals(s, front), FirstOrdinals(s, rs);
      forall a, b, i: nat, j: nat | 0 <= a < b < |os| && FirstIn(s, rs, os[a], i) && FirstIn(s, rs, os[b], j)
        ensures i < j
      {
        assert os[a] == before[a] && os[a] in before;
        FirstInFront(s, rs, os[a], i);
        if j < n {
          assert FirstIn(s, front, os[b], j);
          assert front[j] in front && HasOrdinal(s, front[j], os[b]);
          assert HasOrdinalIn(s, front, os[b]);
          assert os[b] in before && b < |before|;
        }
      }
    }
  }

  lemma FirstInFront(s: string, rs: seq<Reference>, o: nat, i: nat)
    requires rs != [] && FirstIn(s, rs, o, i) && o in FirstOrdinals(s, rs[..|rs| - 1])
    ensures i < |rs| - 1 && FirstIn(s, rs[..|rs| - 1], o, i)
  {
    var front := rs[..|rs| - 1];
    FirstOrdinalsAreExact(s, front);
    var q :| q in front && HasOrdinal(s, q, o);
    var m :| 0 <= m < |front| && front[m] == q;
    assert rs[m] == q;
  }

  lemma EnumeratedOrdinals(s: string, all: seq<Reference>)
    requires Enumerates(s, all)
    ensures var os := FirstOrdinals(s, all);
            && (forall i, j :: 0 <= i < j < |os| ==> os[i] != os[j])
            && (forall o :: o in os <==> Refers(s, o))
            && InFirstOrder(s, all, os)
  {
    FirstOrdinalsAreExact(s, all);
    FirstOrdinalsAreOrdered(s, all);
    forall o, r | HasOrdinal(s, r, o) ensures HasOrdinalIn(s, all, o) {
      assert r in all;
    }
    assert forall o :: HasOrdinalIn(s, all, o) ==> Refers(s, o);
  }

  /** Exactly the ordinals of accepted references, without repetition, in the order in which each
      is first accepted. */
  lemma OrdinalsExact(s: string)
    ensures var os := Ordinals(s);
            && (forall i, j :: 0 <= i < j < |os| ==> os[i] != os[j])
            && (forall o :: o in os <==> Refers(s, o))
            && Enumerates(s, References(s))
            && InFirstOrder(s, References(s), os)
  {
    ReferencesAreAll(s);
    EnumeratedOrdinals(s, References(s));
  }

  /** In terms of the text: every bracketed number of the first kind is in the result, and every ordinal
      in it is written somewhere in brackets. */
  lemma OrdinalsAreWritten(s: string)
    ensures forall r :: IsBracketedNumber(s, r) && r.canonical ==> r.ordinal in Ordinals(s)
    ensures forall o :: o in Ordinals(s) ==> exists r :: IsBracketedNumber(s, r) && r.ordinal == o
  {
    OrdinalsExact(s);
    forall r | IsBracketedNumber(s, r) && r.canonical ensures r.ordinal in Ordinals(s) {
      OccursExactly(s, r);
      assert HasOrdinal(s, r, r.ordinal);
    }
    forall o | o in Ordinals(s) ensures exists r :: IsBracketedNumber(s, r) && r.ordinal == o {
      var r :| HasOrdinal(s, r, o);
      OccursExactly(s, r);
    }
  }

  lemma OrdinalsMembers(s: string)
    ensures forall o :: o in Ordinals(s) <==> Refers(s, o)
  {
    OrdinalsExact(s);
  }

  lemma ReferredIsPositive(s: string, o: nat)
    requires Refers(s, o)
    ensures 1 <= o <= 99
  {
    var r :| HasOrdinal(s, r, o);
    MatchShape(s, r);
  }
}
