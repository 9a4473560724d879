/** Saving an answer keeps the citations its text refers to; showing the history filters them again
    by the stored text, which is the stripped answer. */
module CitationFilters {
  import StableSort
  import opened Options
  import opened PythonText
  import opened CitationScanner

  // ---------------------------------------------------------------- stripping keeps references

  ghost predicate SameOrdinals(s: string, t: string) {
    forall o :: Refers(s, o) <==> Refers(t, o)
  }

  lemma {:induction false} ScanLeftIgnoresTail(t: string, c: char, i: nat)
    requires i <= |t|
    ensures PrefixEnd(t + [c], i) == PrefixEnd(t, i)
    ensures Preceding(t + [c], i) == Preceding(t, i)
  {
    if i > 0 {
      ScanLeftIgnoresTail(t, c, i - 1);
    }
  }

  lemma {:induction false} TailSpaceKeepsAccepted(t: string, c: char, r: Reference)
    requires IsSpace(c)
    ensures Accepted(t + [c], r) <==> Accepted(t, r)
    decreases r.start
  {
    assert Occurs(t + [c], r) <==> Occurs(t, r);
    if Occurs(t, r) {
      MatchShape(t, r);
      ScanLeftIgnoresTail(t, c, r.start);
      ScanLeftIgnoresTail(t, c, PrefixEnd(t, r.start));
      forall q: Reference | q.start < r.start ensures Accepted(t + [c], q) <==> Accepted(t, q) {
        TailSpaceKeepsAccepted(t, c, q);
      }
    }
  }

  lemma TailSpaceKeepsRefers(t: string, c: char, o: nat)
    requires IsSpace(c)
    ensures Refers(t + [c], o) <==> Refers(t, o)
  {
    if Refers(t + [c], o) {
      var r :| HasOrdinal(t + [c], r, o);
      TailSpaceKeepsAccepted(t, c, r);
      assert HasOrdinal(t, r, o);
    }
    if Refers(t, o) {
      var r :| HasOrdinal(t, r, o);
      TailSpaceKeepsAccepted(t, c, r);
      assert HasOrdinal(t + [c], r, o);
    }
  }

  lemma {:induction false} StripRightKeepsOrdinals(s: string)
    ensures SameOrdinals(s, StripRight(s))
  {
    if s != "" && IsSpace(s[|s| - 1]) {
      var t, c := s[..|s| - 1], s[|s| - 1];
      assert s == t + [c];
      forall o ensures Refers(s, o) <==> Refers(t, o) {
        TailSpaceKeepsRefers(t, c, o);
      }
      StripRightKeepsOrdinals(t);
    }
  }

  function Shifted(r: Reference): Reference {
    r.(start := r.start + 1, end := r.end + 1)
  }

  lemma {:induction false} HeadSpaceShiftsPrefixEnd(c: char, t: string, i: nat)
    requires i <= |t| && IsSpace(c)
    ensures PrefixEnd([c] + t, i + 1) == if PrefixEnd(t, i) == 0 then 0 else PrefixEnd(t, i) + 1
  {
    if i > 0 && IsSpace(t[i - 1]) {
      HeadSpaceShiftsPrefixEnd(c, t, i - 1);
    } else if i == 0 {
      assert PrefixEnd([c] + t, 0) == 0;
    }
  }

  lemma {:induction false} HeadSpaceShiftsPreceding(c: char, t: string, i: nat)
    requires i <= |t| && IsSpace(c)
    ensures Preceding([c] + t, i + 1) == Preceding(t, i) + 1
  {
    if i > 0 && IsClosingMark(t[i - 1]) {
      HeadSpaceShiftsPreceding(c, t, i - 1);
    }
  }

  lemma HeadSpaceShiftsMatches(c: char, t: string, r: Reference)
    requires IsSpace(c)
    ensures Occurs([c] + t, Shifted(r)) <==> Occurs(t, r)
    ensures Occurs([c] + t, r) ==> r.start > 0 && r.end > 0
  {
    if Occurs([c] + t, Shifted(r)) {
      MatchShape([c] + t, Shifted(r));
    }
  }

  lemma HeadSpaceKeepsSentence(c: char, t: string, e: nat)
    requires e <= |t| && IsSpace(c)
    ensures SentenceEndsAt([c] + t, e + 1) <==> SentenceEndsAt(t, e)
    ensures !SentenceEndsAt(t, 0) && !SentenceEndsAt([c] + t, 0)
  {
    HeadSpaceShiftsPreceding(c, t, e);
  }

  lemma HeadSpaceKeepsFollows(c: char, t: string, i: nat)
    requires i <= |t| && IsSpace(c)
    ensures FollowsSentence([c] + t, i + 1) <==> FollowsSentence(t, i)
  {
    HeadSpaceShiftsPrefixEnd(c, t, i);
    HeadSpaceKeepsSentence(c, t, PrefixEnd(t, i));
  }

  /** An accepted reference counts on its own or hangs on an earlier one. */
  lemma AcceptedThrough(s: string, r: Reference) returns (q: Option<Reference>)
    requires Accepted(s, r)
    ensures Occurs(s, r) && r.start <= |s|
    ensures q.None? ==> r.canonical || FollowsSentence(s, r.start)
    ensures q.Some? ==> q.value.start < r.start && q.value.end == PrefixEnd(s, r.start) && Accepted(s, q.value)
  {
    MatchBounds(s, r);
    if r.canonical || FollowsSentence(s, r.start) {
      q := None;
    } else {
      var p: Reference :| p.start < r.start && p.end == PrefixEnd(s, r.start) && Accepted(s, p);
      q := Some(p);
    }
  }

  lemma HangsOn(s: string, r: Reference, q: Reference)
    requires Occurs(s, r) && r.start <= |s| && q.start < r.start && q.end == PrefixEnd(s, r.start) && Accepted(s, q)
    ensures Accepted(s, r)
  {
  }

  lemma StandsAlone(s: string, r: Reference)
    requires Occurs(s, r) && r.start <= |s| && (r.canonical || FollowsSentence(s, r.start))
    ensures Accepted(s, r)
  {
  }

  lemma {:induction false} HeadSpaceKeepsAccepted(c: char, t: string, r: Reference)
    requires IsSpace(c) && Accepted(t, r)
    ensures Accepted([c] + t, Shifted(r))
    decreases r.start
  {
    var q := AcceptedThrough(t, r);
    HeadSpaceShiftsMatches(c, t, r);
    if q.None? {
      HeadSpaceKeepsFollows(c, t, r.start);
      StandsAlone([c] + t, Shifted(r));
    } else {
      MatchBounds(t, q.value);
      HeadSpaceShiftsPrefixEnd(c, t, r.start);
      HeadSpaceKeepsAccepted(c, t, q.value);
      HangsOn([c] + t, Shifted(r), Shifted(q.value));
    }
  }

  lemma {:induction false} HeadSpaceAddsNoAccepted(c: char, t: string, r: Reference)
    requires IsSpace(c) && Accepted([c] + t, Shifted(r))
    ensures Accepted(t, r)
    decreases r.start
  {
    var q := AcceptedThrough([c] + t, Shifted(r));
    HeadSpaceShiftsMatches(c, t, r);
    MatchBounds(t, r);
    if q.None? {
      HeadSpaceKeepsFollows(c, t, r.start);
      StandsAlone(t, r);
    } else {
      HeadSpaceShiftsPrefixEnd(c, t, r.start);
      HeadSpaceShiftsMatches(c, t, q.value);
      var p := q.value.(start := q.value.start - 1, end := q.value.end - 1);
      assert Shifted(p) == q.value;
      HeadSpaceAddsNoAccepted(c, t, p);
      HangsOn(t, r, p);
    }
  }

  lemma HeadSpaceKeepsRefers(c: char, t: string, o: nat)
    requires IsSpace(c)
    ensures Refers([c] + t, o) <==> Refers(t, o)
  {
    if Refers([c] + t, o) {
      var r :| HasOrdinal([c] + t, r, o);
      HeadSpaceShiftsMatches(c, t, r);
      var p := r.(start := r.start - 1, end := r.end - 1);
      assert Shifted(p) == r;
      HeadSpaceAddsNoAccepted(c, t, p);
      assert HasOrdinal(t, p, o);
    }
    if Refers(t, o) {
      var r :| HasOrdinal(t, r, o);
      HeadSpaceKeepsAccepted(c, t, r);
      assert HasOrdinal([c] + t, Shifted(r), o);
    }
  }

  lemma {:induction false} StripLeftKeepsOrdinals(s: string)
    ensures SameOrdinals(s, StripLeft(s))
  {
    if s != "" && IsSpace(s[0]) {
      var c, t := s[0], s[1..];
      assert s == [c] + t;
      forall o ensures Refers(s, o) <==> Refers(t, o) {
        HeadSpaceKeepsRefers(c, t, o);
      }
      StripLeftKeepsOrdinals(t);
    }
  }

  /** Stripping the answer changes no reference number. */
  lemma StripKeepsOrdinals(s: string)
    ensures forall o :: o in Ordinals(Strip(s)) <==> o in Ordinals(s)
  {
    StripLeftKeepsOrdinals(s);
    StripRightKeepsOrdinals(StripLeft(s));
    OrdinalsMembers(s);
    OrdinalsMembers(Strip(s));
  }

  // ---------------------------------------------------------------- saving and showing

  /** `source` stands for the guide, chunk, page and hash fields of a citation. */
  datatype Citation = Citation(ordinal: Option<nat>, source: string)

  datatype Row = Row(ordinal: nat, source: string)

  /** `citation.ordinal or position`: an absent or zero ordinal means the one-based position. */
  function EffectiveOrdinal(c: Citation, position: nat): nat {
    if c.ordinal.Some? && c.ordinal.value != 0 then c.ordinal.value else position
  }

  ghost function Kept(ordinals: seq<nat>, citations: seq<Citation>): seq<Citation> {
    if citations == [] then []
    else
      var n := |citations| - 1;
      var ordinal := EffectiveOrdinal(citations[n], n + 1);
      Kept(ordinals, citations[..n]) +
      if ordinal in ordinals then [citations[n].(ordinal := Some(ordinal))] else []
  }

  method ReferencedChatCitations(content: string, citations: seq<Citation>) returns (selected: seq<Citation>)
    ensures selected == Kept(Ordinals(content), citations)
  {
    var ordinals := ReferencedOrdinals(content);
    selected := [];
    for i := 0 to |citations|
      invariant selected == Kept(ordinals, citations[..i])
    {
      var ordinal := EffectiveOrdinal(citations[i], i + 1);
      assert citations[..i + 1][..i] == citations[..i];
      if ordinal in ordinals {
        selected := selected + [citations[i].(ordinal := Some(ordinal))];
      }
    }
    assert citations[..|citations|] == citations;
  }

  /** The rows to insert, refused when two of them claim the same ordinal. */
  method IndexedCitations(citations: seq<Citation>) returns (rows: Option<seq<Row>>)
    ensures rows == Indexed(citations)
  {
    var indexed: seq<Row> := [];
    var persisted: set<nat> := {};
    for i := 0 to |citations|
      invariant Indexed(citations[..i]) == Some(indexed)
      invariant forall o :: o in persisted <==> Claims(indexed, o)
    {
      var ordinal := EffectiveOrdinal(citations[i], i + 1);
      assert citations[..i + 1][..i] == citations[..i];
      if ordinal in persisted {
        IndexedFailsOnward(citations, i + 1);
        return None;
      }
      ghost var before := indexed;
      persisted := persisted + {ordinal};
      indexed := indexed + [Row(ordinal, citations[i].source)];
      forall o ensures Claims(indexed, o) <==> Claims(before, o) || o == ordinal {
        ClaimsSnoc(before, Row(ordinal, citations[i].source), o);
      }
    }
    assert citations[..|citations|] == citations;
    return Some(indexed);
  }

  predicate Claims(rows: seq<Row>, o: nat) {
    exists k :: 0 <= k < |rows| && rows[k].ordinal == o
  }

  lemma ClaimsSnoc(rows: seq<Row>, row: Row, o: nat)
    ensures Claims(rows + [row], o) <==> Claims(rows, o) || row.ordinal == o
  {
    if row.ordinal == o {
      assert (rows + [row])[|rows|].ordinal == o;
    }
    if Claims(rows, o) {
      var k :| 0 <= k < |rows| && rows[k].ordinal == o;
      assert (rows + [row])[k].ordinal == o;
    }
  }

  function Indexed(citations: seq<Citation>): Option<seq<Row>> {
    if citations == [] then Some([])
    else
      var n := |citations| - 1;
      var front := Indexed(citations[..n]);
      var ordinal := EffectiveOrdinal(citations[n], n + 1);
      if front.None? || Claims(front.value, ordinal) then None
      else Some(front.value + [Row(ordinal, citations[n].source)])
  }

  lemma {:induction false} IndexedFailsOnward(citations: seq<Citation>, k: nat)
    requires k <= |citations| && Indexed(citations[..k]).None?
    ensures Indexed(citations).None?
    decreases |citations| - k
  {
    if k == |citations| {
      assert citations[..k] == citations;
    } else {
      assert citations[..k + 1][..k] == citations[..k];
      IndexedFailsOnward(citations, k + 1);
    }
  }

  datatype Message = Message(content: string, rows: seq<Row>)

  /** What is stored for a generated answer: its stripped text and the rows of the kept citations. */
  ghost function Saved(answer: string, candidates: seq<Citation>): Option<Message> {
    match Indexed(Kept(Ordinals(answer), candidates))
    case None => None
    case Some(rows) => Some(Message(Strip(answer), rows))
  }

  /** The history view: the rows whose ordinal the stored text refers to. */
  ghost function Shown(m: Message): seq<Row> {
    Filtered(Ordinals(m.content), m.rows)
  }

  function Filtered(ordinals: seq<nat>, rows: seq<Row>): seq<Row> {
    if rows == [] then []
    else Filtered(ordinals, rows[..|rows| - 1]) +
         if rows[|rows| - 1].ordinal in ordinals then [rows[|rows| - 1]] else []
  }

  lemma {:induction false} FilterKeepsReferenced(ordinals: seq<nat>, rows: seq<Row>)
    requires forall i :: 0 <= i < |rows| ==> rows[i].ordinal in ordinals
    ensures Filtered(ordinals, rows) == rows
  {
    if rows != [] {
      FilterKeepsReferenced(ordinals, rows[..|rows| - 1]);
      assert rows == rows[..|rows| - 1] + [rows[|rows| - 1]];
    }
  }

  /** The history view shows a stored row exactly when the text refers to its number, in order. */
  lemma {:induction false} FilteredExactly(ordinals: seq<nat>, rows: seq<Row>)
    ensures forall row :: row in Filtered(ordinals, rows) <==> row in rows && row.ordinal in ordinals
    ensures Filtered(ordinals, rows) == StableSort.Select(rows, (row: Row) => row.ordinal in ordinals)
  {
    if rows != [] {
      FilteredExactly(ordinals, rows[..|rows| - 1]);
      assert rows == rows[..|rows| - 1] + [rows[|rows| - 1]];
    }
  }

  /** Rows are refused exactly when two citations claim the same number. */
  lemma {:induction false} IndexedExactly(citations: seq<Citation>)
    ensures Indexed(citations).Some? <==>
            forall i, j :: 0 <= i < j < |citations| ==>
              EffectiveOrdinal(citations[i], i + 1) != EffectiveOrdinal(citations[j], j + 1)
    ensures Indexed(citations).Some? ==>
              && |Indexed(citations).value| == |citations|
              && forall i :: 0 <= i < |citations| ==>
                   Indexed(citations).value[i] == Row(EffectiveOrdinal(citations[i], i + 1), citations[i].source)
  {
    if citations != [] {
      var n := |citations| - 1;
      IndexedExactly(citations[..n]);
      var front := Indexed(citations[..n]);
      if front.Some? && Claims(front.value, EffectiveOrdinal(citations[n], n + 1)) {
        var k :| 0 <= k < |front.value| && front.value[k].ordinal == EffectiveOrdinal(citations[n], n + 1);
        assert citations[..n][k] == citations[k];
      } else if front.None? {
        var i, j :|
          0 <= i < j < n && EffectiveOrdinal(citations[..n][i], i + 1) == EffectiveOrdinal(citations[..n][j], j + 1);
        assert citations[..n][i] == citations[i] && citations[..n][j] == citations[j];
      }
    }
  }

  predicate Numbered(c: Citation, ordinals: seq<nat>) {
    c.ordinal.Some? && c.ordinal.value in ordinals
  }

  lemma {:induction false} KeptAreReferenced(ordinals: seq<nat>, citations: seq<Citation>)
    ensures forall c :: c in Kept(ordinals, citations) ==> Numbered(c, ordinals)
  {
    if citations != [] {
      KeptAreReferenced(ordinals, citations[..|citations| - 1]);
    }
  }

  lemma {:induction false} IndexedKeepsOrdinals(citations: seq<Citation>)
    requires forall i :: 0 <= i < |citations| ==> citations[i].ordinal.Some? && citations[i].ordinal.value > 0
    ensures Indexed(citations).Some? ==>
              var rows := Indexed(citations).value;
              |rows| == |citations| &&
              forall i :: 0 <= i < |rows| ==> rows[i] == Row(citations[i].ordinal.value, citations[i].source)
  {
    if citations != [] {
      IndexedKeepsOrdinals(citations[..|citations| - 1]);
    }
  }

  /** Every citation kept at save time is shown again: the history filter drops nothing. */
  lemma EverySavedCitationIsShown(answer: string, candidates: seq<Citation>)
    requires Saved(answer, candidates).Some?
    ensures var m := Saved(answer, candidates).value;
            && Shown(m) == m.rows
            && |m.rows| == |Kept(Ordinals(answer), candidates)|
  {
    StripKeepsOrdinals(answer);
    OrdinalsMembers(answer);
    KeptRowsSurvive(answer, Ordinals(answer), Ordinals(Strip(answer)), candidates);
  }

  lemma KeptRowsSurvive(answer: string, ordinals: seq<nat>, stored: seq<nat>, candidates: seq<Citation>)
    requires forall o :: o in ordinals <==> o in stored
    requires forall o :: o in ordinals ==> Refers(answer, o)
    requires Indexed(Kept(ordinals, candidates)).Some?
    ensures var rows := Indexed(Kept(ordinals, candidates)).value;
            Filtered(stored, rows) == rows && |rows| == |Kept(ordinals, candidates)|
  {
    var kept := Kept(ordinals, candidates);
    KeptAreReferenced(ordinals, candidates);
    forall i | 0 <= i < |kept| ensures Numbered(kept[i], ordinals) && kept[i].ordinal.value > 0 {
      assert kept[i] in kept;
      ReferredIsPositive(answer, kept[i].ordinal.value);
    }
    IndexedKeepsOrdinals(kept);
    FilterKeepsReferenced(stored, Indexed(kept).value);
  }

  /** A citation keeps its own number; one without a number, or numbered 0, has its one-based position. */
  lemma KeptNumbers(ordinals: seq<nat>, citations: seq<Citation>, i: nat)
    requires i < |citations|
    ensures citations[i].ordinal == None || citations[i].ordinal == Some(0) ==>
              (i + 1 in ordinals ==> Citation(Some(i + 1), citations[i].source) in Kept(ordinals, citations))
    ensures citations[i].ordinal.Some? && citations[i].ordinal.value > 0 ==>
              (citations[i].ordinal.value in ordinals ==> citations[i] in Kept(ordinals, citations))
    ensures forall c :: c in Kept(ordinals, citations) ==> c.ordinal.Some? && c.ordinal.value in ordinals
  {
    KeptExactlyWhenReferenced(ordinals, citations, i);
    KeptAreReferenced(ordinals, citations);
  }

  /** And nothing referenced is lost: a candidate is kept exactly when its number is referenced. */
  lemma {:induction false} KeptExactlyWhenReferenced(ordinals: seq<nat>, citations: seq<Citation>, i: nat)
    requires i < |citations|
    ensures var ordinal := EffectiveOrdinal(citations[i], i + 1);
            ordinal in ordinals ==> citations[i].(ordinal := Some(ordinal)) in Kept(ordinals, citations)
    ensures forall c :: c in Kept(ordinals, citations) ==>
              exists k :: 0 <= k < |citations| &&
                c == citations[k].(ordinal := Some(EffectiveOrdinal(citations[k], k + 1))) &&
                EffectiveOrdinal(citations[k], k + 1) in ordinals
  {
    var n := |citations| - 1;
    if n > 0 {
      KeptExactlyWhenReferenced(ordinals, citations[..n], if i < n then i else 0);
    }
    var front := Kept(ordinals, citations[..n]);
    forall c | c in Kept(ordinals, citations)
      ensures exists k :: 0 <= k < |citations| &&
                c == citations[k].(ordinal := Some(EffectiveOrdinal(citations[k], k + 1))) &&
                EffectiveOrdinal(citations[k], k + 1) in ordinals
    {
      if c in front {
        var k :| 0 <= k < n && c == citations[..n][k].(ordinal := Some(EffectiveOrdinal(citations[..n][k], k + 1))) &&
                 EffectiveOrdinal(citations[..n][k], k + 1) in ordinals;
        assert citations[..n][k] == citations[k];
      } else {
        assert c == citations[n].(ordinal := Some(EffectiveOrdinal(citations[n], n + 1)));
      }
    }
  }
}
