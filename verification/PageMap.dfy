/** The page map and control ranges built from the guide, and the rules that validate them. */
module PageMap {
  import opened Options
  import opened Elements

  // ---------------------------------------------------------------- categories

  datatype Category = Category(number: int, pageStart: int, pageEnd: int, firstControlPage: int, intro: string)

  const CATEGORIES: seq<Category> := [
    Category(1, 7, 171, 12, "UNIX-INTRO"),
    Category(2, 172, 270, 177, "WINDOWS-INTRO"),
    Category(3, 271, 352, 274, "WEB-SERVICE-INTRO"),
    Category(4, 353, 386, 356, "SECURITY-EQUIPMENT-INTRO"),
    Category(5, 387, 466, 391, "NETWORK-EQUIPMENT-INTRO"),
    Category(6, 467, 551, 472, "CONTROL-SYSTEM-INTRO"),
    Category(7, 552, 592, 555, "PC-INTRO"),
    Category(8, 593, 669, 596, "DBMS-INTRO"),
    Category(9, 670, 675, 672, "MOBILE-INTRO"),
    Category(10, 676, 786, 679, "WEB-APP-INTRO"),
    Category(11, 787, 850, 790, "VIRTUALIZATION-INTRO"),
    Category(12, 851, 873, 854, "CLOUD-INTRO")
  ]

  predicate Holds(c: Category, page: int) {
    c.pageStart <= page <= c.pageEnd
  }

  /** The categories cover `first` to `last` without gap or overlap, under different numbers. */
  ghost predicate Tiling(cats: seq<Category>, first: int, last: int) {
    && cats != [] && cats[0].pageStart == first && cats[|cats| - 1].pageEnd == last
    && (forall i :: 0 <= i < |cats| ==> cats[i].pageStart <= cats[i].pageEnd)
    && (forall i :: 0 < i < |cats| ==> cats[i].pageStart == cats[i - 1].pageEnd + 1)
    && (forall i, j :: 0 <= i < j < |cats| ==> cats[i].number != cats[j].number)
  }

  lemma GuideIsTiled()
    ensures Tiling(CATEGORIES, 7, 873)
  {
    NumbersDiffer();
    PagesFollow();
  }

  lemma NumbersDiffer()
    ensures forall i, j :: 0 <= i < j < |CATEGORIES| ==> CATEGORIES[i].number != CATEGORIES[j].number
  {
    assert forall i :: 0 <= i < |CATEGORIES| ==> CATEGORIES[i].number == i + 1;
  }

  lemma PagesFollow()
    ensures forall i :: 0 <= i < |CATEGORIES| ==> CATEGORIES[i].pageStart <= CATEGORIES[i].pageEnd
    ensures forall i :: 0 < i < |CATEGORIES| ==> CATEGORIES[i].pageStart == CATEGORIES[i - 1].pageEnd + 1
  {
  }

  /** The first category that holds the page. */
  function CategoryFor(cats: seq<Category>, page: int): Option<Category> {
    if cats == [] then None else if Holds(cats[0], page) then Some(cats[0]) else CategoryFor(cats[1..], page)
  }

  lemma {:induction false} TilesAreOrdered(cats: seq<Category>, first: int, last: int, i: nat, j: nat)
    requires Tiling(cats, first, last) && i < j < |cats|
    ensures cats[i].pageEnd < cats[j].pageStart
    decreases j
  {
    if i + 1 < j {
      TilesAreOrdered(cats, first, last, i, j - 1);
    }
  }

  /** The position of the category that holds the page, among the first `n`. */
  ghost function TileAmong(cats: seq<Category>, first: int, last: int, page: int, n: nat): (i: nat)
    requires Tiling(cats, first, last) && 0 < n <= |cats| && first <= page <= cats[n - 1].pageEnd
    ensures i < n && Holds(cats[i], page)
  {
    if Holds(cats[n - 1], page) then n - 1 else TileAmong(cats, first, last, page, n - 1)
  }

  ghost function Tile(cats: seq<Category>, first: int, last: int, page: int): (i: nat)
    requires Tiling(cats, first, last) && first <= page <= last
    ensures i < |cats| && Holds(cats[i], page)
  {
    TileAmong(cats, first, last, page, |cats|)
  }

  lemma {:induction false} FirstHolding(cats: seq<Category>, page: int, i: nat)
    requires i < |cats| && Holds(cats[i], page)
    requires forall j :: 0 <= j < |cats| && Holds(cats[j], page) ==> j == i
    ensures CategoryFor(cats, page) == Some(cats[i])
  {
    if i > 0 {
      assert !Holds(cats[0], page);
      FirstHolding(cats[1..], page, i - 1);
    }
  }

  lemma TileIsUnique(cats: seq<Category>, first: int, last: int, page: int, j: nat)
    requires Tiling(cats, first, last) && first <= page <= last && j < |cats| && Holds(cats[j], page)
    ensures j == Tile(cats, first, last, page)
  {
    var i := Tile(cats, first, last, page);
    if i < j {
      TilesAreOrdered(cats, first, last, i, j);
    } else if j < i {
      TilesAreOrdered(cats, first, last, j, i);
    }
  }

  /** In a tiling the category of a page is the only one that holds it. */
  lemma CategoryIsTheTile(cats: seq<Category>, first: int, last: int, page: int)
    requires Tiling(cats, first, last) && first <= page <= last
    ensures CategoryFor(cats, page) == Some(cats[Tile(cats, first, last, page)])
    ensures forall j :: 0 <= j < |cats| && Holds(cats[j], page) ==> j == Tile(cats, first, last, page)
  {
    forall j | 0 <= j < |cats| && Holds(cats[j], page) ensures j == Tile(cats, first, last, page) {
      TileIsUnique(cats, first, last, page, j);
    }
    FirstHolding(cats, page, Tile(cats, first, last, page));
  }

  // ---------------------------------------------------------------- the page loop

  /** What the control pattern finds at the start of each page, `None` when it finds nothing. */
  type Texts = int -> Option<string>

  function ControlAtPageStart(texts: Texts, c: Category, page: int): Option<string> {
    if page < c.firstControlPage then None else texts(page)
  }

  predicate Names(found: Option<string>) {
    found.Some? && found.value != ""
  }

  /** The control of a page, without any memory per category: the control that starts on it, else the
      introduction on the first page of a category, else the control of the page before. */
  ghost function ControlOf(cats: seq<Category>, first: int, last: int, texts: Texts, page: int): string
    requires Tiling(cats, first, last) && first <= page <= last
    decreases page - first
  {
    var i := Tile(cats, first, last, page);
    var c := cats[i];
    var found := ControlAtPageStart(texts, c, page);
    if Names(found) then found.value
    else if page == c.pageStart then c.intro
    else FirstStartsTile(cats, first, last, i, page); ControlOf(cats, first, last, texts, page - 1)
  }

  lemma FirstStartsTile(cats: seq<Category>, first: int, last: int, i: nat, page: int)
    requires Tiling(cats, first, last) && i < |cats| && Holds(cats[i], page) && page != cats[i].pageStart
    ensures first < page
  {
    if i > 0 {
      TilesAreOrdered(cats, first, last, 0, i);
    }
  }

  /** Up to its first control page a category keeps its introduction, whatever the text holds; from there
      on a control found on a page is assigned to it. */
  lemma {:induction false} IntroductionComesFirst(
    cats: seq<Category>, first: int, last: int, texts: Texts, page: int, i: nat)
    requires Tiling(cats, first, last) && first <= page <= last && i < |cats| && Holds(cats[i], page)
    ensures page < cats[i].firstControlPage ==> ControlOf(cats, first, last, texts, page) == cats[i].intro
    ensures page >= cats[i].firstControlPage && texts(page).Some? && texts(page).value != "" ==>
              ControlOf(cats, first, last, texts, page) == texts(page).value
    ensures page >= cats[i].firstControlPage && texts(page) in {None, Some("")} && page > cats[i].pageStart ==>
              first < page && ControlOf(cats, first, last, texts, page) == ControlOf(cats, first, last, texts, page - 1)
    decreases page - first
  {
    TileIsUnique(cats, first, last, page, i);
    if page > cats[i].pageStart {
      FirstStartsTile(cats, first, last, i, page);
      IntroductionComesFirst(cats, first, last, texts, page - 1, i);
    }
  }

  datatype Page = Page(number: int, index: int, printed: int, controls: seq<string>)

  datatype Row = Row(control: string, pageStart: int, pageEnd: int)

  /** The row of a control runs from the first to the last page it is assigned to; `ids[k]` is the
      control of page `first + k`. */
  ghost predicate Spans(ids: seq<string>, first: int, row: Row) {
    && first <= row.pageStart <= row.pageEnd < first + |ids|
    && ids[row.pageStart - first] == row.control && ids[row.pageEnd - first] == row.control
    && forall k :: 0 <= k < |ids| && ids[k] == row.control ==> row.pageStart <= first + k <= row.pageEnd
  }

  /** One row for every control that occurs, in the order of their first pages. */
  ghost predicate Describes(ids: seq<string>, first: int, rows: seq<Row>) {
    && (forall r :: 0 <= r < |rows| ==> Spans(ids, first, rows[r]))
    && (forall k :: 0 <= k < |ids| ==> HasRow(rows, ids[k]))
    && (forall r, q :: 0 <= r < q < |rows| ==> rows[r].pageStart < rows[q].pageStart)
  }

  ghost predicate HasRow(rows: seq<Row>, id: string) {
    exists r :: 0 <= r < |rows| && rows[r].control == id
  }

  /** Position of the row of a control, or the number of rows when there is none. */
  function RowIndex(rows: seq<Row>, id: string): (r: nat)
    ensures r <= |rows|
    ensures r < |rows| ==> rows[r].control == id
    ensures r == |rows| ==> forall q :: 0 <= q < |rows| ==> rows[q].control != id
  {
    if rows == [] then 0 else if rows[0].control == id then 0
    else
      var r := RowIndex(rows[1..], id);
      assert forall q :: 1 <= q < |rows| ==> rows[q] == rows[1..][q - 1];
      r + 1
  }

  /** `control_rows.get(...)`, then a new row or a later end. */
  method NotePage(rows: seq<Row>, id: string, page: int, ghost ids: seq<string>, ghost first: int) returns (r: seq<Row>)
    requires Describes(ids, first, rows) && page == first + |ids|
    ensures Describes(ids + [id], first, r)
  {
    var at := RowIndex(rows, id);
    if at == |rows| {
      r := rows + [Row(id, page, page)];
      NewRow(ids, first, rows, id);
    } else {
      r := rows[at := Row(id, rows[at].pageStart, page)];
      LaterEnd(ids, first, rows, at, id, r);
    }
  }

  lemma NewRow(ids: seq<string>, first: int, rows: seq<Row>, id: string)
    requires Describes(ids, first, rows) && forall q :: 0 <= q < |rows| ==> rows[q].control != id
    ensures Describes(ids + [id], first, rows + [Row(id, first + |ids|, first + |ids|)])
  {
    var more := rows + [Row(id, first + |ids|, first + |ids|)];
    forall k | 0 <= k < |ids + [id]| ensures HasRow(more, (ids + [id])[k]) {
      if k == |ids| {
        assert more[|rows|].control == id;
      } else {
        assert HasRow(rows, ids[k]);
        var r :| 0 <= r < |rows| && rows[r].control == ids[k];
        assert more[r].control == ids[k];
      }
    }
    forall r | 0 <= r < |rows| ensures Spans(ids + [id], first, rows[r]) {
      assert Spans(ids, first, rows[r]);
    }
    forall k | 0 <= k < |ids| ensures ids[k] != id {
      assert HasRow(rows, ids[k]);
    }
  }

  lemma LaterEnd(ids: seq<string>, first: int, rows: seq<Row>, at: nat, id: string, more: seq<Row>)
    requires Describes(ids, first, rows) && at < |rows| && rows[at].control == id
    requires more == rows[at := Row(id, rows[at].pageStart, first + |ids|)]
    ensures Describes(ids + [id], first, more)
  {
    forall k | 0 <= k < |ids + [id]| ensures HasRow(more, (ids + [id])[k]) {
      RowRemains(ids, first, rows, at, id, more, k);
    }
    forall r | 0 <= r < |more| ensures Spans(ids + [id], first, more[r]) {
      if r == at {
        SpanGrows(ids, first, rows[at], more[at]);
      } else {
        OneRowEach(ids, first, rows, r, at);
        SpanStays(ids, first, rows[r], id);
      }
    }
    forall r, q | 0 <= r < q < |more| ensures more[r].pageStart < more[q].pageStart {
      assert more[r].pageStart == rows[r].pageStart && more[q].pageStart == rows[q].pageStart;
    }
  }

  lemma SpanGrows(ids: seq<string>, first: int, row: Row, later: Row)
    requires Spans(ids, first, row) && later == Row(row.control, row.pageStart, first + |ids|)
    ensures Spans(ids + [row.control], first, later)
  {
  }

  lemma SpanStays(ids: seq<string>, first: int, row: Row, id: string)
    requires Spans(ids, first, row) && row.control != id
    ensures Spans(ids + [id], first, row)
  {
  }

  lemma RowRemains(ids: seq<string>, first: int, rows: seq<Row>, at: nat, id: string, more: seq<Row>, k: nat)
    requires Describes(ids, first, rows) && at < |rows| && rows[at].control == id
    requires more == rows[at := Row(id, rows[at].pageStart, first + |ids|)] && k <= |ids|
    ensures HasRow(more, (ids + [id])[k])
  {
    if k == |ids| {
      assert more[at].control == id;
    } else {
      assert HasRow(rows, ids[k]);
      var r :| 0 <= r < |rows| && rows[r].control == ids[k];
      assert more[r].control == ids[k];
    }
  }

  lemma OneRowEach(ids: seq<string>, first: int, rows: seq<Row>, r: nat, q: nat)
    requires Describes(ids, first, rows) && r < |rows| && q < |rows| && r != q
    ensures rows[r].control != rows[q].control
  {
    assert Spans(ids, first, rows[r]) && Spans(ids, first, rows[q]);
  }

  /** The memory of the loop before page `page`: untouched categories still hold their introduction, and
      the category of the page just handled holds its control. */
  ghost predicate Remembers(
    cats: seq<Category>, first: int, last: int, texts: Texts, page: int, current: map<int, string>)
    requires Tiling(cats, first, last) && first <= page <= last + 1
  {
    forall i :: 0 <= i < |cats| ==>
      && cats[i].number in current
      && (cats[i].pageStart >= page ==> current[cats[i].number] == cats[i].intro)
      && (page > first && Holds(cats[i], page - 1) ==>
          current[cats[i].number] == ControlOf(cats, first, last, texts, page - 1))
  }

  ghost function Assigned(cats: seq<Category>, first: int, last: int, texts: Texts, n: nat): (ids: seq<string>)
    requires Tiling(cats, first, last) && first + n <= last + 1
    ensures |ids| == n
    ensures forall k :: 0 <= k < n ==> ids[k] == ControlOf(cats, first, last, texts, first + k)
  {
    seq(n, k requires 0 <= k < n => ControlOf(cats, first, last, texts, first + k))
  }

  /** One update of the per-category memory. */
  lemma MemoryStep(
    cats: seq<Category>, first: int, last: int, texts: Texts, page: int,
    current: map<int, string>, next: map<int, string>)
    requires Tiling(cats, first, last) && first <= page <= last
    requires Remembers(cats, first, last, texts, page, current)
    requires var c := cats[Tile(cats, first, last, page)];
             var found := ControlAtPageStart(texts, c, page);
             next == if Names(found) then current[c.number := found.value] else current
    ensures var c := cats[Tile(cats, first, last, page)];
            c.number in next && next[c.number] == ControlOf(cats, first, last, texts, page)
    ensures Remembers(cats, first, last, texts, page + 1, next)
  {
    var i := Tile(cats, first, last, page);
    var c := cats[i];
    CategoryIsTheTile(cats, first, last, page);
    if page != c.pageStart {
      FirstStartsTile(cats, first, last, i, page);
      assert Holds(c, page - 1);
    }
    forall j | 0 <= j < |cats| && j != i ensures cats[j].number != c.number {
    }
  }

  method InitialMemory(cats: seq<Category>) returns (current: map<int, string>)
    requires forall i, j :: 0 <= i < j < |cats| ==> cats[i].number != cats[j].number
    ensures forall i :: 0 <= i < |cats| ==> cats[i].number in current && current[cats[i].number] == cats[i].intro
  {
    current := map[];
    for n := 0 to |cats|
      invariant forall i :: 0 <= i < n ==> cats[i].number in current && current[cats[i].number] == cats[i].intro
    {
      current := current[cats[n].number := cats[n].intro];
    }
  }

  /** Page `first + k` carries its numbers and the control `ids[k]`. */
  ghost predicate Lists(pages: seq<Page>, first: int, ids: seq<string>) {
    |pages| == |ids| && forall k :: 0 <= k < |pages| ==> pages[k] == Page(first + k, first + k - 1, first + k, [ids[k]])
  }

  lemma AssignedSnoc(cats: seq<Category>, first: int, last: int, texts: Texts, n: nat)
    requires Tiling(cats, first, last) && first + n <= last
    ensures Assigned(cats, first, last, texts, n + 1)
         == Assigned(cats, first, last, texts, n) + [ControlOf(cats, first, last, texts, first + n)]
  {
  }

  /** The state of the page loop before `page`. */
  ghost predicate Progress(
    cats: seq<Category>, first: int, last: int, texts: Texts, page: int, pages: seq<Page>, rows: seq<Row>)
    requires Tiling(cats, first, last) && first <= page <= last + 1
  {
    var ids := Assigned(cats, first, last, texts, page - first);
    Lists(pages, first, ids) && Describes(ids, first, rows)
  }

  lemma ProgressStep(
    cats: seq<Category>, first: int, last: int, texts: Texts, page: int, pages: seq<Page>, rows: seq<Row>, id: string,
    next: seq<Row>)
    requires Tiling(cats, first, last) && first <= page <= last
    requires Progress(cats, first, last, texts, page, pages, rows) && id == ControlOf(cats, first, last, texts, page)
    requires Describes(Assigned(cats, first, last, texts, page - first) + [id], first, next)
    ensures Progress(cats, first, last, texts, page + 1, pages + [Page(page, page - 1, page, [id])], next)
  {
    AssignedSnoc(cats, first, last, texts, page - first);
    ListsSnoc(pages, first, Assigned(cats, first, last, texts, page - first), id);
  }

  lemma ListsSnoc(pages: seq<Page>, first: int, ids: seq<string>, id: string)
    requires Lists(pages, first, ids)
    ensures var page := first + |ids|; Lists(pages + [Page(page, page - 1, page, [id])], first, ids + [id])
  {
  }

  /** Handles one page: finds its control through the memory and notes it. */
  method HandlePage(
    cats: seq<Category>, ghost first: int, ghost last: int, texts: Texts, page: int, current: map<int, string>)
    returns (id: string, next: map<int, string>)
    requires Tiling(cats, first, last) && first <= page <= last
    requires Remembers(cats, first, last, texts, page, current)
    ensures Remembers(cats, first, last, texts, page + 1, next)
    ensures id == ControlOf(cats, first, last, texts, page)
  {
    CategoryIsTheTile(cats, first, last, page);
    var c := CategoryFor(cats, page).value;
    var found := ControlAtPageStart(texts, c, page);
    next := current;
    if Names(found) {
      next := current[c.number := found.value];
    }
    MemoryStep(cats, first, last, texts, page, current, next);
    id := next[c.number];
  }

  lemma NothingHandled(cats: seq<Category>, first: int, last: int, texts: Texts, current: map<int, string>)
    requires Tiling(cats, first, last) && first <= last
    requires forall i :: 0 <= i < |cats| ==> cats[i].number in current && current[cats[i].number] == cats[i].intro
    ensures Remembers(cats, first, last, texts, first, current) && Progress(cats, first, last, texts, first, [], [])
  {
  }

  method Build(cats: seq<Category>, first: int, last: int, texts: Texts) returns (pages: seq<Page>, rows: seq<Row>)
    requires Tiling(cats, first, last) && first <= last
    ensures Lists(pages, first, Assigned(cats, first, last, texts, last - first + 1))
    ensures Describes(Assigned(cats, first, last, texts, last - first + 1), first, rows)
  {
    pages, rows := [], [];
    var current := InitialMemory(cats);
    NothingHandled(cats, first, last, texts, current);
    var page := first;
    while page <= last
      invariant first <= page <= last + 1
      invariant Remembers(cats, first, last, texts, page, current)
      invariant Progress(cats, first, last, texts, page, pages, rows)
    {
      var id, next := HandlePage(cats, first, last, texts, page, current);
      var more := NotePage(rows, id, page, Assigned(cats, first, last, texts, page - first), first);
      ProgressStep(cats, first, last, texts, page, pages, rows, id, more);
      pages := pages + [Page(page, page - 1, page, [id])];
      rows, current, page := more, next, page + 1;
    }
  }

  // ---------------------------------------------------------------- the validator

  datatype Error = NotContiguous | IndexNotZeroBased | PrintedPageDiffers | ExceedsSource
                 | ControlNotUnique | RangeReversed | ActivatesRuntime

  method PageMapErrors(pages: seq<Page>, first: int, last: int, sourcePages: int) returns (errors: seq<Error>)
    ensures errors == [] <==>
              && |pages| == (if last < first then 0 else last - first + 1)
              && last <= sourcePages
              && forall k :: 0 <= k < |pages| ==>
                   && pages[k].number == first + k
                   && pages[k].index == pages[k].number - 1 && pages[k].printed == pages[k].number
  {
    errors := [];
    var numbers := seq(|pages|, k requires 0 <= k < |pages| => pages[k].number);
    var expected := if last < first then [] else seq(last - first + 1, k => first + k);
    if numbers != expected {
      assert |pages| == |expected| ==> exists k :: 0 <= k < |pages| && numbers[k] != expected[k];
      errors := errors + [NotContiguous];
    } else {
      assert forall k :: 0 <= k < |pages| ==> pages[k].number == numbers[k] == expected[k];
    }
    if exists k :: 0 <= k < |pages| && pages[k].index != pages[k].number - 1 {
      errors := errors + [IndexNotZeroBased];
    }
    if exists k :: 0 <= k < |pages| && pages[k].printed != pages[k].number {
      errors := errors + [PrintedPageDiffers];
    }
    if last > sourcePages {
      errors := errors + [ExceedsSource];
    }
  }

  ghost predicate UniqueControls(rows: seq<Row>) {
    forall r, q :: 0 <= r < q < |rows| ==> rows[r].control != rows[q].control
  }

  ghost predicate HasReversed(rows: seq<Row>) {
    exists r :: 0 <= r < |rows| && rows[r].pageEnd < rows[r].pageStart
  }

  method MappingErrors(rows: seq<Row>, activates: bool) returns (errors: seq<Error>)
    ensures errors == (if UniqueControls(rows) then [] else [ControlNotUnique])
                    + (if HasReversed(rows) then [RangeReversed] else [])
                    + (if activates then [ActivatesRuntime] else [])
  {
    errors := [];
    var ids := seq(|rows|, r requires 0 <= r < |rows| => rows[r].control);
    assert forall r :: 0 <= r < |rows| ==> ids[r] == rows[r].control;
    CountDecidesDistinct(ids);
    ElementsAreMembers(ids);
    assert ElementSet(ids) == set id | id in ids;
    if |ids| != |set id | id in ids| {
      errors := errors + [ControlNotUnique];
    }
    if exists r :: 0 <= r < |rows| && rows[r].pageEnd < rows[r].pageStart {
      errors := errors + [RangeReversed];
    }
    if activates {
      errors := errors + [ActivatesRuntime];
    }
  }

  /** What the builder writes for any page texts: the page map has no error, and the control mapping has
      exactly one, for the activation flag the builder sets. */
  method BuildAndValidate(cats: seq<Category>, first: int, last: int, sourcePages: int, texts: Texts)
    returns (pageErrors: seq<Error>, mappingErrors: seq<Error>)
    requires Tiling(cats, first, last) && first <= last <= sourcePages
    ensures pageErrors == [] && mappingErrors == [ActivatesRuntime]
  {
    var pages, rows := Build(cats, first, last, texts);
    pageErrors := PageMapErrors(pages, first, last, sourcePages);
    ghost var ids := Assigned(cats, first, last, texts, last - first + 1);
    RowsAreSound(ids, first, rows);
    mappingErrors := MappingErrors(rows, true);
  }

  lemma RowsAreSound(ids: seq<string>, first: int, rows: seq<Row>)
    requires Describes(ids, first, rows)
    ensures UniqueControls(rows) && forall r :: 0 <= r < |rows| ==> rows[r].pageStart <= rows[r].pageEnd
  {
    forall r, q | 0 <= r < q < |rows| ensures rows[r].control != rows[q].control {
      OneRowEach(ids, first, rows, r, q);
    }
    forall r | 0 <= r < |rows| ensures rows[r].pageStart <= rows[r].pageEnd {
      assert Spans(ids, first, rows[r]);
    }
  }

  // ---------------------------------------------------------------- do the ranges partition the pages?

  predicate InRange(row: Row, page: int) {
    row.pageStart <= page <= row.pageEnd
  }

  /** Every page lies in the range of exactly one row. */
  ghost predicate Partition(rows: seq<Row>, first: int, n: nat) {
    forall page :: first <= page < first + n ==> InOneRange(rows, page)
  }

  ghost predicate InOneRange(rows: seq<Row>, page: int) {
    exists r :: 0 <= r < |rows| && OnlyRange(rows, page, r)
  }

  /** Row `r` is the only one whose range holds the page. */
  ghost predicate OnlyRange(rows: seq<Row>, page: int, r: nat)
    requires r < |rows|
  {
    InRange(rows[r], page) && forall q :: 0 <= q < |rows| && InRange(rows[q], page) ==> q == r
  }

  /** No control comes back after another one was assigned. */
  ghost predicate NeverRecurs(ids: seq<string>) {
    forall i, j, k :: 0 <= i < j < k < |ids| && ids[i] == ids[k] ==> ids[j] == ids[i]
  }

  /** Every page lies in the range of its own control. */
  lemma PageInOwnRange(ids: seq<string>, first: int, rows: seq<Row>, k: nat) returns (r: nat)
    requires Describes(ids, first, rows) && k < |ids|
    ensures r < |rows| && rows[r].control == ids[k] && InRange(rows[r], first + k)
  {
    assert HasRow(rows, ids[k]);
    r :| 0 <= r < |rows| && rows[r].control == ids[k];
    assert Spans(ids, first, rows[r]);
  }

  lemma OnlyOwnRange(ids: seq<string>, first: int, rows: seq<Row>, k: nat, q: nat)
    requires Describes(ids, first, rows) && NeverRecurs(ids) && k < |ids| && q < |rows| && InRange(rows[q], first + k)
    ensures rows[q].control == ids[k]
  {
    assert Spans(ids, first, rows[q]);
    var i, j := rows[q].pageStart - first, rows[q].pageEnd - first;
    if i < k < j {
      assert ids[k] == ids[i];
    }
  }

  /** The ranges of the rows partition the pages exactly when no control recurs. */
  lemma RangesPartitionExactly(ids: seq<string>, first: int, rows: seq<Row>)
    requires Describes(ids, first, rows)
    ensures Partition(rows, first, |ids|) <==> NeverRecurs(ids)
  {
    if NeverRecurs(ids) {
      forall page | first <= page < first + |ids| ensures InOneRange(rows, page) {
        var r := PageInOwnRange(ids, first, rows, page - first);
        forall q | 0 <= q < |rows| && InRange(rows[q], page) ensures q == r {
          OnlyOwnRange(ids, first, rows, page - first, q);
          if q != r {
            OneRowEach(ids, first, rows, q, r);
          }
        }
        assert OnlyRange(rows, page, r);
      }
    }
    if Partition(rows, first, |ids|) {
      forall i, j, k | 0 <= i < j < k < |ids| && ids[i] == ids[k] ensures ids[j] == ids[i] {
        PartitionKeepsTogether(ids, first, rows, i, j, k);
      }
    }
  }

  lemma PartitionKeepsTogether(ids: seq<string>, first: int, rows: seq<Row>, i: nat, j: nat, k: nat)
    requires Describes(ids, first, rows) && Partition(rows, first, |ids|)
    requires i < j < k < |ids| && ids[i] == ids[k]
    ensures ids[j] == ids[i]
  {
    var around := PageInOwnRange(ids, first, rows, i);
    assert Spans(ids, first, rows[around]);
    assert InRange(rows[around], first + j);
    var own := PageInOwnRange(ids, first, rows, j);
    var page := first + j;
    assert InOneRange(rows, page);
    var r :| 0 <= r < |rows| && OnlyRange(rows, page, r);
  }

  function RecurringText(page: int): Option<string> {
    if page == 12 || page == 14 then Some("U-01") else if page == 13 then Some("U-02") else None
  }

  /** Page texts of the real guide's layout for which the ranges overlap: nothing in the builder keeps a
      control from coming back. */
  lemma ControlsCanRecur()
    ensures Tiling(CATEGORIES, 7, 873)
    ensures !NeverRecurs(Assigned(CATEGORIES, 7, 873, RecurringText, 867))
  {
    GuideIsTiled();
    FoundOnUnixPage(12);
    FoundOnUnixPage(13);
    FoundOnUnixPage(14);
    var ids := Assigned(CATEGORIES, 7, 873, RecurringText, 867);
    assert ids[5] == "U-01" && ids[6] == "U-02" && ids[7] == "U-01";
    assert "U-01"[3] != "U-02"[3];
  }

  lemma FoundOnUnixPage(page: int)
    requires 12 <= page <= 14
    ensures Tiling(CATEGORIES, 7, 873)
    ensures ControlOf(CATEGORIES, 7, 873, RecurringText, page) == RecurringText(page).value
  {
    GuideIsTiled();
    TileIsUnique(CATEGORIES, 7, 873, page, 0);
  }
}
