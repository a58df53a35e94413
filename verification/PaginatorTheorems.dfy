/** What pagination guarantees: nothing lost, nothing off the page, and not too many pages. */
module PaginatorTheorems {
  import opened ResumeDocument
  import opened Paginator

  // ---- conservation -----------------------------------------------------------------------

  predicate SameColumns(fragment: LaidRow, row: LaidRow) {
    |fragment| == |row| && forall i :: 0 <= i < |row| ==> fragment[i].width == row[i].width
  }

  /** Two fragments with the same columns, one above the other. */
  function Glue(a: LaidRow, b: LaidRow): LaidRow {
    seq(|a|, i requires 0 <= i < |a| => Cell(a[i].width, a[i].lines + if i < |b| then b[i].lines else []))
  }

  function Joined(fragments: seq<LaidRow>): LaidRow
    requires fragments != []
  {
    if |fragments| == 1 then fragments[0] else Glue(fragments[0], Joined(fragments[1..]))
  }

  /** The fragments are one row's, in order: same columns, and column by column they add up to it. */
  predicate IsCut(fragments: seq<LaidRow>, row: LaidRow) {
    fragments != [] && (forall f <- fragments :: SameColumns(f, row)) && Joined(fragments) == row
  }

  /** The fragments are those of the rows, row after row. */
  ghost predicate Assembles(fragments: seq<LaidRow>, rows: seq<LaidRow>) {
    if rows == [] then fragments == []
    else exists n :: 0 < n <= |fragments| && IsCut(fragments[..n], rows[0]) && Assembles(fragments[n..], rows[1..])
  }

  lemma CutsGlue(row: LaidRow, n: nat)
    ensures SameColumns(TakeLines(row, n), row) && SameColumns(DropLines(row, n), row)
    ensures Glue(TakeLines(row, n), DropLines(row, n)) == row
    ensures IsSpent(DropLines(row, n)) ==> TakeLines(row, n) == row
  {
    forall i | 0 <= i < |row|
      ensures Prefix(row[i].lines, n) + Suffix(row[i].lines, n) == row[i].lines
    {
    }
    if IsSpent(DropLines(row, n)) {
      forall i | 0 <= i < |row|
        ensures TakeLines(row, n)[i] == row[i]
      {
        assert DropLines(row, n)[i] in DropLines(row, n);
      }
    }
  }

  lemma CutOnce(row: LaidRow, first: LaidRow)
    requires first == row
    ensures IsCut([first], row)
  {
  }

  lemma CutFurther(row: LaidRow, first: LaidRow, left: LaidRow, cut: seq<LaidRow>)
    requires SameColumns(first, row) && SameColumns(left, row) && Glue(first, left) == row && IsCut(cut, left)
    ensures IsCut([first] + cut, row)
  {
    hide Glue;
    assert ([first] + cut)[1..] == cut;
  }

  /** A first fragment in front of what assembles to the rest of its row. */
  lemma PrependFragment(row: LaidRow, n: nat, tail: seq<LaidRow>, rest: seq<LaidRow>)
    requires Assembles(rest, After([row] + tail, n))
    ensures Assembles([TakeLines(row, n)] + rest, [row] + tail)
  {
    CutsGlue(row, n);
    hide TakeLines, DropLines, IsCut, Glue, SameColumns, IsSpent;
    var first, left := TakeLines(row, n), DropLines(row, n);
    var fragments, rows := [first] + rest, [row] + tail;
    assert rows[1..] == tail;
    if IsSpent(left) {
      assert fragments[..1] == [first] && fragments[1..] == rest;
      CutOnce(row, first);
    } else {
      var pending := [left] + tail;
      assert pending[1..] == tail;
      var m :| 0 < m <= |rest| && IsCut(rest[..m], left) && Assembles(rest[m..], tail);
      assert fragments[..m + 1] == [first] + rest[..m] && fragments[m + 1..] == rest[m..];
      CutFurther(row, first, left, rest[..m]);
    }
  }

  lemma FlattenFront(page: PageRows, out: seq<PageRows>)
    ensures Flatten([page] + out) == page + Flatten(out)
  {
    assert ([page] + out)[1..] == out;
  }

  /** What is drawn begins with the current page; the rest are fragments of what is pending. */
  ghost predicate Conserves(drawn: seq<LaidRow>, current: PageRows, pending: seq<LaidRow>) {
    current <= drawn && Assembles(drawn[|current|..], pending)
  }

  lemma ConservesStep(drawn: seq<LaidRow>, current: PageRows, pending: seq<LaidRow>, take: nat)
    requires pending != [] && Conserves(drawn, current + [TakeLines(pending[0], take)], After(pending, take))
    ensures Conserves(drawn, current, pending)
  {
    var first := TakeLines(pending[0], take);
    var page := current + [first];
    assert drawn[|current|] == page[|current|] == first;
    assert drawn[|current|..] == [first] + drawn[|page|..];
    assert pending == [pending[0]] + pending[1..];
    PrependFragment(pending[0], take, pending[1..], drawn[|page|..]);
  }

  /** Reading the output pages of a source page in order gives every row back, column by column. */
  lemma {:induction false} PaginationConserves(pending: seq<LaidRow>, current: PageRows, remaining: int, available: int)
    ensures Conserves(Flatten(Paginate(pending, current, remaining, available)), current, pending)
    decreases Cost(pending)
  {
    if pending == [] {
      FlattenFront(current, []);
      assert Flatten(Paginate(pending, current, remaining, available)) == current;
    } else {
      var take := Taken(pending[0], current, remaining);
      var after, page := After(pending, take), current + [TakeLines(pending[0], take)];
      LoopProgress(pending, current, remaining);
      if ClosesPage(pending, current, remaining) {
        PaginationConserves(after, [], available, available);
        var rest := Paginate(after, [], available, available);
        FlattenFront(page, rest);
        assert Flatten([page] + rest)[|page|..] == Flatten(rest)[0..];
      } else {
        PaginationConserves(after, page, remaining - (take + 1), available);
      }
      ConservesStep(Flatten(Paginate(pending, current, remaining, available)), current, pending, take);
    }
  }

  lemma SourcePageConserved(rows: seq<LaidRow>, available: int)
    ensures Assembles(Flatten(Paginate(rows, [], available, available)), rows)
  {
    PaginationConserves(rows, [], available, available);
    var drawn := Flatten(Paginate(rows, [], available, available));
    assert drawn[0..] == drawn;
  }

  /** The output pages of the document are those of its source pages, each holding exactly its rows. */
  ghost predicate HoldsPages(out: seq<PageRows>, sources: seq<seq<LaidRow>>)
    decreases |sources|
  {
    if sources == [] then out == []
    else exists n :: 0 <= n <= |out| && HoldsPages(out[..n], sources[..|sources| - 1])
           && Assembles(Flatten(out[n..]), sources[|sources| - 1])
  }

  lemma HoldsOneMore(head: seq<PageRows>, out: seq<PageRows>, sources: seq<seq<LaidRow>>, last: seq<LaidRow>)
    requires HoldsPages(head, sources) && Assembles(Flatten(out), last)
    ensures HoldsPages(head + out, sources + [last])
  {
    hide Assembles, Flatten;
    var all, more := head + out, sources + [last];
    assert more[..|more| - 1] == sources && all[..|head|] == head && all[|head|..] == out;
  }

  function Sources(pages: seq<Page>, blocks: Blocks, maxChars: nat, wrap: Wrap): (s: seq<seq<LaidRow>>)
    requires forall page <- pages :: forall row <- page.rows :: Resolves(row, blocks)
    ensures |s| == |pages|
  {
    seq(|pages|, i requires 0 <= i < |pages| => LaidRows(pages[i].rows, blocks, maxChars, wrap))
  }

  lemma LastSource(pages: seq<Page>, blocks: Blocks, maxChars: nat, wrap: Wrap)
    requires pages != [] && forall page <- pages :: forall row <- page.rows :: Resolves(row, blocks)
    ensures Sources(pages, blocks, maxChars, wrap) ==
            Sources(pages[..|pages| - 1], blocks, maxChars, wrap)
              + [LaidRows(pages[|pages| - 1].rows, blocks, maxChars, wrap)]
  {
    hide LaidRows, Resolves;
  }

  lemma {:induction false} DocumentConserved(pages: seq<Page>, blocks: Blocks, maxChars: nat, wrap: Wrap,
      available: int)
    requires forall page <- pages :: forall row <- page.rows :: Resolves(row, blocks)
    ensures HoldsPages(PaginatePages(pages, blocks, maxChars, wrap, available), Sources(pages, blocks, maxChars, wrap))
  {
    if pages != [] {
      var before, last := pages[..|pages| - 1], LaidRows(pages[|pages| - 1].rows, blocks, maxChars, wrap);
      hide Paginate, Assembles, LaidRows, Flatten, HoldsPages, Resolves;
      DocumentConserved(before, blocks, maxChars, wrap, available);
      SourcePageConserved(last, available);
      var head, out := PaginatePages(before, blocks, maxChars, wrap, available),
          Paginate(last, [], available, available);
      HoldsOneMore(head, out, Sources(before, blocks, maxChars, wrap), last);
      LastSource(pages, blocks, maxChars, wrap);
    }
  }

  // ---- geometry ---------------------------------------------------------------------------

  /** Lines used up by rows and the gaps after them. */
  function Used(rows: PageRows): nat {
    if rows == [] then 0 else Used(rows[..|rows| - 1]) + Height(rows[|rows| - 1]) + 1
  }

  /** Every row starts below the ones before it and ends on the page. */
  predicate Fits(rows: PageRows, available: int) {
    forall k :: 0 <= k < |rows| ==> Used(rows[..k]) + Height(rows[k]) <= available
  }

  predicate RealRows(pending: seq<LaidRow>) {
    forall row <- pending :: row != []
  }

  lemma StillReal(pending: seq<LaidRow>, take: nat)
    requires pending != [] && RealRows(pending)
    ensures RealRows(After(pending, take))
  {
    assert pending[0] in pending;
    forall row <- pending[1..] ensures row != [] {
      assert row in pending;
    }
  }

  lemma FitsOneMore(current: PageRows, row: LaidRow, remaining: int, available: int)
    requires row != [] && Fits(current, available) && remaining == available - Used(current) && remaining >= 1
    ensures var take := Taken(row, current, remaining);
      var page := current + [TakeLines(row, take)];
      Fits(page, available) && Used(page) == Used(current) + take + 1
  {
    var take := Taken(row, current, remaining);
    var page := current + [TakeLines(row, take)];
    FragmentHeight(row, take);
    assert page[..|page| - 1] == current;
    if current != [] {
      assert Used(current) > 0;
    }
    forall k | 0 <= k < |page|
      ensures Used(page[..k]) + Height(page[k]) <= available
    {
      assert page[..k] == current[..k];
      if k == |current| {
        assert current[..k] == current;
      }
    }
  }

  /** Nothing ever overruns a page. */
  lemma {:induction false} PagesFit(pending: seq<LaidRow>, current: PageRows, remaining: int, available: int)
    requires RealRows(pending) && Fits(current, available)
    requires remaining == available - Used(current) && remaining >= 1 && available >= 1
    ensures forall page <- Paginate(pending, current, remaining, available) :: Fits(page, available)
    decreases Cost(pending)
  {
    if pending != [] {
      assert pending[0] in pending;
      var take := Taken(pending[0], current, remaining);
      LoopProgress(pending, current, remaining);
      StillReal(pending, take);
      FitsOneMore(current, pending[0], remaining, available);
      var page := current + [TakeLines(pending[0], take)];
      if ClosesPage(pending, current, remaining) {
        PagesFit(After(pending, take), [], available, available);
      } else {
        PagesFit(After(pending, take), page, remaining - (take + 1), available);
      }
    }
  }

  // ---- fullness and the number of pages ---------------------------------------------------

  /** The second half of the page-closing test never decides: a cut row has used the page up. */
  lemma CutRowsFillThePage(row: LaidRow, current: PageRows, remaining: int)
    requires Taken(row, current, remaining) < Height(row)
    ensures remaining - (Taken(row, current, remaining) + 1) <= 0
  {
  }

  lemma {:induction false} FirstPageGrows(pending: seq<LaidRow>, current: PageRows, remaining: int, available: int)
    requires current != []
    ensures var out := Paginate(pending, current, remaining, available); out != [] && current <= out[0]
    decreases Cost(pending)
  {
    if pending != [] && !ClosesPage(pending, current, remaining) {
      var take := Taken(pending[0], current, remaining);
      LoopProgress(pending, current, remaining);
      FirstPageGrows(After(pending, take), current + [TakeLines(pending[0], take)], remaining - (take + 1), available);
    }
  }

  lemma TakenWhole(row: LaidRow)
    ensures TakeLines(row, Height(row)) == row
  {
    HeightBounds(row);
  }

  /** A row that fits on what is left of its page is not cut: at the top of a page it may take every line, and
      below other rows all but one. */
  lemma FittingRowIsWhole(row: LaidRow, tail: seq<LaidRow>, current: PageRows, remaining: int, available: int)
    requires row != [] && 1 <= remaining && Height(row) <= remaining - (if current == [] then 0 else 1)
    ensures var out := Paginate([row] + tail, current, remaining, available); out != [] && current + [row] <= out[0]
  {
    var pending, take := [row] + tail, Taken(row, current, remaining);
    LoopProgress(pending, current, remaining);
    assert take == Height(row);
    TakenWhole(row);
    hide TakeLines, Height, After;
    if !ClosesPage(pending, current, remaining) {
      FirstPageGrows(After(pending, take), current + [row], remaining - (take + 1), available);
    }
  }

  /** One that does not is cut there, its page is closed, and the rest of it opens the next page. */
  lemma LongRowIsCut(row: LaidRow, tail: seq<LaidRow>, current: PageRows, remaining: int, available: int)
    requires row != [] && Height(row) > remaining - (if current == [] then 0 else 1) >= 1
    ensures var fits := remaining - if current == [] then 0 else 1;
      Paginate([row] + tail, current, remaining, available) ==
      [current + [TakeLines(row, fits)]] + Paginate([DropLines(row, fits)] + tail, [], available, available)
  {
    var pending, take := [row] + tail, Taken(row, current, remaining);
    LoopProgress(pending, current, remaining);
    FragmentHeight(row, take);
    assert After(pending, take) == [DropLines(row, take)] + tail;
  }

  predicate IsFull(rows: PageRows, available: int) {
    Used(rows) >= available
  }

  predicate AllFull(out: seq<PageRows>, available: int) {
    forall k :: 0 <= k < |out| - 1 ==> IsFull(out[k], available)
  }

  lemma FullInFront(page: PageRows, out: seq<PageRows>, available: int)
    requires IsFull(page, available) && AllFull(out, available)
    ensures AllFull([page] + out, available)
  {
    var all := [page] + out;
    forall k | 0 <= k < |all| - 1 ensures IsFull(all[k], available) {
      assert k > 0 ==> all[k] == out[k - 1];
    }
  }

  /** Only the last output page of a source page may have room left. */
  lemma {:induction false} PagesAreFull(pending: seq<LaidRow>, current: PageRows, remaining: int, available: int)
    requires RealRows(pending) && Fits(current, available)
    requires remaining == available - Used(current) && remaining >= 1 && available >= 1
    ensures AllFull(Paginate(pending, current, remaining, available), available)
    decreases Cost(pending)
  {
    if pending != [] {
      assert pending[0] in pending;
      var take := Taken(pending[0], current, remaining);
      var after, page := After(pending, take), current + [TakeLines(pending[0], take)];
      LoopProgress(pending, current, remaining);
      StillReal(pending, take);
      FitsOneMore(current, pending[0], remaining, available);
      if ClosesPage(pending, current, remaining) {
        PagesAreFull(after, [], available, available);
        FullInFront(page, Paginate(after, [], available, available), available);
      } else {
        PagesAreFull(after, page, remaining - (take + 1), available);
      }
    }
  }

  lemma {:induction false} PageCount(pending: seq<LaidRow>, current: PageRows, remaining: int, available: int)
    requires RealRows(pending) && 1 <= remaining <= available
    ensures (|Paginate(pending, current, remaining, available)| - 1) * (available - 1) <=
            available - remaining + Cost(pending)
    decreases Cost(pending)
  {
    var out := Paginate(pending, current, remaining, available);
    if pending == [] {
      assert (|out| - 1) * (available - 1) <= 0 by {
        NonPositive(|out| - 1, available - 1);
      }
    } else {
      assert pending[0] in pending;
      var take := Taken(pending[0], current, remaining);
      var after := After(pending, take);
      LoopProgress(pending, current, remaining);
      StillReal(pending, take);
      var page := current + [TakeLines(pending[0], take)];
      if ClosesPage(pending, current, remaining) {
        PageCount(after, [], available, available);
        assert (|out| - 1) * (available - 1) == (|out| - 2) * (available - 1) + (available - 1);
      } else {
        PageCount(after, page, remaining - (take + 1), available);
      }
    }
  }

  lemma NonPositive(a: int, b: int)
    requires a <= 0 <= b
    ensures a * b <= 0
  {
  }

  function TotalHeight(rows: seq<LaidRow>): nat {
    if rows == [] then 0 else Height(rows[0]) + TotalHeight(rows[1..])
  }

  lemma {:induction false} CostIsHeightPlusRows(rows: seq<LaidRow>)
    ensures Cost(rows) == TotalHeight(rows) + |rows|
  {
    if rows != [] {
      CostIsHeightPlusRows(rows[1..]);
    }
  }

  /** A source page of R rows and total height H fills at most 1 + (H + R) / (available - 1) pages. */
  lemma PageCountBound(rows: seq<LaidRow>, available: int)
    requires RealRows(rows) && available >= 2
    ensures |Paginate(rows, [], available, available)| <= 1 + (TotalHeight(rows) + |rows|) / (available - 1)
  {
    PageCount(rows, [], available, available);
    CostIsHeightPlusRows(rows);
    AtMostQuotient(|Paginate(rows, [], available, available)| - 1, available - 1, Cost(rows));
  }

  lemma AtMostQuotient(n: int, d: int, c: int)
    requires d > 0 && n * d <= c
    ensures n <= c / d
  {
    var q, r := c / d, c % d;
    assert c == q * d + r && r < d;
    BelowOne(n - q, d);
  }
}
