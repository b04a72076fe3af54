// Servers that hand out one fixed list slice by slice, and what the expanded read returns from each.
module PagedServers {
  import opened Common
  import opened PagedRead

  /**
   * A list served `size` rows at a time: page `k` carries slice `k`, and the page after the last is empty.
   * The server may report a record total, a page count, both or neither. The total is that of its whole list, of which
   * the list read is the rest from the first request on.
   */
  datatype Source = Source(list: seq<Record>, whole: nat, size: nat, last: nat, pages: nat -> Page,
                           total: bool, pageCount: Option<int>) {
    ghost predicate Sliced() {
      size > 0 && |list| <= whole && IsLast(|list|, size, last) && DistinctIdentities(list)
    }

    /** No page but the last denies that more follows, and no empty page claims it. */
    predicate HonestPage(k: nat) {
      && pages(k).records == Slice(list, size, k)
      && pages(k).total == (if total then Some(whole) else None)
      && NumberOf(FindMeta(pages(k).meta, PAGES)) == pageCount
      && (k < last ==> FindMeta(pages(k).meta, MORE) != Some(Flag(false)))
      && (pages(k).records == [] ==> !Truthy(FindMeta(pages(k).meta, MORE_OR_CURSOR)))
    }

    ghost predicate Honest() {
      Sliced() && forall k: nat :: k <= last + 1 ==> HonestPage(k)
    }

    /** The slices up to slice `stop`. */
    function Upto(stop: nat): seq<Record> {
      list[..Edge(|list|, size, stop + 1)]
    }

    /** The page denies that more follows. */
    predicate Denies(k: nat) {
      FindMeta(pages(k).meta, MORE) == Some(Flag(false))
    }

    /** Rows are missing of the total reported or, without one, the page is as full as a page is taken to be. */
    predicate SeemsToGoOn(stop: nat, pageSize: int) {
      if total then |Upto(stop)| < whole else |pages(stop).records| >= pageSize && pages(stop).records != []
    }

    /** What the pager makes of page `stop`. */
    predicate LeadsOn(pager: Pager, stop: nat, position: int) {
      HasNext(pager, pages(stop), |pages(stop).records|, |Upto(stop)|, position)
    }

    /** The slices up to `stop` stay within the caps and are all that the reported total announces. */
    predicate Fits(stop: nat, leadsOn: bool) {
      WithinCaps(|Upto(stop)|, stop + 1, leadsOn) && (pages(stop).total.Some? ==> whole == |Upto(stop)|)
    }
  }

  lemma ListIsEmptyOrSliced(src: Source)
    requires src.Sliced() && src.pages(0).records == Slice(src.list, src.size, 0)
    ensures src.list == [] <==> src.pages(0).records == []
    ensures src.list == [] ==> src.last == 0
    ensures |src.list| <= src.size <==> src.last == 0
    ensures src.pages(0).records == Prefix(src.list, src.size) && src.Upto(src.last) == src.list
  {
    var n := |src.list|;
    if src.last > 0 { FullSlices(n, src.size, src.last, 0); }
    assert src.list[0..Edge(n, src.size, 1)] == Prefix(src.list, src.size);
  }

  lemma FirstPageIsReturned(r: Reading, first: Page)
    requires AddUnique([], first.records) == Some(first.records) && first.total == None
    requires !HasNext(r.pager, first, |first.records|, |first.records|, InitialPosition(r.pager))
    ensures var result := ReadExpanded(r, first); result.Ok? && RecordsOf(result.value) == first.records
  {
    assert Loop(r, StartState(r.pager, r.base, first, first.records)).Ok?;
  }

  /** The outcome of a read: it succeeds exactly under `condition`, and then returns `records`. */
  predicate Outcome(result: Result<Expanded, Failure>, condition: bool, records: seq<Record>) {
    (result.Ok? <==> condition) && (result.Ok? ==> RecordsOf(result.value) == records)
  }

  lemma SameEdges(n: nat, size: nat, stop: nat, k: nat)
    requires k <= stop + 1
    ensures Edge(n, size, k) <= Edge(n, size, stop + 1)
    ensures Edge(Edge(n, size, stop + 1), size, k) == Edge(n, size, k)
  {
    EdgesAscend(n, size, k, stop + 1);
    EdgesOfPart(n, size, Edge(n, size, stop + 1), k);
  }

  lemma {:induction false} EdgesAscend(n: nat, size: nat, i: nat, j: nat)
    requires i <= j
    ensures Edge(n, size, i) <= Edge(n, size, j)
    decreases j
  {
    if i < j { EdgesAscend(n, size, i, j - 1); }
  }

  lemma {:induction false} EdgesOfPart(n: nat, size: nat, part: nat, k: nat)
    requires Edge(n, size, k) <= part <= n
    ensures Edge(part, size, k) == Edge(n, size, k)
  {
    if k > 0 {
      EdgesAscend(n, size, k - 1, k);
      EdgesOfPart(n, size, part, k - 1);
    }
  }

  /** The slices up to `stop` are those of the list they make up. */
  lemma SlicesOfPart(src: Source, stop: nat)
    requires src.Sliced() && stop <= src.last && src.list != []
    ensures src.Upto(stop) != [] && IsLast(|src.Upto(stop)|, src.size, stop) && DistinctIdentities(src.Upto(stop))
    ensures forall k: nat :: k <= stop ==> Slice(src.Upto(stop), src.size, k) == Slice(src.list, src.size, k)
  {
    var n := |src.list|;
    SlicesAreNonempty(n, src.size, src.last, stop);
    SameEdges(n, src.size, stop, stop);
    SameEdges(n, src.size, stop, stop + 1);
    forall k: nat | k <= stop ensures Slice(src.Upto(stop), src.size, k) == Slice(src.list, src.size, k) {
      SliceOfPart(src, stop, k);
    }
  }

  lemma SliceOfPart(src: Source, stop: nat, k: nat)
    requires k <= stop
    ensures Slice(src.Upto(stop), src.size, k) == Slice(src.list, src.size, k)
  {
    SameEdges(|src.list|, src.size, stop, k);
    SameEdges(|src.list|, src.size, stop, k + 1);
    EdgesAscend(|src.list|, src.size, k, k + 1);
  }

  /** Following an honest source up to page `stop`: what is left to show for a pager is that it keeps going before. */
  lemma SourceIsWalked(r: Reading, src: Source, stop: nat, inputs: nat -> Input, positions: nat -> int)
    requires src.Honest() && src.list != [] && stop <= src.last
    requires inputs(0) == r.base && positions(0) == InitialPosition(r.pager)
    requires forall i: nat, j: nat :: i < j <= src.last + 1 ==> inputs(i) != inputs(j)
    requires var w := Walk(src.Upto(stop), src.whole, src.size, stop, src.pages, inputs, positions);
             && (forall k: nat :: k <= stop ==> w.Moves(r, k))
             && (forall k: nat :: k < stop ==> w.More(r, k))
             && (stop < src.last ==> !w.More(r, stop))
    ensures var leadsOn := src.LeadsOn(r.pager, stop, positions(stop));
            Outcome(ReadExpanded(r, src.pages(0)), src.Fits(stop, leadsOn), src.Upto(stop))
  {
    var w := Walk(src.Upto(stop), src.whole, src.size, stop, src.pages, inputs, positions);
    SlicesOfPart(src, stop);
    forall k: nat | k <= stop ensures w.ServesSlice(k) { assert src.HonestPage(k); }
    assert src.HonestPage(src.last + 1);
    SlicesAreNonempty(|src.Upto(stop)|, src.size, stop, stop);
    assert w.Valid(r) && w.ServesSlice(stop) && w.Count(stop) == |src.pages(stop).records|;
    WalkReadsList(r, w);
  }

  /** Only the first slice is seen. */
  lemma FirstSliceAlone(r: Reading, src: Source)
    requires src.Honest() && !src.total && |src.list| > src.size
    requires !HasNext(r.pager, src.pages(0), src.size, src.size, InitialPosition(r.pager))
    ensures Outcome(ReadExpanded(r, src.pages(0)), src.size <= MAX_AUTO_RECORDS, Prefix(src.list, src.size))
  {
    assert src.HonestPage(0);
    ListIsEmptyOrSliced(src);
    AddSlice(src.list, 0, src.size);
    assert src.list[..0] == [] && src.list[0..src.size] == src.list[..src.size];
    if src.size <= MAX_AUTO_RECORDS { FirstPageIsReturned(r, src.pages(0)); }
  }

  // ---------- Page numbers ----------

  /** Slice 0 is what the first request asks for; later ones replace the page number. */
  function PageRequest(base: Input, f: int, k: nat): Input {
    if k == 0 then base else base.(page := Some(Number(f + k)))
  }

  /** The number of the first page, as the pager reads it from the request or the reply. */
  function FirstNumber(base: Input, page: Page): int {
    NumberOf(base.page).GetOr(NumberOf(FindMeta(page.meta, PAGE)).GetOr(1))
  }

  function PageSize(schema: Schema, input: Input, page: Page): int {
    (if schema.limit.Some? then NumberOf(input.limit) else None)
      .GetOr(NumberOf(FindMeta(page.meta, SIZE)).GetOr(|page.records|))
  }

  /** The first reply already tells that the pages of the list will be followed to the last. */
  predicate PagesAreFollowed(src: Source, pageSize: int) {
    |src.list| <= src.size || src.total || src.pageCount.Some? || pageSize <= src.size
  }

  /** The page at which a page count, read as the number of the last page, stops the pager. */
  function StopsAt(src: Source, f: int): nat {
    if src.pageCount.Some? then Min(src.last, Max(0, src.pageCount.value - f)) else src.last
  }

  /**
   * A paged source is followed exactly when it fits in one page, or reports a total or a page count, or its pages are
   * no smaller than the page size the pager assumes. It is followed to its end, unless a page count below the number of
   * the last page stops the pager earlier; what was read up to there is returned if it keeps the caps and is all that
   * a reported total announces, and otherwise nothing. Not followed, only its first page comes back, even when the
   * server says `hasMore: true`.
   */
  lemma PageNumbersReadWhole(schema: Schema, input: Input, serve: Server, src: Source)
    requires !schema.cursor && schema.page.Some? && src.Honest()
    requires var base := PreferredInput(schema, input);
             forall n: nat, k: nat :: k <= src.last + 1 ==>
               serve(n, PageRequest(base, FirstNumber(base, src.pages(0)), k)) == Some(src.pages(k))
    ensures var base := PreferredInput(schema, input);
            var f, size := FirstNumber(base, src.pages(0)), PageSize(schema, base, src.pages(0));
            var stop, result := StopsAt(src, f), ReadFully(true, schema, input, serve);
            if PagesAreFollowed(src, size)
            then
              var seems := if src.pageCount.Some? then f + stop < src.pageCount.value else src.SeemsToGoOn(stop, size);
              Outcome(result, src.Fits(stop, !src.Denies(stop) && seems), src.Upto(stop))
            else Outcome(result, src.size <= MAX_AUTO_RECORDS, Prefix(src.list, src.size))
  {
    var base := PreferredInput(schema, input);
    var f, size := FirstNumber(base, src.pages(0)), PageSize(schema, base, src.pages(0));
    assert PageRequest(base, f, 0) == base;
    assert serve(1, base) == Some(src.pages(0));
    assert src.HonestPage(0);
    ListIsEmptyOrSliced(src);
    if src.list == [] {
      assert StopsAt(src, f) == 0 && src.Upto(0) == [];
    } else if |src.pages(0).records| <= MAX_AUTO_RECORDS {
      var r := Reading(schema, base, ByPage(f, size), serve);
      assert ReadFully(true, schema, input, serve) == ReadExpanded(r, src.pages(0));
      if PagesAreFollowed(src, size) {
        assert src.HonestPage(StopsAt(src, f));
        PagesAreWalked(r, src, f, size);
      } else {
        FirstSliceAlone(r, src);
      }
    } else {
      FirstPageTooLong(src, StopsAt(src, f));
    }
  }

  lemma FirstPageTooLong(src: Source, stop: nat)
    requires src.Honest() && |src.pages(0).records| > MAX_AUTO_RECORDS
    ensures |src.Upto(stop)| > MAX_AUTO_RECORDS && src.size > MAX_AUTO_RECORDS
  {
    assert src.HonestPage(0);
    EdgesAscend(|src.list|, src.size, 1, stop + 1);
  }

  lemma PagesAreWalked(r: Reading, src: Source, f: int, size: int)
    requires src.Honest() && src.list != [] && r.pager == ByPage(f, size) && f == FirstNumber(r.base, src.pages(0))
    requires r.schema.limit.Some? ==> r.base.limit.Some?
    requires PagesAreFollowed(src, size)
    requires forall n: nat, k: nat :: k <= src.last + 1 ==> r.serve(n, PageRequest(r.base, f, k)) == Some(src.pages(k))
    ensures var stop := StopsAt(src, f);
            Outcome(ReadExpanded(r, src.pages(0)), src.Fits(stop, src.LeadsOn(r.pager, stop, f + stop)), src.Upto(stop))
  {
    var stop := StopsAt(src, f);
    var inputs := (k: nat) => PageRequest(r.base, f, k);
    var positions := (k: nat) => f + k;
    var w := Walk(src.Upto(stop), src.whole, src.size, stop, src.pages, inputs, positions);
    forall k: nat | k <= stop ensures w.Moves(r, k) { }
    forall k: nat | k < stop ensures w.More(r, k) { PagesLeadOn(src, f, size, stop, k); }
    if stop < src.last { assert src.HonestPage(stop); }
    SourceIsWalked(r, src, stop, inputs, positions);
  }

  lemma PagesLeadOn(src: Source, f: int, size: int, stop: nat, k: nat)
    requires src.Honest() && PagesAreFollowed(src, size) && src.list != [] && k < stop == StopsAt(src, f)
    ensures var n := |src.Upto(stop)|;
            HasNext(ByPage(f, size), src.pages(k), Width(n, src.size, k), Edge(n, src.size, k + 1), f + k)
  {
    assert src.HonestPage(k);
    SameEdges(|src.list|, src.size, stop, k);
    SameEdges(|src.list|, src.size, stop, k + 1);
    FullSlices(|src.list|, src.size, src.last, k);
    FullSlices(|src.list|, src.size, src.last, 0);
  }

  /** A tail that is lost: two rows, served one at a time to a reader that expects two hundred a page. */
  lemma TailIsLostDespiteHasMore(a: Record, b: Record)
    requires Identity(a) != Identity(b)
    ensures var schema := Schema(false, Some(PageKey(None, false)), false, Some(None));
            var pages := (k: nat) => if k == 0 then Page([a], [("hasmore", Flag(true))], None)
                                     else Page(if k == 1 then [b] else [], [("hasmore", Flag(false))], None);
            var serve := (n: nat, i: Input) =>
                           if i.page == Some(Number(1)) then Some(pages(0))
                           else if i.page == Some(Number(2)) then Some(pages(1)) else Some(pages(2));
            var src := Source([a, b], 2, 1, 1, pages, false, None);
            && src.Honest() && ReadFully(true, schema, Input(None, None, None, None), serve) == Ok(Single(pages(0)))
  {
    var pages := (k: nat) => if k == 0 then Page([a], [("hasmore", Flag(true))], None)
                             else Page(if k == 1 then [b] else [], [("hasmore", Flag(false))], None);
    var src := Source([a, b], 2, 1, 1, pages, false, None);
    assert Edge(2, 1, 1) == 1 && Edge(2, 1, 2) == 2 && Edge(2, 1, 3) == 2;
    forall k: nat | k <= 2 ensures src.HonestPage(k) {
      assert FindMeta(pages(k).meta, MORE) == Some(Flag(k == 0));
      assert FindMeta(pages(k).meta, PAGES) == FindMeta(pages(k).meta[1..], PAGES) == None;
    }
    var schema := Schema(false, Some(PageKey(None, false)), false, Some(None));
    var serve := (n: nat, i: Input) =>
                   if i.page == Some(Number(1)) then Some(pages(0))
                   else if i.page == Some(Number(2)) then Some(pages(1)) else Some(pages(2));
    var base := PreferredInput(schema, Input(None, None, None, None));
    assert base == Input(None, Some(Number(1)), None, Some(Number(200))) && serve(1, base) == Some(pages(0));
    var r := Reading(schema, base, ByPage(1, 200), serve);
    assert DetectPager(schema, base, pages(0)) == Some(r.pager);
    assert !HasNext(r.pager, pages(0), 1, 1, 1) by { assert src.HonestPage(0); }
    assert AddUnique([], [a]) == Some([a])
        by { assert [a][1..] == [] && [] + [a] == [a] && AddUnique([a], []) == Some([a]); }
    assert Loop(r, StartState(r.pager, base, pages(0), [a])) == Ok(StartState(r.pager, base, pages(0), [a]));
  }

  // ---------- Offsets ----------

  function OffsetRequest(base: Input, f: int, edge: nat): Input {
    if edge == 0 then base else base.(offset := Some(Number(f + edge)))
  }

  predicate OffsetsAreFollowed(src: Source, pageSize: int) {
    |src.list| <= src.size || src.total || pageSize <= src.size
  }

  /**
   * The same for offsets, where a page count is ignored. A read that starts late, at a server that reports the total of
   * its whole list, never succeeds.
   */
  lemma OffsetsReadWhole(schema: Schema, input: Input, serve: Server, src: Source)
    requires !schema.cursor && schema.page == None && schema.offset && src.Honest()
    requires var base := PreferredInput(schema, input);
             var f := NumberOf(base.offset).GetOr(0);
             forall n: nat, k: nat :: k <= src.last + 1 ==>
               serve(n, OffsetRequest(base, f, Edge(|src.list|, src.size, k))) == Some(src.pages(k))
    ensures var base := PreferredInput(schema, input);
            var f, size := NumberOf(base.offset).GetOr(0), PageSize(schema, base, src.pages(0));
            var result := ReadFully(true, schema, input, serve);
            if OffsetsAreFollowed(src, size)
            then Outcome(result, src.Fits(src.last, !src.Denies(src.last) && src.SeemsToGoOn(src.last, size)), src.list)
            else Outcome(result, src.size <= MAX_AUTO_RECORDS, Prefix(src.list, src.size))
  {
    var base := PreferredInput(schema, input);
    var f, size := NumberOf(base.offset).GetOr(0), PageSize(schema, base, src.pages(0));
    assert OffsetRequest(base, f, Edge(|src.list|, src.size, 0)) == base;
    assert serve(1, base) == Some(src.pages(0));
    assert src.HonestPage(0);
    ListIsEmptyOrSliced(src);
    if src.list != [] && |src.pages(0).records| <= MAX_AUTO_RECORDS {
      var r := Reading(schema, base, ByOffset(f, size), serve);
      assert ReadFully(true, schema, input, serve) == ReadExpanded(r, src.pages(0));
      if OffsetsAreFollowed(src, size) {
        assert src.HonestPage(src.last);
        OffsetsAreWalked(r, src, f, size);
      } else {
        FirstSliceAlone(r, src);
      }
    }
  }

  lemma OffsetsAreWalked(r: Reading, src: Source, f: int, size: int)
    requires src.Honest() && src.list != [] && r.pager == ByOffset(f, size) && f == NumberOf(r.base.offset).GetOr(0)
    requires r.schema.limit.Some? ==> r.base.limit.Some?
    requires OffsetsAreFollowed(src, size)
    requires forall n: nat, k: nat :: k <= src.last + 1 ==>
               r.serve(n, OffsetRequest(r.base, f, Edge(|src.list|, src.size, k))) == Some(src.pages(k))
    ensures var at := f + Edge(|src.list|, src.size, src.last);
            Outcome(ReadExpanded(r, src.pages(0)), src.Fits(src.last, src.LeadsOn(r.pager, src.last, at)), src.list)
  {
    var n := |src.list|;
    var inputs := (k: nat) => OffsetRequest(r.base, f, Edge(n, src.size, k));
    var positions := (k: nat) => f + Edge(n, src.size, k);
    var w := Walk(src.list, src.whole, src.size, src.last, src.pages, inputs, positions);
    forall i: nat, j: nat | i < j <= src.last + 1 ensures inputs(i) != inputs(j) {
      EdgesGrow(n, src.size, src.last, i, j);
      DistinctOffsets(r.base, f, Edge(n, src.size, i), Edge(n, src.size, j));
    }
    forall k: nat | k <= src.last ensures w.Moves(r, k) { OffsetWalkMoves(r, src, f, w, k); }
    forall k: nat | k < src.last ensures w.More(r, k) { OffsetsLeadOn(src, f, size, k); }
    assert src.HonestPage(0);
    ListIsEmptyOrSliced(src);
    SourceIsWalked(r, src, src.last, inputs, positions);
  }

  lemma OffsetWalkMoves(r: Reading, src: Source, f: int, w: Walk, k: nat)
    requires src.Sliced() && src.list != [] && k <= src.last && r.pager.ByOffset?
    requires r.schema.limit.Some? ==> r.base.limit.Some?
    requires w.list == src.list && w.size == src.size && w.pages == src.pages
    requires w.positions(k) == f + Edge(|src.list|, src.size, k)
    requires w.positions(k + 1) == f + Edge(|src.list|, src.size, k + 1)
    requires w.inputs(k + 1) == OffsetRequest(r.base, f, Edge(|src.list|, src.size, k + 1))
    requires r.serve(k + 2, w.inputs(k + 1)) == Some(src.pages(k + 1))
    ensures w.Moves(r, k)
  {
    SlicesAreNonempty(|src.list|, src.size, src.last, k);
    OffsetMoves(r, src.pages(k), f, Edge(|src.list|, src.size, k), w.Count(k));
  }

  lemma OffsetsLeadOn(src: Source, f: int, size: int, k: nat)
    requires src.Honest() && k < src.last && OffsetsAreFollowed(src, size) && |src.list| > 0
    ensures HasNext(ByOffset(f, size), src.pages(k), Width(|src.list|, src.size, k), Edge(|src.list|, src.size, k + 1),
                    f + Edge(|src.list|, src.size, k))
  {
    assert src.HonestPage(k);
    FullSlices(|src.list|, src.size, src.last, k);
    FullSlices(|src.list|, src.size, src.last, 0);
  }

  lemma DistinctOffsets(base: Input, f: int, i: nat, j: nat)
    requires i < j && f == NumberOf(base.offset).GetOr(0)
    ensures OffsetRequest(base, f, i) != OffsetRequest(base, f, j)
  {
  }

  lemma OffsetMoves(r: Reading, page: Page, f: int, edge: nat, count: nat)
    requires r.pager.ByOffset? && count > 0 && (r.schema.limit.Some? ==> r.base.limit.Some?)
    ensures NextPosition(r.pager, count, f + edge) == f + (edge + count)
    ensures NextInput(r.pager, r.schema, r.base, page, count, f + edge) == Some(OffsetRequest(r.base, f, edge + count))
  {
  }

  // ---------- Cursors ----------

  /** Page `k` hands out cursor `k + 1`; the last page hands out none, or one that leads to an empty page. */
  ghost predicate HonestCursors(src: Source, cursors: nat -> Scalar) {
    && src.Sliced()
    && (forall i: nat, j: nat :: i < j <= src.last + 1 ==> cursors(i) != cursors(j))
    && (forall k: nat :: k <= src.last ==> HonestCursorPage(src, cursors, k))
    && EmptyPage(src.pages(src.last + 1))
  }

  predicate HonestCursorPage(src: Source, cursors: nat -> Scalar, k: nat) {
    var page := src.pages(k);
    var cursor := FindMeta(page.meta, CURSOR);
    && page.records == Slice(src.list, src.size, k)
    && (page.total == None || page.total == Some(src.whole))
    && (page.records == [] ==> EmptyPage(page))
    && (Truthy(cursor) ==> cursor == Some(cursors(k + 1)))
    && (k < src.last ==> Truthy(cursor) && FindMeta(page.meta, MORE) != Some(Flag(false)))
  }

  predicate EmptyPage(page: Page) {
    page.records == [] && !Truthy(FindMeta(page.meta, MORE_OR_CURSOR))
  }

  function CursorRequest(base: Input, cursors: nat -> Scalar, k: nat): Input {
    if k == 0 then base else base.(cursor := Some(cursors(k)))
  }

  /** A cursor source is returned whole, or not at all if it passes the caps. */
  lemma CursorsReadWhole(schema: Schema, input: Input, serve: Server, src: Source, cursors: nat -> Scalar)
    requires schema.cursor && HonestCursors(src, cursors)
    requires var base := PreferredInput(schema, input);
             && (forall k: nat :: 0 < k <= src.last + 1 ==> base.cursor != Some(cursors(k)))
             && forall n: nat, k: nat :: k <= src.last + 1 ==>
                 serve(n, CursorRequest(base, cursors, k)) == Some(src.pages(k))
    ensures var leadsOn := !src.Denies(src.last) && Truthy(FindMeta(src.pages(src.last).meta, CURSOR));
            Outcome(ReadFully(true, schema, input, serve), src.Fits(src.last, leadsOn), src.list)
  {
    var base := PreferredInput(schema, input);
    assert CursorRequest(base, cursors, 0) == base && serve(1, base) == Some(src.pages(0));
    assert HonestCursorPage(src, cursors, 0);
    ListIsEmptyOrSliced(src);
    if src.list != [] && |src.pages(0).records| <= MAX_AUTO_RECORDS {
      var r := Reading(schema, base, ByCursor, serve);
      assert ReadFully(true, schema, input, serve) == ReadExpanded(r, src.pages(0));
      var inputs := (k: nat) => CursorRequest(base, cursors, k);
      var w := Walk(src.list, src.whole, src.size, src.last, src.pages, inputs, (k: nat) => 0);
      CursorWalkIsValid(r, src, cursors, w);
      assert w.Count(src.last) == |src.pages(src.last).records|;
      WalkReadsList(r, w);
    }
  }

  lemma CursorWalkIsValid(r: Reading, src: Source, cursors: nat -> Scalar, w: Walk)
    requires HonestCursors(src, cursors) && src.list != [] && r.pager == ByCursor
    requires r.schema.limit.Some? ==> r.base.limit.Some?
    requires forall k: nat :: 0 < k <= src.last + 1 ==> r.base.cursor != Some(cursors(k))
    requires forall n: nat, k: nat :: k <= src.last + 1 ==>
               r.serve(n, CursorRequest(r.base, cursors, k)) == Some(src.pages(k))
    requires w.list == src.list && w.whole == src.whole && w.size == src.size
    requires w.last == src.last && w.pages == src.pages
    requires forall k: nat :: w.positions(k) == 0 && w.inputs(k) == CursorRequest(r.base, cursors, k)
    ensures w.Valid(r) && |src.pages(src.last).records| == w.Count(src.last)
  {
    forall k: nat | k <= src.last
        ensures w.ServesSlice(k) && (k < src.last ==> w.More(r, k)) && (w.More(r, k) ==> w.Moves(r, k)) {
      assert HonestCursorPage(src, cursors, k);
    }
  }

  // ---------- The first request, and tools without paging ----------

  /**
   * Every paging argument the caller gave is kept and none the tool does not declare is added. What is added asks for
   * the tool's default first page, or page 0 of a page index and page 1 otherwise, for offset 0, and for two hundred
   * rows or the tool's maximum if that is lower.
   */
  lemma FirstRequestAsks(schema: Schema, input: Input)
    ensures var base := PreferredInput(schema, input);
            && base.cursor == input.cursor
            && (input.page.Some? || schema.page.None? ==> base.page == input.page)
            && (input.offset.Some? || !schema.offset ==> base.offset == input.offset)
            && (input.limit.Some? || schema.limit.None? ==> base.limit == input.limit)
    ensures var base := PreferredInput(schema, input);
            && (input.page.None? && schema.page.Some? ==>
                  match schema.page.value
                  case PageKey(Some(default), _) => base.page == Some(Number(default))
                  case PageKey(None, zeroBased) => base.page == Some(Number(if zeroBased then 0 else 1)))
            && (input.offset.None? && schema.offset ==> base.offset == Some(Number(0)))
    ensures input.limit.None? && schema.limit.Some? ==>
              exists n :: PreferredInput(schema, input).limit == Some(Number(n)) && n <= 200
                          && (schema.limit.value.Some? ==> n <= schema.limit.value.value)
                          && (n < 200 ==> schema.limit.value == Some(n))
  {
  }

  /**
   * A following request differs from the first in the cursor, page or offset alone: the cursor just received, the page
   * after, or the rows received further on. A row limit that the caller left open becomes a hundred, or for pages and
   * offsets fifty rows or the size of a page if that is larger.
   */
  lemma NextRequestAsks(pager: Pager, schema: Schema, base: Input, page: Page, count: nat, position: int)
    requires count > 0
    ensures var next := NextInput(pager, schema, base, page, count, position);
            var cursor := FindMeta(page.meta, {"nextcursor", "next"});
            var limit := if base.limit.Some? || schema.limit.None? then base.limit
                         else if pager.ByCursor? then Some(Number(100))
                         else Some(Number(if pager.pageSize > 50 then pager.pageSize else 50));
            && (next.None? <==> pager.ByCursor? && !Says(cursor))
            && (next.Some? ==>
                  next.value == match pager
                                case ByCursor => base.(cursor := cursor, limit := limit)
                                case ByPage(_, _) => base.(page := Some(Number(position + 1)), limit := limit)
                                case ByOffset(_, _) => base.(offset := Some(Number(position + count)), limit := limit))
  {
    TruthyIff(FindMeta(page.meta, CURSOR));
  }

  /** The metadata announces rows that were not sent, under one of these names. */
  predicate Announces(page: Page, names: set<string>) {
    page.total.GetOr(0) > |page.records| || Says(FindMeta(page.meta, names))
  }

  /** Anything but a missing value, null, false, zero and the empty text. */
  predicate Says(v: Option<Scalar>) {
    v !in {None, Some(Null), Some(Flag(false)), Some(Number(0))} && !(v.Some? && v.value.Text? && v.value.text == "")
  }

  lemma TruthyIff(v: Option<Scalar>)
    ensures Truthy(v) <==> Says(v)
  {
  }

  /** A tool that declares no paging is believed unless its reply announces more than it carries. */
  lemma UnpagedIsReadIff(schema: Schema, input: Input, serve: Server, first: Page)
    requires !schema.cursor && schema.page.None? && !schema.offset
    requires serve(1, PreferredInput(schema, input)) == Some(first)
    ensures var names := if first.records == [] then {"hasmore", "nextcursor"} else {"hasmore", "nextcursor", "next"};
            var result := ReadFully(true, schema, input, serve);
            && (result.Ok? <==> |first.records| <= 20_000 && !Announces(first, names))
            && (result.Ok? ==> result.value == Single(first))
  {
    TruthyIff(FindMeta(first.meta, {"hasmore", "nextcursor"}));
    TruthyIff(FindMeta(first.meta, {"hasmore", "nextcursor", "next"}));
  }

  /** A tool that is not read as a collection gives its one reply, whatever it says; so does a call that fails. */
  lemma OtherReadsArePassedOn(schema: Schema, input: Input, serve: Server)
    ensures ReadFully(false, schema, input, serve)
            == if serve(1, input).Some? then Ok(Single(serve(1, input).value)) else Err(CallFailed)
    ensures serve(1, PreferredInput(schema, input)).None? ==> ReadFully(true, schema, input, serve) == Err(CallFailed)
  {
  }

  /** An empty first page is an answer only if it announces nothing. */
  lemma EmptyFirstPageIff(schema: Schema, input: Input, serve: Server, first: Page)
    requires serve(1, PreferredInput(schema, input)) == Some(first) && first.records == []
    ensures ReadFully(true, schema, input, serve).Ok? <==> !Announces(first, {"hasmore", "nextcursor"})
  {
    TruthyIff(FindMeta(first.meta, {"hasmore", "nextcursor"}));
  }
}
