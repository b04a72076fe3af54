// Automatic expansion of paginated reads: cursor, page and offset pagers over an arbitrary server.
module PagedRead {
  import opened Common

  const MAX_AUTO_PAGES := 200
  const MAX_AUTO_RECORDS := 20_000

  // ---------- Payloads ----------

  /** A JSON scalar; `number` is the numeric reading of a text, if it has one. */
  datatype Scalar = Null | Flag(b: bool) | Number(n: int) | Text(text: string, number: Option<int>)

  predicate Truthy(v: Option<Scalar>) {
    match v
    case None => false
    case Some(Null) => false
    case Some(Flag(b)) => b
    case Some(Number(n)) => n != 0
    case Some(Text(t, _)) => t != ""
  }

  function NumberOf(v: Option<Scalar>): Option<int> {
    match v
    case Some(Number(n)) => Some(n)
    case Some(Text(_, number)) => number
    case _ => None
  }

  /** A row; the identifying columns as found under their aliases. */
  datatype Record = Record(ownId: Option<string>, productId: Option<string>, warehouseId: string, json: string)

  function Identity(r: Record): string {
    if r.ownId.Some? then "id:" + r.ownId.value + ":warehouse:" + r.warehouseId
    else if r.productId.Some? then "product:" + r.productId.value + ":warehouse:" + r.warehouseId
    else "json:" + r.json
  }

  /**
   * An unwrapped payload: its record array, its metadata scalars in search order under normalised keys,
   * and the record total, when one is reported.
   */
  datatype Page = Page(records: seq<Record>, meta: seq<(string, Scalar)>, total: Option<nat>)

  /** First metadata value under one of the keys. */
  function FindMeta(meta: seq<(string, Scalar)>, keys: set<string>): Option<Scalar> {
    if meta == [] then None
    else if meta[0].0 in keys then Some(meta[0].1)
    else FindMeta(meta[1..], keys)
  }

  const MORE: set<string> := {"hasmore"}
  const CURSOR: set<string> := {"nextcursor", "next"}
  const PAGES: set<string> := {"totalpages", "lastpage", "pages"}
  const SIZE: set<string> := {"limit", "pagesize", "perpage"}
  const MORE_OR_CURSOR: set<string> := {"hasmore", "nextcursor"}
  const MORE_CURSOR_OR_NEXT: set<string> := {"hasmore", "nextcursor", "next"}
  const PAGE: set<string> := {"page", "currentpage", "pagenumber"}

  // ---------- Requests ----------

  /** The paging arguments of a call; every other argument stays as the caller gave it. */
  datatype Input = Input(cursor: Option<Scalar>, page: Option<Scalar>, offset: Option<Scalar>, limit: Option<Scalar>)

  datatype PageKey = PageKey(default: Option<int>, zeroBased: bool)

  /** Which paging arguments the tool's schema declares. */
  datatype Schema = Schema(cursor: bool, page: Option<PageKey>, offset: bool, limit: Option<Option<int>>)

  function PreferredInput(schema: Schema, input: Input): Input {
    Input(
      input.cursor,
      if schema.page.Some? && input.page.None?
      then Some(Number(schema.page.value.default.GetOr(if schema.page.value.zeroBased then 0 else 1))) else input.page,
      if schema.offset && input.offset.None? then Some(Number(0)) else input.offset,
      if schema.limit.Some? && input.limit.None? then Some(Number(Min(200, schema.limit.value.GetOr(200))))
      else input.limit)
  }

  /** Remote calls are numbered from one; `None` stands for a call that throws. */
  type Server = (nat, Input) -> Option<Page>

  // ---------- Pagers ----------

  datatype Pager = ByCursor | ByPage(first: int, pageSize: int) | ByOffset(first: int, pageSize: int)

  function DetectPager(schema: Schema, input: Input, page: Page): Option<Pager> {
    var limit := if schema.limit.Some? then NumberOf(input.limit) else None;
    var pageSize := limit.GetOr(NumberOf(FindMeta(page.meta, SIZE)).GetOr(|page.records|));
    if schema.cursor then Some(ByCursor)
    else if schema.page.Some? then
      Some(ByPage(NumberOf(input.page).GetOr(NumberOf(FindMeta(page.meta, PAGE)).GetOr(1)), pageSize))
    else if schema.offset then Some(ByOffset(NumberOf(input.offset).GetOr(0), pageSize))
    else None
  }

  function InitialPosition(pager: Pager): int {
    if pager.ByCursor? then 0 else pager.first
  }

  predicate HasNext(pager: Pager, page: Page, count: nat, merged: nat, position: int) {
    && FindMeta(page.meta, MORE) != Some(Flag(false))
    && match pager
       case ByCursor => Truthy(FindMeta(page.meta, CURSOR))
       case ByPage(_, size) =>
         if NumberOf(FindMeta(page.meta, PAGES)).Some? then position < NumberOf(FindMeta(page.meta, PAGES)).value
         else if page.total.Some? then merged < page.total.value
         else count >= Max(1, size)
       case ByOffset(_, size) =>
         if page.total.Some? then merged < page.total.value else count >= Max(1, size)
  }

  function OrFifty(n: int): int { if n == 0 then 50 else n }

  function WithLimit(schema: Schema, input: Input, limit: int): Input {
    if schema.limit.Some? && input.limit.None? then input.(limit := Some(Number(limit))) else input
  }

  function NextPosition(pager: Pager, count: nat, position: int): int {
    match pager
    case ByCursor => position
    case ByPage(_, _) => position + 1
    case ByOffset(_, size) => position + Max(1, if count > 0 then count else size)
  }

  function NextInput(pager: Pager, schema: Schema, base: Input, page: Page, count: nat, position: int): Option<Input> {
    match pager
    case ByCursor =>
      var cursor := FindMeta(page.meta, CURSOR);
      if Truthy(cursor) then Some(WithLimit(schema, base.(cursor := cursor), 100)) else None
    case ByPage(_, size) =>
      Some(WithLimit(schema, base.(page := Some(Number(NextPosition(pager, count, position)))), Max(50, OrFifty(size))))
    case ByOffset(_, size) =>
      Some(WithLimit(schema, base.(offset := Some(Number(NextPosition(pager, count, position)))),
          Max(50, OrFifty(size))))
  }

  // ---------- Merging ----------

  function Identities(records: seq<Record>): set<string> {
    set r | r in records :: Identity(r)
  }

  /** Records whose identity is new, appended in order; `None` when the cap is exceeded. */
  function AddUnique(merged: seq<Record>, records: seq<Record>): Option<seq<Record>>
    decreases |records|
  {
    if records == [] then Some(merged)
    else if Identity(records[0]) in Identities(merged) then AddUnique(merged, records[1..])
    else if |merged| >= MAX_AUTO_RECORDS then None
    else AddUnique(merged + [records[0]], records[1..])
  }

  // ---------- The read as a function ----------

  datatype Failure = CallFailed | PaginationFailed

  datatype Expanded = Single(page: Page) | Complete(pagesFetched: nat, records: seq<Record>)

  function RecordsOf(e: Expanded): seq<Record> {
    match e case Single(page) => page.records case Complete(_, records) => records
  }

  datatype Reading = Reading(schema: Schema, base: Input, pager: Pager, serve: Server)

  /** `inputs` and `pages` are the requests made and the pages received, in order. */
  datatype State = State(merged: seq<Record>, payload: Page, count: nat, position: int, inputs: seq<Input>,
      pages: seq<Page>)

  predicate WantsMore(r: Reading, s: State) {
    && |s.pages| < MAX_AUTO_PAGES && |s.merged| < MAX_AUTO_RECORDS
    && HasNext(r.pager, s.payload, s.count, |s.merged|, s.position)
  }

  /** One round of the loop; the flag says whether the loop goes on. */
  function Round(r: Reading, s: State): Result<(State, bool), Failure> {
    var next := NextInput(r.pager, r.schema, r.base, s.payload, s.count, s.position);
    if next.None? || next.value in s.inputs then Err(PaginationFailed)
    else
      var reply := r.serve(|s.pages| + 1, next.value);
      if reply.None? then Err(CallFailed)
      else
        var page := reply.value;
        var moved := s.(inputs := s.inputs + [next.value], pages := s.pages + [page]);
        if page.records == [] then
          if (s.payload.total.Some? && |s.merged| < s.payload.total.value)
            || Truthy(FindMeta(page.meta, MORE_OR_CURSOR))
          then Err(PaginationFailed) else Ok((moved.(count := 0), false))
        else
          var merged := AddUnique(s.merged, page.records);
          if merged.None? || |merged.value| == |s.merged| then Err(PaginationFailed)
          else Ok((moved.(merged := merged.value, payload := page, count := |page.records|,
                          position := NextPosition(r.pager, s.count, s.position)), true))
  }

  function Loop(r: Reading, s: State): Result<State, Failure>
    decreases MAX_AUTO_PAGES - |s.pages|
  {
    if !WantsMore(r, s) then Ok(s)
    else match Round(r, s)
      case Err(e) => Err(e)
      case Ok((t, more)) => if more then Loop(r, t) else Ok(t)
  }

  predicate Unfinished(r: Reading, s: State) {
    || (s.payload.total.Some? && |s.merged| < s.payload.total.value)
    || (s.count > 0 && HasNext(r.pager, s.payload, s.count, |s.merged|, s.position))
  }

  function Conclude(r: Reading, s: State): Result<Expanded, Failure>
    requires s.pages != []
  {
    if Unfinished(r, s) then Err(PaginationFailed)
    else if |s.pages| == 1 then Ok(Single(s.pages[0]))
    else Ok(Complete(|s.pages|, s.merged))
  }

  function StartState(pager: Pager, base: Input, first: Page, merged: seq<Record>): State {
    State(merged, first, |first.records|, InitialPosition(pager), [base], [first])
  }

  lemma {:induction false} LoopKeepsPages(r: Reading, s: State)
    requires s.pages != []
    ensures Loop(r, s).Ok? ==> Loop(r, s).value.pages != []
    decreases MAX_AUTO_PAGES - |s.pages|
  {
    if WantsMore(r, s) && Round(r, s).Ok? && Round(r, s).value.1 {
      LoopKeepsPages(r, Round(r, s).value.0);
    }
  }

  function ReadExpanded(r: Reading, first: Page): Result<Expanded, Failure> {
    var merged := AddUnique([], first.records);
    if merged.None? then Err(PaginationFailed)
    else
      var start := StartState(r.pager, r.base, first, merged.value);
      LoopKeepsPages(r, start);
      match Loop(r, start)
      case Err(e) => Err(e)
      case Ok(s) => Conclude(r, s)
  }

  function ReadFully(collection: bool, schema: Schema, input: Input, serve: Server): Result<Expanded, Failure> {
    var base := if collection then PreferredInput(schema, input) else input;
    var reply := serve(1, base);
    if reply.None? then Err(CallFailed)
    else
      var first := reply.value;
      if !collection then Ok(Single(first))
      else if |first.records| > MAX_AUTO_RECORDS then Err(PaginationFailed)
      else if first.records == [] then
        if first.total.GetOr(0) > 0 || Truthy(FindMeta(first.meta, MORE_OR_CURSOR)) then Err(PaginationFailed)
        else Ok(Single(first))
      else
        var pager := DetectPager(schema, base, first);
        if pager.None? then
          if first.total.GetOr(|first.records|) > |first.records| || Truthy(FindMeta(first.meta, MORE_CURSOR_OR_NEXT))
          then Err(PaginationFailed) else Ok(Single(first))
        else ReadExpanded(Reading(schema, base, pager.value, serve), first)
  }

  // ---------- The loops ----------

  method AddUniqueRecords(target: seq<Record>, seen: set<string>, records: seq<Record>)
    returns (merged: Option<seq<Record>>, seen': set<string>)
    requires seen == Identities(target)
    ensures merged == AddUnique(target, records)
    ensures merged.Some? ==> seen' == Identities(merged.value)
  {
    var rows := target;
    seen' := seen;
    for i := 0 to |records|
      invariant seen' == Identities(rows)
      invariant AddUnique(target, records) == AddUnique(rows, records[i..])
    {
      assert records[i..][1..] == records[i + 1..];
      var key := Identity(records[i]);
      if key in seen' { continue; }
      if |rows| >= MAX_AUTO_RECORDS { return None, seen'; }
      seen' := seen' + {key};
      rows := rows + [records[i]];
    }
    merged := Some(rows);
  }

  method ReadToolFully(collection: bool, schema: Schema, input: Input, serve: Server)
      returns (result: Result<Expanded, Failure>)
    ensures result == ReadFully(collection, schema, input, serve)
  {
    var firstInput := if collection then PreferredInput(schema, input) else input;
    var reply := serve(1, firstInput);
    if reply.None? { return Err(CallFailed); }
    var first := reply.value;
    if !collection { return Ok(Single(first)); }
    if |first.records| > MAX_AUTO_RECORDS { return Err(PaginationFailed); }
    if first.records == [] {
      if first.total.GetOr(0) > 0 || Truthy(FindMeta(first.meta, MORE_OR_CURSOR)) { return Err(PaginationFailed); }
      return Ok(Single(first));
    }
    var detected := DetectPager(schema, firstInput, first);
    if detected.None? {
      if first.total.GetOr(|first.records|) > |first.records| || Truthy(FindMeta(first.meta, MORE_CURSOR_OR_NEXT)) {
        return Err(PaginationFailed);
      }
      return Ok(Single(first));
    }
    result := ExpandPages(Reading(schema, firstInput, detected.value, serve), first);
  }

  method ExpandPages(r: Reading, first: Page) returns (result: Result<Expanded, Failure>)
    ensures result == ReadExpanded(r, first)
  {
    var added, seen := AddUniqueRecords([], {}, first.records);
    if added.None? { return Err(PaginationFailed); }
    var merged, payload, count := added.value, first, |first.records|;
    var position := InitialPosition(r.pager);
    var requests := {r.base};
    var pagesFetched := 1;
    ghost var s := StartState(r.pager, r.base, first, merged);
    LoopKeepsPages(r, s);
    while pagesFetched < MAX_AUTO_PAGES && |merged| < MAX_AUTO_RECORDS
      invariant s.merged == merged && s.payload == payload && s.count == count && s.position == position
      invariant |s.pages| == pagesFetched && s.pages != [] && s.pages[0] == first
      invariant requests == set i | i in s.inputs
      invariant seen == Identities(merged)
      invariant Loop(r, StartState(r.pager, r.base, first, added.value)) == Loop(r, s)
      decreases MAX_AUTO_PAGES - pagesFetched
    {
      if !HasNext(r.pager, payload, count, |merged|, position) { break; }
      var nextInput := NextInput(r.pager, r.schema, r.base, payload, count, position);
      if nextInput.None? || nextInput.value in requests { return Err(PaginationFailed); }
      requests := requests + {nextInput.value};
      var reply := r.serve(pagesFetched + 1, nextInput.value);
      if reply.None? { return Err(CallFailed); }
      var next := reply.value;
      pagesFetched := pagesFetched + 1;
      if next.records == [] {
        if (payload.total.Some? && |merged| < payload.total.value) || Truthy(FindMeta(next.meta, MORE_OR_CURSOR)) {
          return Err(PaginationFailed);
        }
        count := 0;
        s := s.(inputs := s.inputs + [nextInput.value], pages := s.pages + [next], count := 0);
        assert Loop(r, StartState(r.pager, r.base, first, added.value)) == Ok(s);
        if payload.total.Some? && |merged| < payload.total.value { return Err(PaginationFailed); }
        return Ok(Complete(pagesFetched, merged));
      }
      var more, seen' := AddUniqueRecords(merged, seen, next.records);
      if more.None? || |more.value| == |merged| { return Err(PaginationFailed); }
      position := NextPosition(r.pager, count, position);
      merged, seen, payload, count := more.value, seen', next, |next.records|;
      s := State(merged, payload, count, position, s.inputs + [nextInput.value], s.pages + [next]);
    }
    assert Loop(r, s) == Ok(s);
    if (payload.total.Some? && |merged| < payload.total.value)
      || (count > 0 && HasNext(r.pager, payload, count, |merged|, position)) {
      return Err(PaginationFailed);
    }
    if pagesFetched == 1 { return Ok(Single(first)); }
    return Ok(Complete(pagesFetched, merged));
  }

  // ---------- Soundness against an arbitrary server ----------

  ghost predicate DistinctIdentities(records: seq<Record>) {
    forall i, j :: 0 <= i < j < |records| ==> Identity(records[i]) != Identity(records[j])
  }

  lemma {:induction false} AddUniqueAdds(merged: seq<Record>, records: seq<Record>)
    requires DistinctIdentities(merged) && |merged| <= MAX_AUTO_RECORDS
    ensures AddUnique(merged, records).Some? ==>
              var all := AddUnique(merged, records).value;
              && DistinctIdentities(all) && |all| <= MAX_AUTO_RECORDS && merged <= all
              && Identities(all) == Identities(merged) + Identities(records)
              && forall r :: r in all ==> r in merged || r in records
    decreases |records|
  {
    if records != [] {
      assert records == [records[0]] + records[1..];
      if Identity(records[0]) in Identities(merged) {
        AddUniqueAdds(merged, records[1..]);
      } else if |merged| < MAX_AUTO_RECORDS {
        AddUniqueAdds(merged + [records[0]], records[1..]);
      }
    }
  }

  /** Page `i` brought an identity no earlier page had. */
  ghost predicate AddsIdentity(pages: seq<Page>, i: nat)
    requires i < |pages|
  {
    exists x :: x in pages[i].records && forall j, y :: 0 <= j < i && y in pages[j].records ==>
        Identity(y) != Identity(x)
  }

  function AllRecords(pages: seq<Page>): seq<Record> {
    if pages == [] then [] else AllRecords(pages[..|pages| - 1]) + pages[|pages| - 1].records
  }

  lemma {:induction false} AddUniqueInParts(merged: seq<Record>, a: seq<Record>, b: seq<Record>)
    ensures AddUnique(merged, a + b)
            == if AddUnique(merged, a).None? then None else AddUnique(AddUnique(merged, a).value, b)
    decreases |a|
  {
    if a == [] {
      assert a + b == b;
    } else {
      assert (a + b)[0] == a[0] && (a + b)[1..] == a[1..] + b;
      AddUniqueInParts(merged, a[1..], b);
      AddUniqueInParts(merged + [a[0]], a[1..], b);
    }
  }

  /** The requests made and the answers received. */
  ghost predicate Trail(r: Reading, s: State) {
    && |s.pages| == |s.inputs| && 1 <= |s.pages| <= MAX_AUTO_PAGES
    && s.inputs[0] == r.base && Distinct(s.inputs)
    && forall i :: 0 < i < |s.pages| ==> r.serve(i + 1, s.inputs[i]) == Some(s.pages[i])
  }

  /** What has been kept of the pages. */
  ghost predicate Kept(s: State) {
    && DistinctIdentities(s.merged) && |s.merged| <= MAX_AUTO_RECORDS
    && AddUnique([], AllRecords(s.pages)) == Some(s.merged)
    && Identities(s.merged) == Identities(AllRecords(s.pages))
    && forall i :: 0 <= i < |s.pages| && s.pages[i].records != [] ==> AddsIdentity(s.pages, i)
  }

  /** Only the last page may be empty, and then the payload is the page before it. */
  ghost predicate Ending(s: State) {
    && |s.pages| > 0
    && (forall i :: 0 <= i < |s.pages| - 1 ==> s.pages[i].records != [])
    && (s.pages[|s.pages| - 1].records == [] ==> !Truthy(FindMeta(s.pages[|s.pages| - 1].meta, MORE_OR_CURSOR)))
    && if s.count > 0 then s.payload == s.pages[|s.pages| - 1] && s.count == |s.payload.records|
       else |s.pages| > 1 && s.pages[|s.pages| - 1].records == [] && s.payload == s.pages[|s.pages| - 2]
  }

  ghost predicate Coherent(r: Reading, s: State) {
    Trail(r, s) && Kept(s) && Ending(s)
  }

  lemma AppendedPage(s: seq<Page>, page: Page)
    ensures AllRecords(s + [page]) == AllRecords(s) + page.records
  {
    assert (s + [page])[..|s|] == s;
  }

  lemma OldPagesStillAdd(s: seq<Page>, page: Page, i: nat)
    requires i < |s| && AddsIdentity(s, i)
    ensures AddsIdentity(s + [page], i)
  {
    var x :| x in s[i].records && forall j, y :: 0 <= j < i && y in s[j].records ==> Identity(y) != Identity(x);
    assert x in (s + [page])[i].records;
  }

  lemma {:induction false} PageIdentitiesAreKept(pages: seq<Page>, i: nat)
    requires i < |pages|
    ensures Identities(pages[i].records) <= Identities(AllRecords(pages))
  {
    var n := |pages| - 1;
    var front := AllRecords(pages[..n]);
    assert forall x :: x in front || x in pages[n].records ==> x in front + pages[n].records;
    if i < n { PageIdentitiesAreKept(pages[..n], i); }
  }

  lemma NewPageAdds(s: State, page: Page)
    requires Kept(s) && AddUnique(s.merged, page.records).Some?
    requires |AddUnique(s.merged, page.records).value| > |s.merged|
    ensures AddsIdentity(s.pages + [page], |s.pages|)
  {
    AddUniqueAdds(s.merged, page.records);
    var all := AddUnique(s.merged, page.records).value;
    var x := all[|s.merged|];
    assert x in all && Identity(x) !in Identities(s.merged);
    assert x in page.records;
    forall j, y | 0 <= j < |s.pages| && y in (s.pages + [page])[j].records ensures Identity(y) != Identity(x) {
      PageIdentitiesAreKept(s.pages, j);
      assert Identity(y) in Identities(s.pages[j].records);
    }
  }

  lemma RoundKeepsTrail(r: Reading, s: State)
    requires Trail(r, s) && WantsMore(r, s) && Round(r, s).Ok?
    ensures Trail(r, Round(r, s).value.0)
  {
  }

  lemma RoundKeepsKept(s: State, page: Page, merged: seq<Record>)
    requires Kept(s) && AddUnique(s.merged, page.records) == Some(merged)
    requires page.records != [] ==> |merged| > |s.merged|
    ensures Kept(s.(merged := merged, pages := s.pages + [page]))
  {
    var t := s.(merged := merged, pages := s.pages + [page]);
    AppendedPage(s.pages, page);
    AddUniqueInParts([], AllRecords(s.pages), page.records);
    AddUniqueAdds(s.merged, page.records);
    if page.records != [] { NewPageAdds(s, page); }
    forall i | 0 <= i < |t.pages| && t.pages[i].records != [] ensures AddsIdentity(t.pages, i) {
      if i < |s.pages| { OldPagesStillAdd(s.pages, page, i); }
    }
  }

  lemma KeptIgnoresRest(s: State, t: State)
    requires Kept(s) && t.merged == s.merged && t.pages == s.pages
    ensures Kept(t)
  {
  }

  lemma RoundKeepsEnding(r: Reading, s: State)
    requires Ending(s) && s.count > 0 && Round(r, s).Ok?
    ensures Ending(Round(r, s).value.0) && |Round(r, s).value.0.pages| == |s.pages| + 1
    ensures Round(r, s).value.1 ==> Round(r, s).value.0.count > 0
  {
    var (t, more) := Round(r, s).value;
    var page := t.pages[|s.pages|];
    assert t.pages == s.pages + [page] && t.pages[|t.pages| - 1] == page;
    forall i | 0 <= i < |t.pages| - 1 ensures t.pages[i].records != [] { assert t.pages[i] == s.pages[i]; }
  }

  lemma RoundKeepsCoherent(r: Reading, s: State)
    requires Coherent(r, s) && s.count > 0 && WantsMore(r, s) && Round(r, s).Ok?
    ensures Coherent(r, Round(r, s).value.0) && |Round(r, s).value.0.pages| == |s.pages| + 1
    ensures Round(r, s).value.1 ==> Round(r, s).value.0.count > 0
  {
    RoundKeepsEnding(r, s);
    RoundKeepsTrail(r, s);
    RoundKeepsRows(r, s);
  }

  lemma RoundKeepsRows(r: Reading, s: State)
    requires Kept(s) && Round(r, s).Ok?
    ensures Kept(Round(r, s).value.0)
  {
    var t := Round(r, s).value.0;
    var page := t.pages[|s.pages|];
    assert t.pages == s.pages + [page];
    RoundGrows(r, s);
    RoundKeepsKept(s, page, t.merged);
    KeptIgnoresRest(s.(merged := t.merged, pages := s.pages + [page]), t);
  }

  lemma RoundGrows(r: Reading, s: State)
    requires Kept(s) && Round(r, s).Ok?
    ensures var t := Round(r, s).value.0;
            && |t.pages| == |s.pages| + 1 && AddUnique(s.merged, t.pages[|s.pages|].records) == Some(t.merged)
            && (t.pages[|s.pages|].records != [] ==> |t.merged| > |s.merged|)
  {
    var t := Round(r, s).value.0;
    AddUniqueAdds(s.merged, t.pages[|s.pages|].records);
  }

  lemma {:induction false} LoopIsCoherent(r: Reading, s: State)
    requires Coherent(r, s) && s.count > 0 && Loop(r, s).Ok?
    ensures Coherent(r, Loop(r, s).value)
    decreases MAX_AUTO_PAGES - |s.pages|
  {
    if WantsMore(r, s) {
      RoundKeepsCoherent(r, s);
      if Round(r, s).value.1 {
        LoopIsCoherent(r, Round(r, s).value.0);
      }
    }
  }

  lemma StartIsCoherent(r: Reading, first: Page, merged: seq<Record>)
    requires first.records != [] && AddUnique([], first.records) == Some(merged)
    ensures Coherent(r, StartState(r.pager, r.base, first, merged))
  {
    AddUniqueAdds([], first.records);
    AppendedPage([], first);
    assert [] + first.records == first.records && [] + [first] == [first];
    assert first.records[0] in [first][0].records;
    assert AddsIdentity([first], 0);
  }

  /**
   * Whatever the server answers, a result marked complete comes from at least two and at most 200 pairwise
   * distinct requests, holds each identity of each fetched page exactly once in order of first appearance,
   * and is no shorter than the total last reported; every page but an empty last one brought a new identity.
   */
  lemma CompleteReadIsSound(collection: bool, schema: Schema, input: Input, serve: Server) returns (s: State)
    requires ReadFully(collection, schema, input, serve).Ok?
    requires ReadFully(collection, schema, input, serve).value.Complete?
    ensures ReadFully(collection, schema, input, serve).value == Complete(|s.pages|, s.merged)
    ensures 2 <= |s.pages| == |s.inputs| <= 200 && Distinct(s.inputs)
    ensures forall i :: 0 <= i < |s.pages| ==> serve(i + 1, s.inputs[i]) == Some(s.pages[i])
    ensures DistinctIdentities(s.merged) && |s.merged| <= 20_000
    ensures AddUnique([], AllRecords(s.pages)) == Some(s.merged)
    ensures Identities(s.merged) == Identities(AllRecords(s.pages))
    ensures forall i :: 0 <= i < |s.pages| - 1 ==> s.pages[i].records != []
    ensures forall i :: 0 <= i < |s.pages| && s.pages[i].records != [] ==> AddsIdentity(s.pages, i)
    ensures var n := |s.pages|;
            var last := if s.pages[n - 1].records == [] then s.pages[n - 2] else s.pages[n - 1];
            last.total.Some? ==> last.total.value <= |s.merged|
    ensures var end := s.pages[|s.pages| - 1];
            end.records == [] ==> !Truthy(FindMeta(end.meta, {"hasmore", "nextcursor"}))
  {
    var base := PreferredInput(schema, input);
    var first := serve(1, base).value;
    var r := Reading(schema, base, DetectPager(schema, base, first).value, serve);
    s := ExpandedIsSound(r, first);
  }

  lemma ExpandedIsSound(r: Reading, first: Page) returns (s: State)
    requires first.records != [] && ReadExpanded(r, first).Ok? && ReadExpanded(r, first).value.Complete?
    ensures ReadExpanded(r, first).value == Complete(|s.pages|, s.merged)
    ensures Coherent(r, s) && s.pages[0] == first && |s.pages| >= 2 && !Unfinished(r, s)
  {
    var start := StartState(r.pager, r.base, first, AddUnique([], first.records).value);
    StartIsCoherent(r, first, start.merged);
    LoopIsCoherent(r, start);
    LoopKeepsFirst(r, start);
    s := Loop(r, start).value;
  }

  lemma {:induction false} LoopKeepsFirst(r: Reading, s: State)
    requires s.pages != [] && Loop(r, s).Ok?
    ensures Loop(r, s).value.pages != [] && Loop(r, s).value.pages[0] == s.pages[0]
    decreases MAX_AUTO_PAGES - |s.pages|
  {
    if WantsMore(r, s) && Round(r, s).value.1 {
      LoopKeepsFirst(r, Round(r, s).value.0);
    }
  }

  // ---------- Completeness against a server of slices ----------

  /** Where slice `k` starts in a list of length `n` served `size` rows at a time. */
  function Edge(n: nat, size: nat, k: nat): (e: nat)
    ensures e <= n
  {
    if k == 0 then 0 else Min(Edge(n, size, k - 1) + size, n)
  }

  function Width(n: nat, size: nat, k: nat): nat {
    Edge(n, size, k + 1) - Edge(n, size, k)
  }

  function Slice(list: seq<Record>, size: nat, k: nat): seq<Record> {
    list[Edge(|list|, size, k)..Edge(|list|, size, k + 1)]
  }

  /** `last` is the number of the last slice with anything in it (zero for the empty list). */
  predicate IsLast(n: nat, size: nat, last: nat) {
    Edge(n, size, last + 1) == n && (last == 0 || Edge(n, size, last) < n)
  }

  lemma {:induction false} FullSlices(n: nat, size: nat, last: nat, k: nat)
    requires size > 0 && IsLast(n, size, last) && k < last
    ensures Edge(n, size, k + 1) == Edge(n, size, k) + size < n
    decreases last - k
  {
    if k + 1 < last {
      FullSlices(n, size, last, k + 1);
    }
  }

  lemma SlicesAreNonempty(n: nat, size: nat, last: nat, k: nat)
    requires size > 0 && IsLast(n, size, last) && k <= last && n > 0
    ensures Edge(n, size, k) < Edge(n, size, k + 1)
  {
    if k < last { FullSlices(n, size, last, k); }
  }

  lemma {:induction false} EdgesGrow(n: nat, size: nat, last: nat, i: nat, j: nat)
    requires size > 0 && IsLast(n, size, last) && i < j <= last + 1 && n > 0
    ensures Edge(n, size, i) < Edge(n, size, j)
    decreases j
  {
    SlicesAreNonempty(n, size, last, j - 1);
    if i < j - 1 {
      EdgesGrow(n, size, last, i, j - 1);
    }
  }

  /**
   * A walk over a list: the pages served, the requests made, the positions kept. The total reported, if any, is
   * `whole`, which may exceed the list when the walk began late or ends early.
   */
  datatype Walk = Walk(list: seq<Record>, whole: nat, size: nat, last: nat, pages: nat -> Page, inputs: nat -> Input,
                       positions: nat -> int) {
    function Count(k: nat): nat { Width(|list|, size, k) }

    function Merged(k: nat): nat { Edge(|list|, size, k + 1) }

    predicate More(r: Reading, k: nat) {
      HasNext(r.pager, pages(k), Count(k), Merged(k), positions(k))
    }

    /** From slice `k` the pager asks for slice `k + 1` and gets it. */
    predicate Moves(r: Reading, k: nat) {
      && NextInput(r.pager, r.schema, r.base, pages(k), Count(k), positions(k)) == Some(inputs(k + 1))
      && NextPosition(r.pager, Count(k), positions(k)) == positions(k + 1)
      && r.serve(k + 2, inputs(k + 1)) == Some(pages(k + 1))
    }

    predicate ServesSlice(k: nat) {
      pages(k).records == Slice(list, size, k) && (pages(k).total.None? || pages(k).total.value == whole)
    }

    /** Every page but the last leads on; if the last one does too, an empty page follows. */
    ghost predicate Led(r: Reading) {
      && size > 0 && list != [] && |list| <= whole && IsLast(|list|, size, last)
      && (forall k: nat :: k <= last ==> ServesSlice(k))
      && (forall i: nat, j: nat :: i < j <= last + 1 && (j <= last || More(r, last)) ==> inputs(i) != inputs(j))
      && inputs(0) == r.base && positions(0) == InitialPosition(r.pager)
      && (forall k: nat :: k < last ==> More(r, k) && Moves(r, k))
      && (More(r, last) ==> Moves(r, last) && pages(last + 1).records == []
                            && !Truthy(FindMeta(pages(last + 1).meta, MORE_OR_CURSOR)))
    }

    /** And no two rows are taken for the same. */
    ghost predicate Valid(r: Reading) {
      Led(r) && DistinctIdentities(list)
    }

    /**
     * The list stays within both caps, strictly so if the last page leads on, and is all that the last page's total,
     * if it reports one, announces.
     */
    predicate Fits(r: Reading) {
      WithinCaps(|list|, last + 1, More(r, last)) && (pages(last).total.Some? ==> whole == |list|)
    }

    ghost function At(k: nat): State {
      State(list[..Merged(k)], pages(k), Count(k), positions(k),
            seq(k + 1, i requires 0 <= i => inputs(i)), seq(k + 1, i requires 0 <= i => pages(i)))
    }
  }

  predicate WithinCaps(records: nat, pages: nat, leadsOn: bool) {
    && records <= 20_000 && pages <= 200
    && (leadsOn ==> records < 20_000 && pages < 200)
  }

  /** Rows `a` to `b` are appended, unless they pass the cap. */
  lemma {:induction false} AddSlice(list: seq<Record>, a: nat, b: nat)
    requires DistinctIdentities(list) && a <= b <= |list| && a <= MAX_AUTO_RECORDS
    ensures AddUnique(list[..a], list[a..b]) == if b <= MAX_AUTO_RECORDS then Some(list[..b]) else None
    decreases b - a
  {
    if a < b {
      assert list[a..b][0] == list[a] && list[a..b][1..] == list[a + 1..b];
      assert list[..a] + [list[a]] == list[..a + 1];
      assert Identity(list[a]) !in Identities(list[..a]);
      if a < MAX_AUTO_RECORDS { AddSlice(list, a + 1, b); }
    }
  }

  lemma RoundOf(r: Reading, s: State, next: Input, page: Page, merged: seq<Record>)
    requires NextInput(r.pager, r.schema, r.base, s.payload, s.count, s.position) == Some(next) && next !in s.inputs
    requires r.serve(|s.pages| + 1, next) == Some(page) && page.records != []
    requires AddUnique(s.merged, page.records) == Some(merged) && |merged| > |s.merged|
    ensures Round(r, s) == Ok((State(merged, page, |page.records|, NextPosition(r.pager, s.count, s.position),
                                     s.inputs + [next], s.pages + [page]), true))
  {
  }

  lemma WalkAppends(w: Walk, k: nat)
    ensures w.At(k).inputs + [w.inputs(k + 1)] == w.At(k + 1).inputs
    ensures w.At(k).pages + [w.pages(k + 1)] == w.At(k + 1).pages
  {
  }

  lemma WalkAddsSlice(r: Reading, w: Walk, k: nat)
    requires w.Valid(r) && k < w.last && w.Merged(k) <= MAX_AUTO_RECORDS
    ensures w.pages(k + 1).records == Slice(w.list, w.size, k + 1) != []
    ensures AddUnique(w.At(k).merged, w.pages(k + 1).records)
            == if w.Merged(k + 1) <= MAX_AUTO_RECORDS then Some(w.At(k + 1).merged) else None
    ensures |w.At(k).merged| < |w.At(k + 1).merged|
    ensures |w.pages(k + 1).records| == w.Count(k + 1)
  {
    assert w.ServesSlice(k + 1);
    SlicesAreNonempty(|w.list|, w.size, w.last, k + 1);
    AddSlice(w.list, w.Merged(k), w.Merged(k + 1));
  }

  lemma FreshRequest(r: Reading, w: Walk, k: nat)
    requires w.Valid(r) && k <= w.last && (k < w.last || w.More(r, k))
    ensures w.inputs(k + 1) !in w.At(k).inputs
  {
  }

  /** Below the caps a round goes from one slice to the next; a slice that passes the record cap fails the read. */
  lemma WalkRound(r: Reading, w: Walk, k: nat)
    requires w.Valid(r) && k < w.last && w.Merged(k) < MAX_AUTO_RECORDS && k + 1 < MAX_AUTO_PAGES
    ensures WantsMore(r, w.At(k))
    ensures w.Merged(k + 1) <= MAX_AUTO_RECORDS ==> Round(r, w.At(k)) == Ok((w.At(k + 1), true))
    ensures w.Merged(k + 1) > MAX_AUTO_RECORDS ==> Round(r, w.At(k)).Err?
  {
    assert w.More(r, k) && w.Moves(r, k);
    WalkAddsSlice(r, w, k);
    FreshRequest(r, w, k);
    if w.Merged(k + 1) <= MAX_AUTO_RECORDS {
      WalkAppends(w, k);
      RoundOf(r, w.At(k), w.inputs(k + 1), w.pages(k + 1), w.At(k + 1).merged);
    }
  }

  /** The loop ended without failing, and nothing is found missing afterwards. */
  predicate Finishes(r: Reading, s: State) {
    Loop(r, s).Ok? && !Unfinished(r, Loop(r, s).value)
  }

  lemma WalkEnds(r: Reading, w: Walk)
    requires w.Valid(r) && |w.list| <= MAX_AUTO_RECORDS && w.last + 1 <= MAX_AUTO_PAGES
    ensures Finishes(r, w.At(w.last)) <==> w.Fits(r)
    ensures Finishes(r, w.At(w.last)) ==>
              var end := Loop(r, w.At(w.last)).value; end.merged == w.list && |end.pages| >= w.last + 1
  {
    var s := w.At(w.last);
    assert w.list[..|w.list|] == w.list;
    assert w.ServesSlice(w.last);
    SlicesAreNonempty(|w.list|, w.size, w.last, w.last);
    if WantsMore(r, s) {
      assert w.More(r, w.last);
      FreshRequest(r, w, w.last);
      assert Round(r, s).Ok? ==> !Round(r, s).value.1;
    }
  }

  /** A loop that stops at a cap before the last slice knows that it is not done. */
  lemma StoppedEarly(r: Reading, w: Walk, k: nat)
    requires w.Valid(r) && k < w.last && (w.Merged(k) >= MAX_AUTO_RECORDS || k + 1 >= MAX_AUTO_PAGES)
    ensures Loop(r, w.At(k)) == Ok(w.At(k)) && Unfinished(r, w.At(k)) && !w.Fits(r)
  {
    assert w.More(r, k);
    SlicesAreNonempty(|w.list|, w.size, w.last, k);
    EdgesGrow(|w.list|, w.size, w.last, k + 1, w.last + 1);
  }

  lemma {:induction false} WalkIsFollowed(r: Reading, w: Walk, k: nat)
    requires w.Valid(r) && k <= w.last && w.Merged(k) <= MAX_AUTO_RECORDS && k + 1 <= MAX_AUTO_PAGES
    ensures Finishes(r, w.At(k)) <==> w.Fits(r)
    ensures Finishes(r, w.At(k)) ==>
              var end := Loop(r, w.At(k)).value; end.merged == w.list && |end.pages| >= w.last + 1
    decreases w.last - k
  {
    if k == w.last {
      WalkEnds(r, w);
    } else if w.Merged(k) == MAX_AUTO_RECORDS || k + 1 == MAX_AUTO_PAGES {
      StoppedEarly(r, w, k);
    } else {
      WalkRound(r, w, k);
      if w.Merged(k + 1) <= MAX_AUTO_RECORDS { WalkIsFollowed(r, w, k + 1); }
    }
  }

  /** A walk is read to its end exactly when it fits the caps, and whatever is returned is the whole list. */
  lemma WalkReadsList(r: Reading, w: Walk)
    requires w.Valid(r)
    ensures var result := ReadExpanded(r, w.pages(0));
            (result.Ok? <==> w.Fits(r)) && (result.Ok? ==> RecordsOf(result.value) == w.list)
  {
    var n, first := |w.list|, w.pages(0);
    assert w.ServesSlice(0);
    EdgesGrow(n, w.size, w.last, 0, 1);
    AddSlice(w.list, 0, Edge(n, w.size, 1));
    assert w.list[..0] == [] && w.list[0..n] == w.list;
    if Edge(n, w.size, 1) <= MAX_AUTO_RECORDS {
      var start := StartState(r.pager, r.base, first, w.list[..Edge(n, w.size, 1)]);
      assert start == w.At(0) by {
        assert start.inputs == w.At(0).inputs && start.pages == w.At(0).pages;
      }
      WalkIsFollowed(r, w, 0);
      LoopKeepsPages(r, start);
      if Loop(r, start).Ok? { LoopKeepsFirst(r, start); }
    }
  }
}
