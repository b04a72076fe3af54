// Reserving a chat turn: one receipt per message, one generation per reserved turn, in call order.
module TurnCoordinator {
  import opened Common
  import Q = TurnQueue
  import TextFragments

  datatype Request = Request(channel: string, user: string, peer: string, message: string)

  function ChatKey(r: Request): string { r.channel + ":" + r.user + ":" + r.peer }

  function ReceiptKey(r: Request): string { ChatKey(r) + ":" + r.message }

  /** The unique columns of a receipt row; peer and message are cut to 200 characters. */
  datatype Receipt = Receipt(channel: string, user: string, peer: string, message: string)

  function ReceiptOf(r: Request): Receipt {
    Receipt(r.channel, r.user, Prefix(r.peer, 200), Prefix(r.message, 200))
  }

  /** Outcome of the insert; `SchemaLag` means the receipt table is missing. */
  datatype Reply = NotAsked | Inserted | Duplicate | SchemaLag | Failed

  datatype Handle = Handle(key: string, generation: nat)

  /** The process-wide maps a reservation touches. */
  datatype Memory = Memory(generations: map<string, nat>, fallback: set<string>)

  function NextGeneration(m: Memory, key: string): nat {
    (if key in m.generations then m.generations[key] else 0) + 1
  }

  function Grant(m: Memory, key: string): (Memory, Option<Handle>) {
    var g := NextGeneration(m, key);
    (m.(generations := m.generations[key := g]), Some(Handle(key, g)))
  }

  /** The code between the end of the insert and the release of the queue. */
  function Conclude(m: Memory, r: Request, reply: Reply): (Memory, Option<Handle>) {
    match reply
    case Inserted => Grant(m, ChatKey(r))
    case SchemaLag =>
      if ReceiptKey(r) in m.fallback then (m, None)
      else Grant(m.(fallback := m.fallback + {ReceiptKey(r)}), ChatKey(r))
    case _ => (m, None)
  }

  predicate IsCurrent(m: Memory, h: Handle) {
    h.key in m.generations && m.generations[h.key] == h.generation
  }

  // ---------- The module's mutable state ----------

  class SalesTurnCoordinator {
    var generations: map<string, nat>
    var fallbackReceipts: set<string>
    var textFragments: map<string, seq<string>>

    constructor ()
      ensures InMemory() == Memory(map[], {}) && textFragments == map[]
    {
      generations, fallbackReceipts, textFragments := map[], {}, map[];
    }

    function InMemory(): Memory
      reads this
    {
      Memory(generations, fallbackReceipts)
    }

    function Bucket(key: string): seq<string>
      reads this
    {
      if key in textFragments then textFragments[key] else []
    }

    method ConcludeReservation(r: Request, reply: Reply) returns (handle: Option<Handle>)
      modifies this`generations, this`fallbackReceipts
      ensures (InMemory(), handle) == Conclude(old(InMemory()), r, reply)
      ensures handle.Some? <==> reply == Inserted || (reply == SchemaLag && ReceiptKey(r) !in old(fallbackReceipts))
      ensures fallbackReceipts == old(fallbackReceipts) + if reply == SchemaLag then {ReceiptKey(r)} else {}
      ensures handle.Some? ==>
                && handle.value.key == ChatKey(r) && ChatKey(r) in generations
                && handle.value.generation == generations[ChatKey(r)]
                && generations[ChatKey(r)]
                   == 1 + if ChatKey(r) in old(generations) then old(generations)[ChatKey(r)] else 0
      ensures forall k :: k != ChatKey(r) || handle.None? ==>
                && (k in generations <==> k in old(generations))
                && (k in generations ==> generations[k] == old(generations)[k])
    {
      var key := ChatKey(r);
      if reply == SchemaLag {
        if ReceiptKey(r) in fallbackReceipts { return None; }
        fallbackReceipts := fallbackReceipts + {ReceiptKey(r)};
      } else if reply != Inserted {
        return None;
      }
      var generation := (if key in generations then generations[key] else 0) + 1;
      generations := generations[key := generation];
      return Some(Handle(key, generation));
    }

    method BufferSalesTextFragment(turn: Handle, text: string)
      modifies this`textFragments
      ensures Bucket(turn.key) == TextFragments.Buffered(old(Bucket(turn.key)), text)
      ensures forall k :: k != turn.key ==> Bucket(k) == old(Bucket(k))
    {
      var clean := TextFragments.Clean(text);
      if clean == "" { return; }
      var items := Bucket(turn.key) + [clean];
      if |items| > TextFragments.MAX_PENDING { items := items[|items| - TextFragments.MAX_PENDING..]; }
      textFragments := textFragments[turn.key := items];
    }

    method ConsumeSalesTextFragments(turn: Handle, currentText: Option<string>) returns (text: Option<string>)
      modifies this`textFragments
      ensures (Bucket(turn.key), text) == TextFragments.Consumed(old(Bucket(turn.key)), currentText)
      ensures forall k :: k != turn.key ==> Bucket(k) == old(Bucket(k))
    {
      var items := Bucket(turn.key);
      if currentText.Some? && Squeeze(currentText.value) != "" {
        items := items + [Squeeze(currentText.value)];
      }
      assert items == TextFragments.Items(Bucket(turn.key), currentText);
      if items == [] { return None; }
      textFragments := textFragments - {turn.key};
      return Some(Prefix(Join(items, "\n"), TextFragments.MAX_JOINED));
    }
  }

  // ---------- Concurrent reservations ----------

  /** `grants` records, in time order, which call received which handle. */
  datatype World = World(queue: Q.State, requests: seq<Request>, replies: seq<Reply>, rows: set<Receipt>,
                         memory: Memory, grants: seq<(nat, Handle)>)

  const INITIAL := World(Q.EMPTY, [], [], {}, Memory(map[], {}), [])

  datatype Step =
    | Arrive(r: Request)
    | Advance(inner: Q.Step)            // queue bookkeeping: start, settle, microtask, callback
    | Insert(i: nat, reply: Reply)      // the database answers call `i`
    | FailLate(i: nat)                  // the row is written but the caller sees an error
    | Finish(i: nat)                    // call `i` runs to its return and releases the queue
    | OtherProcess(row: Receipt)        // another server process stores a receipt

  /** The database's answers to an insert, depending on whether the row and the table exist. */
  predicate Possible(reply: Reply, stored: bool, table: bool) {
    match reply
    case NotAsked => false
    case Inserted => table && !stored
    case Duplicate => table && stored
    case SchemaLag => !table
    case Failed => true
  }

  /** `table` says whether the receipt table exists; it does so throughout a run or not at all. */
  predicate Enabled(w: World, step: Step, table: bool) {
    match step
    case Arrive(_) => true
    case Advance(inner) => !inner.Enqueue? && !inner.Release? && Q.Enabled(w.queue, inner)
    case Insert(i, reply) =>
      Asking(w, i) && Possible(reply, ReceiptOf(w.requests[i]) in w.rows, table)
    case FailLate(i) => Asking(w, i) && table
    case Finish(i) => i < |w.replies| && w.replies[i] != NotAsked && Q.Enabled(w.queue, Q.Release(i))
      && i < |w.requests|
    case OtherProcess(_) => table
  }

  predicate Asking(w: World, i: nat) {
    && i < |w.requests| && i < |w.replies| && i < |w.queue.calls|
    && w.replies[i] == NotAsked && w.queue.calls[i].phase == Q.Running
  }

  function Apply(w: World, step: Step, table: bool): World
    requires Enabled(w, step, table)
  {
    match step
    case Arrive(r) =>
      w.(queue := Q.Apply(w.queue, Q.Enqueue(ChatKey(r))), requests := w.requests + [r],
          replies := w.replies + [NotAsked])
    case Advance(inner) => w.(queue := Q.Apply(w.queue, inner))
    case Insert(i, reply) =>
      w.(replies := w.replies[i := reply],
         rows := if reply == Inserted then w.rows + {ReceiptOf(w.requests[i])} else w.rows)
    case FailLate(i) => w.(replies := w.replies[i := Failed], rows := w.rows + {ReceiptOf(w.requests[i])})
    case Finish(i) =>
      var (memory, handle) := Conclude(w.memory, w.requests[i], w.replies[i]);
      w.(queue := Q.Apply(w.queue, Q.Release(i)), memory := memory,
         grants := if handle.Some? then w.grants + [(i, handle.value)] else w.grants)
    case OtherProcess(row) => w.(rows := w.rows + {row})
  }

  function Run(w: World, steps: seq<Step>, table: bool): Option<World>
    decreases |steps|
  {
    if steps == [] then Some(w)
    else if !Enabled(w, steps[0], table) then None
    else Run(Apply(w, steps[0], table), steps[1..], table)
  }

  // ---------- Invariants ----------

  ghost predicate Shape(w: World) {
    && Q.Invariant(w.queue)
    && |w.requests| == |w.replies| == |w.queue.calls|
    && forall i :: 0 <= i < |w.requests| ==> w.queue.calls[i].key == ChatKey(w.requests[i])
  }

  predicate GrantIsReleased(w: World, grant: (nat, Handle)) {
    && grant.0 < |w.requests| && grant.0 < |w.queue.calls|
    && w.queue.calls[grant.0].phase == Q.Released
    && grant.1.key == ChatKey(w.requests[grant.0])
  }

  ghost predicate GrantsAreReleased(w: World) {
    forall a :: 0 <= a < |w.grants| ==> GrantIsReleased(w, w.grants[a])
  }

  predicate SameChat(w: World, a: nat, b: nat)
    requires a < |w.grants| && b < |w.grants|
  {
    w.grants[a].1.key == w.grants[b].1.key
  }

  /** Later grants of a chat belong to later calls and carry larger generations. */
  ghost predicate GrantsAreOrdered(w: World) {
    forall a, b :: 0 <= a < b < |w.grants| && SameChat(w, a, b) ==>
      w.grants[a].0 < w.grants[b].0 && w.grants[a].1.generation < w.grants[b].1.generation
  }

  predicate IsNewest(w: World, a: nat)
    requires a < |w.grants|
  {
    forall b :: a < b < |w.grants| ==> !SameChat(w, a, b)
  }

  ghost predicate NewestIsCurrent(w: World) {
    && (forall a :: 0 <= a < |w.grants| ==>
          w.grants[a].1.key in w.memory.generations
            && w.grants[a].1.generation <= w.memory.generations[w.grants[a].1.key])
    && (forall a :: 0 <= a < |w.grants| && IsNewest(w, a) ==> IsCurrent(w.memory, w.grants[a].1))
  }

  ghost predicate ReceiptsAreUnique(w: World) {
    && |w.requests| == |w.replies|
    && (forall i :: 0 <= i < |w.replies| && w.replies[i] == Inserted ==> ReceiptOf(w.requests[i]) in w.rows)
    && (forall i, j :: 0 <= i < j < |w.replies| && w.replies[i] == w.replies[j] == Inserted ==>
          ReceiptOf(w.requests[i]) != ReceiptOf(w.requests[j]))
  }

  ghost predicate RepliesMatchTable(w: World, table: bool) {
    forall i :: 0 <= i < |w.replies| ==> (w.replies[i] == Inserted ==> table) && (w.replies[i] == SchemaLag ==> !table)
  }

  ghost predicate GrantsHaveReceipts(w: World) {
    forall a :: 0 <= a < |w.grants| ==>
      && w.grants[a].0 < |w.replies| && w.grants[a].0 < |w.requests|
      && (w.replies[w.grants[a].0] == Inserted || w.replies[w.grants[a].0] == SchemaLag)
      && (w.replies[w.grants[a].0] == SchemaLag ==> ReceiptKey(w.requests[w.grants[a].0]) in w.memory.fallback)
  }

  predicate ByFallback(w: World, a: nat)
    requires a < |w.grants|
  {
    var i := w.grants[a].0;
    i < |w.replies| && i < |w.requests| && w.replies[i] == SchemaLag
  }

  ghost predicate FallbackIsUnique(w: World) {
    forall a, b :: 0 <= a < b < |w.grants| && ByFallback(w, a) && ByFallback(w, b) ==>
      ReceiptKey(w.requests[w.grants[a].0]) != ReceiptKey(w.requests[w.grants[b].0])
  }

  ghost predicate GrantsAreDistinct(w: World) {
    forall a, b :: 0 <= a < b < |w.grants| ==> w.grants[a].0 != w.grants[b].0
  }

  ghost predicate Invariant(w: World, table: bool) {
    && Shape(w) && GrantsAreReleased(w) && GrantsAreOrdered(w) && NewestIsCurrent(w) && ReceiptsAreUnique(w)
    && RepliesMatchTable(w, table) && GrantsHaveReceipts(w) && FallbackIsUnique(w) && GrantsAreDistinct(w)
  }

  /** While call `i` is running, every grant of its chat went to an earlier call. */
  lemma EarlierGrantsOnly(w: World, i: nat, a: nat)
    requires Shape(w) && GrantsAreReleased(w) && a < |w.grants| && i < |w.queue.calls|
    requires w.queue.calls[i].phase == Q.Running && w.grants[a].1.key == ChatKey(w.requests[i])
    ensures w.grants[a].0 < i
  {
    var j := w.grants[a].0;
    assert GrantIsReleased(w, w.grants[a]);
    if i < j { Q.EarlierAreReleased(w.queue, i, j); }
  }

  /** `t` has the grants of `w` and one more, the next generation of its chat, made to call `i`. */
  ghost predicate GrantsOneMore(w: World, t: World, i: nat, key: string) {
    && i < |w.requests| && key == ChatKey(w.requests[i])
    && t.grants == w.grants + [(i, Handle(key, NextGeneration(w.memory, key)))]
    && t.memory.generations == w.memory.generations[key := NextGeneration(w.memory, key)]
    && forall a :: 0 <= a < |w.grants| && w.grants[a].1.key == key ==> w.grants[a].0 < i
  }

  lemma NewGrantIsOrdered(w: World, t: World, i: nat, key: string)
    requires GrantsAreOrdered(w) && NewestIsCurrent(w) && GrantsOneMore(w, t, i, key)
    ensures GrantsAreOrdered(t)
  {
    var n := |w.grants|;
    forall a, b | 0 <= a < b < |t.grants| && SameChat(t, a, b)
      ensures t.grants[a].0 < t.grants[b].0 && t.grants[a].1.generation < t.grants[b].1.generation {
      if b < n {
        assert SameChat(w, a, b);
      } else {
        assert w.grants[a].1.key == key;
      }
    }
  }

  lemma NewGrantIsCurrent(w: World, t: World, i: nat, key: string)
    requires NewestIsCurrent(w) && GrantsOneMore(w, t, i, key)
    ensures NewestIsCurrent(t)
  {
    var n := |w.grants|;
    forall a | 0 <= a < n && IsNewest(t, a) ensures IsCurrent(t.memory, t.grants[a].1) {
      assert !SameChat(t, a, n);
      forall b | a < b < n ensures !SameChat(w, a, b) { assert !SameChat(t, a, b); }
      assert IsNewest(w, a);
    }
  }

  lemma SameGrantsKeep(w: World, t: World)
    requires t.grants == w.grants && t.memory.generations == w.memory.generations
    requires GrantsAreOrdered(w) && NewestIsCurrent(w)
    ensures GrantsAreOrdered(t) && NewestIsCurrent(t)
  {
    forall a, b | 0 <= a < b < |t.grants| && SameChat(t, a, b) ensures SameChat(w, a, b) { }
    forall a | 0 <= a < |t.grants| && IsNewest(t, a) ensures IsNewest(w, a) {
      forall b | a < b < |w.grants| ensures !SameChat(w, a, b) { assert !SameChat(t, a, b); }
    }
  }

  /** Calls and requests are only added, released calls stay released, answers once given stay. */
  ghost predicate Grows(w: World, t: World) {
    && Shape(w) && Shape(t) && |w.requests| <= |t.requests| && w.rows <= t.rows
      && w.memory.fallback <= t.memory.fallback
    && forall i :: 0 <= i < |w.requests| ==>
         && t.requests[i] == w.requests[i]
         && (w.queue.calls[i].phase == Q.Released ==> t.queue.calls[i].phase == Q.Released)
         && (w.replies[i] != NotAsked ==> t.replies[i] == w.replies[i])
  }

  lemma GrowthKeepsGrants(w: World, t: World)
    requires Grows(w, t) && t.grants == w.grants
    requires GrantsAreReleased(w) && GrantsHaveReceipts(w) && FallbackIsUnique(w)
    ensures GrantsAreReleased(t) && GrantsHaveReceipts(t) && FallbackIsUnique(t)
  {
    forall a, b | 0 <= a < b < |t.grants| && ByFallback(t, a) && ByFallback(t, b)
      ensures ReceiptKey(t.requests[t.grants[a].0]) != ReceiptKey(t.requests[t.grants[b].0]) {
      assert ByFallback(w, a) && ByFallback(w, b);
    }
  }

  /** A queue step, or none, with answers filled in for calls that had none. */
  lemma MovedQueue(w: World, t: World)
    requires Shape(w) && Q.Invariant(t.queue) && Q.CallsGrow(w.queue, t.queue) && |t.queue.calls| == |w.queue.calls|
    requires t.requests == w.requests && |t.replies| == |w.replies|
    requires w.rows <= t.rows && w.memory.fallback <= t.memory.fallback
    requires forall i :: 0 <= i < |w.replies| && w.replies[i] != NotAsked ==> t.replies[i] == w.replies[i]
    ensures Shape(t) && Grows(w, t)
  {
  }

  lemma ArriveKeepsShape(w: World, r: Request, table: bool)
    requires Shape(w)
    ensures Shape(Apply(w, Arrive(r), table)) && Grows(w, Apply(w, Arrive(r), table))
  {
    Q.StepKeepsInvariant(w.queue, Q.Enqueue(ChatKey(r)));
    Q.StepGrows(w.queue, Q.Enqueue(ChatKey(r)));
    var q, t := Q.Apply(w.queue, Q.Enqueue(ChatKey(r))), Apply(w, Arrive(r), table);
    assert t.queue == q && q.calls[|w.requests|].key == ChatKey(r);
  }

  lemma QuietKeepsShape(w: World, step: Step, table: bool)
    requires Shape(w) && Enabled(w, step, table) && !step.Finish?
    ensures Shape(Apply(w, step, table)) && Grows(w, Apply(w, step, table))
  {
    match step
    case Arrive(r) => ArriveKeepsShape(w, r, table);
    case Advance(inner) =>
      Q.StepKeepsInvariant(w.queue, inner);
      Q.StepGrows(w.queue, inner);
      MovedQueue(w, Apply(w, step, table));
    case Insert(i, _) => MovedQueue(w, Apply(w, step, table));
    case FailLate(i) => MovedQueue(w, Apply(w, step, table));
    case OtherProcess(_) => MovedQueue(w, Apply(w, step, table));
  }

  /** Call `i`, not stored before, is answered; only an answer `Inserted` claims a fresh row. */
  lemma AnswerKeepsReceipts(w: World, t: World, i: nat, reply: Reply)
    requires ReceiptsAreUnique(w) && i < |w.replies| && t.requests == w.requests
    requires t.replies == w.replies[i := reply] && w.rows <= t.rows
    requires reply == Inserted ==> ReceiptOf(w.requests[i]) !in w.rows && ReceiptOf(w.requests[i]) in t.rows
    ensures ReceiptsAreUnique(t)
  {
  }

  lemma QuietKeepsReceipts(w: World, step: Step, table: bool)
    requires ReceiptsAreUnique(w) && Enabled(w, step, table) && !step.Finish?
    ensures ReceiptsAreUnique(Apply(w, step, table))
  {
    match step
    case Arrive(r) =>
    case Advance(inner) =>
    case Insert(i, reply) => AnswerKeepsReceipts(w, Apply(w, step, table), i, reply);
    case FailLate(i) => AnswerKeepsReceipts(w, Apply(w, step, table), i, Failed);
    case OtherProcess(_) =>
  }

  lemma QuietKeepsReplies(w: World, step: Step, table: bool)
    requires RepliesMatchTable(w, table) && Enabled(w, step, table) && !step.Finish?
    ensures RepliesMatchTable(Apply(w, step, table), table)
  {
  }

  lemma QuietKeeps(w: World, step: Step, table: bool)
    requires Invariant(w, table) && Enabled(w, step, table) && !step.Finish?
    ensures Invariant(Apply(w, step, table), table)
  {
    var t := Apply(w, step, table);
    QuietKeepsShape(w, step, table);
    SameGrantsKeep(w, t);
    GrowthKeepsGrants(w, t);
    QuietKeepsReceipts(w, step, table);
    QuietKeepsReplies(w, step, table);
  }

  lemma FinishKeepsShape(w: World, i: nat, table: bool)
    requires Shape(w) && Enabled(w, Finish(i), table)
    ensures Shape(Apply(w, Finish(i), table)) && Grows(w, Apply(w, Finish(i), table))
  {
    Q.StepKeepsInvariant(w.queue, Q.Release(i));
    Q.StepGrows(w.queue, Q.Release(i));
    MovedQueue(w, Apply(w, Finish(i), table));
  }

  /** The answer of call `i` does not entitle it to a handle. */
  lemma RefusalKeeps(w: World, i: nat, table: bool)
    requires Invariant(w, table) && Enabled(w, Finish(i), table)
    requires Conclude(w.memory, w.requests[i], w.replies[i]).1.None?
    ensures Invariant(Apply(w, Finish(i), table), table)
  {
    var t := Apply(w, Finish(i), table);
    FinishKeepsShape(w, i, table);
    SameGrantsKeep(w, t);
    GrowthKeepsGrants(w, t);
  }

  lemma GrantIsOneMore(w: World, i: nat, table: bool)
    requires Shape(w) && GrantsAreReleased(w) && Enabled(w, Finish(i), table)
    requires Conclude(w.memory, w.requests[i], w.replies[i]).1.Some?
    ensures GrantsOneMore(w, Apply(w, Finish(i), table), i, ChatKey(w.requests[i]))
  {
    var key, t := ChatKey(w.requests[i]), Apply(w, Finish(i), table);
    forall a | 0 <= a < |w.grants| && w.grants[a].1.key == key ensures w.grants[a].0 < i {
      EarlierGrantsOnly(w, i, a);
    }
    assert t.grants == w.grants + [(i, Handle(key, NextGeneration(w.memory, key)))];
  }

  lemma GrantKeeps(w: World, i: nat, table: bool)
    requires Invariant(w, table) && Enabled(w, Finish(i), table)
    requires Conclude(w.memory, w.requests[i], w.replies[i]).1.Some?
    ensures Invariant(Apply(w, Finish(i), table), table)
  {
    var t := Apply(w, Finish(i), table);
    var key := ChatKey(w.requests[i]);
    FinishKeepsShape(w, i, table);
    GrantIsOneMore(w, i, table);
    NewGrantIsOrdered(w, t, i, key);
    NewGrantIsCurrent(w, t, i, key);
    NewGrantIsReleased(w, t, i);
    NewGrantHasReceipt(w, t, i);
    NewGrantIsUnique(w, t, i);
  }

  lemma StaysReleased(w: World, t: World, grant: (nat, Handle))
    requires Grows(w, t) && GrantIsReleased(w, grant)
    ensures GrantIsReleased(t, grant)
  {
  }

  lemma NewGrantIsReleased(w: World, t: World, i: nat)
    requires Grows(w, t) && GrantsAreReleased(w) && GrantsAreDistinct(w)
    requires i < |w.requests| && GrantsOneMore(w, t, i, ChatKey(w.requests[i]))
    requires w.queue.calls[i].phase == Q.Running && t.queue.calls[i].phase == Q.Released
    ensures GrantsAreReleased(t) && GrantsAreDistinct(t)
  {
    forall a | 0 <= a < |w.grants|
        ensures t.grants[a] == w.grants[a] && t.grants[a].0 != i && GrantIsReleased(t, t.grants[a]) {
      assert GrantIsReleased(w, w.grants[a]);
      StaysReleased(w, t, w.grants[a]);
    }
  }

  ghost predicate EarnedBy(w: World, t: World, i: nat) {
    && i < |w.requests| && t.grants != [] && t.grants[..|t.grants| - 1] == w.grants && t.grants[|t.grants| - 1].0 == i
    && i < |t.replies| && i < |t.requests| && (t.replies[i] == Inserted || t.replies[i] == SchemaLag)
    && (t.replies[i] == SchemaLag ==> ReceiptKey(t.requests[i]) in t.memory.fallback - w.memory.fallback)
  }

  lemma NewGrantHasReceipt(w: World, t: World, i: nat)
    requires Grows(w, t) && GrantsHaveReceipts(w) && EarnedBy(w, t, i)
    ensures GrantsHaveReceipts(t)
  {
    forall a | 0 <= a < |w.grants| ensures t.grants[a] == w.grants[a] { }
  }

  lemma NewGrantIsUnique(w: World, t: World, i: nat)
    requires Grows(w, t) && GrantsHaveReceipts(w) && FallbackIsUnique(w) && EarnedBy(w, t, i)
    ensures FallbackIsUnique(t)
  {
    var n := |w.grants|;
    forall a, b | 0 <= a < b < |t.grants| && ByFallback(t, a) && ByFallback(t, b)
      ensures ReceiptKey(t.requests[t.grants[a].0]) != ReceiptKey(t.requests[t.grants[b].0]) {
      OldFallback(w, t, a);
      if b < n { OldFallback(w, t, b); }
    }
  }

  lemma OldFallback(w: World, t: World, a: nat)
    requires Grows(w, t) && GrantsHaveReceipts(w) && a < |w.grants| <= |t.grants| && t.grants[a] == w.grants[a]
    ensures t.grants[a].0 < |w.requests| && t.requests[t.grants[a].0] == w.requests[t.grants[a].0]
    ensures ByFallback(t, a) ==> ByFallback(w, a) && ReceiptKey(w.requests[w.grants[a].0]) in w.memory.fallback
  {
  }

  lemma StepKeepsInvariant(w: World, step: Step, table: bool)
    requires Invariant(w, table) && Enabled(w, step, table)
    ensures Invariant(Apply(w, step, table), table)
  {
    if !step.Finish? {
      QuietKeeps(w, step, table);
    } else if Conclude(w.memory, w.requests[step.i], w.replies[step.i]).1.Some? {
      GrantKeeps(w, step.i, table);
    } else {
      RefusalKeeps(w, step.i, table);
    }
  }

  lemma {:induction false} RunKeepsInvariant(w: World, steps: seq<Step>, table: bool)
    requires Invariant(w, table) && Run(w, steps, table).Some?
    ensures Invariant(Run(w, steps, table).value, table)
    decreases |steps|
  {
    if steps != [] {
      StepKeepsInvariant(w, steps[0], table);
      RunKeepsInvariant(Apply(w, steps[0], table), steps[1..], table);
    }
  }

  // ---------- What every run guarantees ----------

  /** Two grants never rest on one receipt row, nor on one in-memory receipt. */
  lemma ReceiptsTellApart(w: World, table: bool, a: nat, b: nat)
    requires ReceiptsAreUnique(w) && RepliesMatchTable(w, table) && GrantsHaveReceipts(w)
    requires FallbackIsUnique(w) && GrantsAreDistinct(w) && a < b < |w.grants|
    ensures w.grants[a].0 < |w.requests| && w.grants[b].0 < |w.requests|
    ensures var r, s := w.requests[w.grants[a].0], w.requests[w.grants[b].0];
            if table then ReceiptOf(r) != ReceiptOf(s) else ReceiptKey(r) != ReceiptKey(s)
  {
    var i, j := w.grants[a].0, w.grants[b].0;
    assert i != j;
    if table {
      assert w.replies[i] == Inserted && w.replies[j] == Inserted;
    } else {
      assert ByFallback(w, a) && ByFallback(w, b);
    }
  }

  /** Redelivering a message never yields a second handle. */
  lemma OneHandlePerMessage(steps: seq<Step>, table: bool, a: nat, b: nat)
    requires Run(INITIAL, steps, table).Some?
    ensures var w := Run(INITIAL, steps, table).value;
            a < b < |w.grants| ==>
              && w.grants[a].0 < |w.requests| && w.grants[b].0 < |w.requests|
              && w.requests[w.grants[a].0] != w.requests[w.grants[b].0]
  {
    RunKeepsInvariant(INITIAL, steps, table);
    var w := Run(INITIAL, steps, table).value;
    if a < b < |w.grants| { ReceiptsTellApart(w, table, a, b); }
  }

  /** Within a chat the order of calls, of grants and of generations is one and the same. */
  lemma GenerationsFollowCallOrder(steps: seq<Step>, table: bool, a: nat, b: nat)
    requires Run(INITIAL, steps, table).Some?
    ensures var w := Run(INITIAL, steps, table).value;
            a < |w.grants| && b < |w.grants| && SameChat(w, a, b) ==>
              && (w.grants[a].0 < w.grants[b].0 <==> a < b)
              && (w.grants[a].1.generation < w.grants[b].1.generation <==> a < b)
  {
    RunKeepsInvariant(INITIAL, steps, table);
    var w := Run(INITIAL, steps, table).value;
    if a < |w.grants| && b < |w.grants| && SameChat(w, a, b) {
      OrderIsTotal(w, a, b);
    }
  }

  lemma OrderIsTotal(w: World, a: nat, b: nat)
    requires GrantsAreOrdered(w) && a < |w.grants| && b < |w.grants| && SameChat(w, a, b)
    ensures w.grants[a].0 < w.grants[b].0 <==> a < b
    ensures w.grants[a].1.generation < w.grants[b].1.generation <==> a < b
  {
    assert SameChat(w, b, a);
  }

  predicate SameQueue(w: World, i: nat, j: nat) {
    i < j < |w.requests| && ChatKey(w.requests[i]) == ChatKey(w.requests[j])
  }

  /** A reservation starts only after all earlier ones of its chat have returned: one at a time, in call order. */
  lemma ReservationsAreSerial(steps: seq<Step>, table: bool, i: nat, j: nat)
    requires Run(INITIAL, steps, table).Some?
    ensures var w := Run(INITIAL, steps, table).value;
            && |w.requests| == |w.queue.calls|
            && (SameQueue(w, i, j) && w.queue.calls[j].phase != Q.Waiting ==> w.queue.calls[i].phase == Q.Released)
  {
    RunKeepsInvariant(INITIAL, steps, table);
    var w := Run(INITIAL, steps, table).value;
    if SameQueue(w, i, j) && w.queue.calls[j].phase != Q.Waiting {
      Q.EarlierAreReleased(w.queue, i, j);
    }
  }

  /** A turn is current exactly while no newer turn of its chat has been granted. */
  lemma OnlyNewestIsCurrent(steps: seq<Step>, table: bool, a: nat)
    requires Run(INITIAL, steps, table).Some?
    ensures var w := Run(INITIAL, steps, table).value;
            a < |w.grants| ==> (IsCurrent(w.memory, w.grants[a].1) <==> IsNewest(w, a))
  {
    RunKeepsInvariant(INITIAL, steps, table);
    var w := Run(INITIAL, steps, table).value;
    if a < |w.grants| && !IsNewest(w, a) {
      var b :| a < b < |w.grants| && SameChat(w, a, b);
      assert w.grants[b].1.generation <= w.memory.generations[w.grants[b].1.key];
    }
  }

  // ---------- Which requests share a chat, and which a receipt ----------

  predicate NoColon(s: string) {
    forall i :: 0 <= i < |s| ==> s[i] != ':'
  }

  lemma FirstPart(a: string, x: string, b: string, y: string)
    requires NoColon(a) && NoColon(b) && a + ":" + x == b + ":" + y
    ensures a == b && x == y
  {
    var t := a + ":" + x;
    assert t == b + ":" + y && t[|a|] == ':' && t[|b|] == ':';
    assert (forall i :: 0 <= i < |a| ==> t[i] == a[i]) && forall i :: 0 <= i < |b| ==> t[i] == b[i];
    assert t[..|a|] == a && t[..|b|] == b && t[|a| + 1..] == x && t[|b| + 1..] == y;
  }

  /** Channels and user ids hold no colon, so two requests are of one chat exactly if they agree in all three parts. */
  lemma SameChatIff(r: Request, s: Request)
    requires NoColon(r.channel) && NoColon(s.channel) && NoColon(r.user) && NoColon(s.user)
    ensures ChatKey(r) == ChatKey(s) <==> r.channel == s.channel && r.user == s.user && r.peer == s.peer
  {
    if ChatKey(r) == ChatKey(s) {
      assert ChatKey(r) == r.channel + ":" + (r.user + ":" + r.peer);
      assert ChatKey(s) == s.channel + ":" + (s.user + ":" + s.peer);
      FirstPart(r.channel, r.user + ":" + r.peer, s.channel, s.user + ":" + s.peer);
      FirstPart(r.user, r.peer, s.user, s.peer);
    }
  }

  /** Within a chat, two requests share the in-memory receipt exactly if they carry the same message. */
  lemma SameFallbackIff(r: Request, s: Request)
    requires ChatKey(r) == ChatKey(s)
    ensures ReceiptKey(r) == ReceiptKey(s) <==> r.message == s.message
  {
    var n := |ChatKey(r)| + 1;
    assert ReceiptKey(r)[n..] == r.message && ReceiptKey(s)[n..] == s.message;
  }

  /** Two requests share a receipt row exactly if channel, user and 200 characters of peer and message are equal. */
  lemma SameReceiptIff(r: Request, s: Request)
    ensures ReceiptOf(r) == ReceiptOf(s) <==>
              && r.channel == s.channel && r.user == s.user
              && (forall i :: 0 <= i < 200 ==> SameAt(r.peer, s.peer, i) && SameAt(r.message, s.message, i))
  {
    SamePrefixIff(r.peer, s.peer);
    SamePrefixIff(r.message, s.message);
  }

  predicate SameAt(a: string, b: string, i: nat) {
    (i < |a| <==> i < |b|) && (i < |a| && i < |b| ==> a[i] == b[i])
  }

  lemma SamePrefixIff(a: string, b: string)
    ensures Prefix(a, 200) == Prefix(b, 200) <==> forall i :: 0 <= i < 200 ==> SameAt(a, b, i)
  {
    if Prefix(a, 200) == Prefix(b, 200) {
      forall i | 0 <= i < 200 ensures SameAt(a, b, i) {
        if i < |a| { assert a[i] == Prefix(a, 200)[i]; }
        if i < |b| { assert b[i] == Prefix(b, 200)[i]; }
      }
    }
    if forall i :: 0 <= i < 200 ==> SameAt(a, b, i) {
      assert |a| < 200 ==> SameAt(a, b, |a|);
      assert |b| < 200 ==> SameAt(a, b, |b|);
      forall i | 0 <= i < |Prefix(a, 200)| ensures a[i] == b[i] { assert SameAt(a, b, i); }
    }
  }

  // ---------- What a reservation does next ----------

  /** The database answers as the table and its rows say, or the insert fails; which rows there are then. */
  predicate Answers(w: World, t: World, i: nat, table: bool)
    requires i < |w.requests| && i < |t.replies|
  {
    var row := ReceiptOf(w.requests[i]);
    && t.replies[i] in {if !table then SchemaLag else if row in w.rows then Duplicate else Inserted, Failed}
    && t.rows in {w.rows, w.rows + {row}}
    && (t.replies[i] == Inserted ==> row in t.rows)
    && (t.replies[i] in {Duplicate, SchemaLag} ==> t.rows == w.rows)
    && (!table ==> t.rows == w.rows)
  }

  /** A new receipt, or without the table one not in memory, earns the next generation of the chat. */
  predicate Concludes(w: World, t: World, i: nat)
    requires i < |w.requests| && i < |w.replies|
  {
    var r, m := w.requests[i], w.memory;
    var earned := w.replies[i] == Inserted || (w.replies[i] == SchemaLag && ReceiptKey(r) !in m.fallback);
    var generation := if ChatKey(r) in m.generations then m.generations[ChatKey(r)] + 1 else 1;
    && t.grants == (if earned then w.grants + [(i, Handle(ChatKey(r), generation))] else w.grants)
    && t.memory.generations == (if earned then m.generations[ChatKey(r) := generation] else m.generations)
    && t.memory.fallback == (if w.replies[i] == SchemaLag then m.fallback + {ReceiptKey(r)} else m.fallback)
  }

  /** Requests, replies and calls are numbered alike. */
  predicate InStep(w: World) {
    |w.requests| == |w.replies| == |w.queue.calls|
  }

  /** Whatever step is taken, a reservation is answered at most once, by the database and while it runs. */
  lemma ReservationIsAnswered(w: World, step: Step, i: nat, table: bool)
    requires InStep(w) && Enabled(w, step, table) && i < |w.requests|
    ensures var t := Apply(w, step, table);
            && t.requests[i] == w.requests[i]
            && (t.replies[i] != w.replies[i] ==>
                  w.replies[i] == NotAsked && w.queue.calls[i].phase == Q.Running && Answers(w, t, i, table))
  {
  }

  /** And it returns once, after it was answered. */
  lemma ReservationReturns(w: World, step: Step, i: nat, table: bool)
    requires InStep(w) && Enabled(w, step, table) && i < |w.requests|
    ensures var t := Apply(w, step, table);
            var before, after := w.queue.calls[i].phase, t.queue.calls[i].phase;
            && (after != before && after == Q.Released ==>
                  before == Q.Running && w.replies[i] != NotAsked && Concludes(w, t, i))
            && (after != before && after != Q.Released ==> before == Q.Waiting && after == Q.Running)
  {
  }

  lemma OnlyReturnsGrant(w: World, step: Step, table: bool)
    requires InStep(w) && Enabled(w, step, table)
    ensures var t := Apply(w, step, table);
            && (t.grants != w.grants || t.memory != w.memory ==> step.Finish?)
            && (t.rows != w.rows ==> table && (step.Insert? || step.FailLate? || step.OtherProcess?))
            && (step.FailLate? ==> t.replies[step.i] == Failed && ReceiptOf(w.requests[step.i]) in t.rows)
  {
  }

  /** A running reservation is never stuck: it can be answered, or fail, until it was answered, and then return. */
  lemma ReservationCanGoOn(w: World, i: nat, table: bool)
    requires InStep(w) && i < |w.requests| && w.queue.calls[i].phase == Q.Running
    ensures var stored := ReceiptOf(w.requests[i]) in w.rows;
            var answer := if !table then SchemaLag else if stored then Duplicate else Inserted;
            if w.replies[i] == NotAsked
            then (forall reply :: Enabled(w, Insert(i, reply), table) <==> reply in {answer, Failed})
                 && (Enabled(w, FailLate(i), table) <==> table) && !Enabled(w, Finish(i), table)
            else Enabled(w, Finish(i), table)
  {
  }
}
