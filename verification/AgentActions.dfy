// Confirming, cancelling, expiring and superseding prepared actions, by many server processes over one table.
module AgentActions {
  import opened Common

  type Id = nat
  type Account = string

  datatype Status = Pending | Executing | Executed | Failed | Cancelled | Expired

  /** `items` is the number of tool calls in the batch (one for a single action). */
  datatype Row = Row(owner: Account, conversation: string, items: nat, expiresAt: int, status: Status)

  const LIFETIME_MS := 30 * 60 * 1000

  datatype Answer =
    | NotFound | AlreadyExecuted | AlreadyCancelled | Conflict | TimedOut
    | CancelledNow | Succeeded | FailedAfter(completed: nat)

  /** Where one `confirm` call stands between its awaits; `row` is the snapshot it loaded. */
  datatype Pc =
    | Begun
    | Loaded(row: Row)
    | Expiring
    | Claiming
    | Working(done: nat, allowed: bool)
    | Attempting(done: nat)
    | Failing(done: nat)
    | Answered(answer: Answer)
    | Crashed

  datatype Caller = Caller(owner: Account, action: Id, confirmed: bool, pc: Pc)

  /**
   * `attempts` lists the items whose execution was begun and `effects` those that succeeded, both in time order;
   * `winner` says who took each action.
   */
  datatype World = World(rows: map<Id, Row>, now: int, callers: seq<Caller>,
                         attempts: seq<(Id, nat)>, effects: seq<(Id, nat)>, winner: map<Id, nat>)

  datatype Step =
    | Tick(now: int)
    | Create(id: Id, owner: Account, conversation: string, items: nat)
    | Supersede(owner: Account, conversation: string)
    | Sweep
    | Call(owner: Account, action: Id, confirmed: bool)
    | Load(c: nat)
    | Decide(c: nat)
    | MarkExpired(c: nat)
    | Claim(c: nat)
    | Admit(c: nat, ok: bool)
    | Attempt(c: nat)
    | Execute(c: nat, ok: bool)
    | WriteFailed(c: nat)
    | WriteExecuted(c: nat)
    | Crash(c: nat)

  predicate Enabled(w: World, step: Step) {
    match step
    case Tick(now) => w.now <= now
    case Create(id, _, _, _) => id !in w.rows
    case Supersede(_, _) => true
    case Sweep => true
    case Call(_, _, _) => true
    case Load(c) => c < |w.callers| && w.callers[c].pc == Begun
    case Decide(c) => c < |w.callers| && w.callers[c].pc.Loaded?
    case MarkExpired(c) => c < |w.callers| && w.callers[c].pc == Expiring && w.callers[c].action in w.rows
    case Claim(c) => c < |w.callers| && w.callers[c].pc == Claiming && w.callers[c].action in w.rows
    case Admit(c, _) => c < |w.callers| && w.callers[c].pc == Working(0, false) && w.callers[c].action in w.rows
    case Attempt(c) =>
      && c < |w.callers| && w.callers[c].pc.Working? && w.callers[c].pc.allowed && w.callers[c].action in w.rows
      && w.callers[c].pc.done < w.rows[w.callers[c].action].items
    case Execute(c, _) => c < |w.callers| && w.callers[c].pc.Attempting? && w.callers[c].action in w.rows
    case WriteExecuted(c) =>
      && c < |w.callers| && w.callers[c].pc.Working? && w.callers[c].pc.allowed && w.callers[c].action in w.rows
      && w.callers[c].pc.done == w.rows[w.callers[c].action].items
    case WriteFailed(c) => c < |w.callers| && w.callers[c].pc.Failing? && w.callers[c].action in w.rows
    case Crash(c) => c < |w.callers| && !w.callers[c].pc.Answered?
  }

  /** `updateMany ... where status = PENDING and <condition>`. */
  function UpdatePending(rows: map<Id, Row>, which: Row -> bool, to: Status): (r: map<Id, Row>)
    ensures r.Keys == rows.Keys
    ensures forall id :: id in rows ==>
              r[id] == if rows[id].status == Pending && which(rows[id]) then rows[id].(status := to) else rows[id]
  {
    map id | id in rows :: if rows[id].status == Pending && which(rows[id]) then rows[id].(status := to) else rows[id]
  }

  function SetPc(w: World, c: nat, pc: Pc): World
    requires c < |w.callers|
  {
    w.(callers := w.callers[c := w.callers[c].(pc := pc)])
  }

  function SetStatus(w: World, id: Id, status: Status): World
    requires id in w.rows
  {
    w.(rows := w.rows[id := w.rows[id].(status := status)])
  }

  /** What a caller finds under its action's id. */
  function Found(w: World, k: Caller): Pc {
    if k.action in w.rows && w.rows[k.action].owner == k.owner then Loaded(w.rows[k.action]) else Answered(NotFound)
  }

  /** What a caller does with its snapshot. */
  function Verdict(row: Row, confirmed: bool, now: int): Pc {
    if row.status == Executed then Answered(AlreadyExecuted)
    else if row.status == Cancelled && !confirmed then Answered(AlreadyCancelled)
    else if row.status != Pending then Answered(Conflict)
    else if row.expiresAt <= now then Expiring
    else Claiming
  }

  function Apply(w: World, step: Step): World
    requires Enabled(w, step)
  {
    match step
    case Tick(now) => w.(now := now)
    case Create(id, owner, conversation, items) =>
      w.(rows := w.rows[id := Row(owner, conversation, items, w.now + LIFETIME_MS, Pending)])
    case Supersede(owner, conversation) =>
      w.(rows := UpdatePending(w.rows, (r: Row) => r.owner == owner && r.conversation == conversation, Cancelled))
    case Sweep => w.(rows := UpdatePending(w.rows, (r: Row) => r.expiresAt < w.now, Expired))
    case Call(owner, action, confirmed) => w.(callers := w.callers + [Caller(owner, action, confirmed, Begun)])
    case Load(c) =>
      var k := w.callers[c];
      SetPc(w, c, Found(w, k))
    case Decide(c) => SetPc(w, c, Verdict(w.callers[c].pc.row, w.callers[c].confirmed, w.now))
    case MarkExpired(c) =>
      var id := w.callers[c].action;
      SetPc(if w.rows[id].status == Pending then SetStatus(w, id, Expired) else w, c, Answered(TimedOut))
    case Claim(c) =>
      var k := w.callers[c];
      if w.rows[k.action].status == Pending && w.rows[k.action].expiresAt > w.now then
        SetPc(SetStatus(w, k.action, if k.confirmed then Executing else Cancelled).(winner := w.winner[k.action := c]),
              c, if k.confirmed then Working(0, false) else Answered(CancelledNow))
      else SetPc(w, c, Answered(Conflict))
    case Admit(c, ok) =>
      SetPc(w, c, if ok && w.rows[w.callers[c].action].items > 0 then Working(0, true) else Failing(0))
    case Attempt(c) =>
      var k := w.callers[c];
      SetPc(w.(attempts := w.attempts + [(k.action, k.pc.done)]), c, Attempting(k.pc.done))
    case Execute(c, ok) =>
      var k := w.callers[c];
      if ok then SetPc(w.(effects := w.effects + [(k.action, k.pc.done)]), c, Working(k.pc.done + 1, true))
      else SetPc(w, c, Failing(k.pc.done))
    case WriteFailed(c) =>
      SetPc(SetStatus(w, w.callers[c].action, Failed), c, Answered(FailedAfter(w.callers[c].pc.done)))
    case WriteExecuted(c) => SetPc(SetStatus(w, w.callers[c].action, Executed), c, Answered(Succeeded))
    case Crash(c) => SetPc(w, c, Crashed)
  }

  const INITIAL := World(map[], 0, [], [], [], map[])

  function Run(w: World, steps: seq<Step>): Option<World>
    decreases |steps|
  {
    if steps == [] then Some(w)
    else if !Enabled(w, steps[0]) then None
    else Run(Apply(w, steps[0]), steps[1..])
  }

  // ---------- What has been executed of an action ----------

  function EffectsOf(effects: seq<(Id, nat)>, id: Id): seq<nat> {
    if effects == [] then []
    else EffectsOf(effects[..|effects| - 1], id) +
         if effects[|effects| - 1].0 == id then [effects[|effects| - 1].1] else []
  }

  /** Items 0, 1, ..., k - 1, each once and in order. */
  function FirstItems(k: nat): seq<nat> {
    seq(k, i => i)
  }

  lemma AddEffect(effects: seq<(Id, nat)>, id: Id, item: nat, other: Id)
    ensures EffectsOf(effects + [(id, item)], other) == EffectsOf(effects, other) + if id == other then [item] else []
  {
    assert (effects + [(id, item)])[..|effects|] == effects;
  }

  lemma OneMoreItem(k: nat)
    ensures FirstItems(k) + [k] == FirstItems(k + 1)
  {
  }

  // ---------- The invariant ----------

  predicate Unstarted(s: Status) { s == Pending || s == Cancelled || s == Expired }

  function DoneOf(w: World, id: Id): seq<nat> { EffectsOf(w.effects, id) }

  function TriedOf(w: World, id: Id): seq<nat> { EffectsOf(w.attempts, id) }

  /** What the status of a row says about the items tried and done so far. */
  ghost predicate RowTellsTruth(w: World, id: Id)
    requires id in w.rows
  {
    var row, done, tried := w.rows[id], DoneOf(w, id), TriedOf(w, id);
    && done == FirstItems(|done|) && tried == FirstItems(|tried|) && |done| <= |tried| <= |done| + 1
      && |tried| <= row.items
    && (Unstarted(row.status) ==> tried == [])
    && (row.status == Executed ==> |done| == row.items > 0)
    && (row.status == Failed ==> |done| < row.items || row.items == 0)
    && (id in w.winner ==>
        row.status == Executing || row.status == Executed || row.status == Failed || row.status == Cancelled)
    && (row.status == Executing || row.status == Executed || row.status == Failed ==> id in w.winner)
  }

  /** The order in which statuses can follow one another over a whole run. */
  predicate CanReach(a: Status, b: Status) {
    a == b || a == Pending || (a == Executing && (b == Executed || b == Failed))
  }

  /** Nobody can take the action any more. */
  predicate Over(w: World, id: Id) {
    id in w.rows && (w.rows[id].status != Pending || w.rows[id].expiresAt <= w.now)
  }

  /** What a caller's position says about the row it is working on. */
  ghost predicate CallerTellsTruth(w: World, c: nat)
    requires c < |w.callers|
  {
    var k := w.callers[c];
    var id := k.action;
    match k.pc
    case Begun => true
    case Loaded(row) => id in w.rows && CanReach(row.status, w.rows[id].status)
    case Expiring => id in w.rows
    case Claiming => id in w.rows
    case Working(done, allowed) =>
      && id in w.rows && Holds(w, c, Executing) && |DoneOf(w, id)| == |TriedOf(w, id)| == done
      && (if allowed then w.rows[id].items > 0 else done == 0)
    case Attempting(done) => id in w.rows && Holds(w, c, Executing) && |DoneOf(w, id)| == done
      && |TriedOf(w, id)| == done + 1
    case Failing(done) =>
      && id in w.rows && Holds(w, c, Executing) && |DoneOf(w, id)| == done
      && (done < w.rows[id].items || w.rows[id].items == 0)
    case Answered(AlreadyExecuted) => id in w.rows && w.rows[id].status == Executed
    case Answered(AlreadyCancelled) => id in w.rows && w.rows[id].status == Cancelled
    case Answered(Conflict) => Over(w, id)
    case Answered(TimedOut) => id in w.rows && w.rows[id].status != Pending
    case Answered(CancelledNow) => Holds(w, c, Cancelled)
    case Answered(Succeeded) => Holds(w, c, Executed)
    case Answered(FailedAfter(n)) => Holds(w, c, Failed) && |DoneOf(w, id)| == n
    case _ => true
  }

  /** Caller `c` won its action, and the action is in that status. */
  predicate Holds(w: World, c: nat, status: Status)
    requires c < |w.callers|
  {
    var id := w.callers[c].action;
    id in w.rows && id in w.winner && w.winner[id] == c && w.rows[id].status == status
  }

  ghost predicate Invariant(w: World) {
    && (forall id :: id in w.rows ==> RowTellsTruth(w, id))
    && (forall id :: id !in w.rows ==> DoneOf(w, id) == TriedOf(w, id) == [] && id !in w.winner)
    && (forall c :: 0 <= c < |w.callers| ==> CallerTellsTruth(w, c))
  }

  predicate MayBecome(a: Status, b: Status) {
    || a == b
    || (a == Pending && (b == Executing || b == Cancelled || b == Expired))
    || (a == Executing && (b == Executed || b == Failed))
  }

  // ---------- Every step keeps it ----------

  /** Statuses moved forward at most, and no winner was replaced. */
  ghost predicate Forward(w: World, t: World) {
    && (forall id :: id in w.rows ==> id in t.rows && MayBecome(w.rows[id].status, t.rows[id].status))
    && (forall id :: id in w.winner ==> id in t.winner && t.winner[id] == w.winner[id])
  }

  /** Caller `c` can no longer change the row, nor execute anything of it. */
  predicate OutOfReach(w: World, c: nat, id: Id)
    requires id in w.rows
  {
    || (w.rows[id].status == Executing && id in w.winner && w.winner[id] != c)
    || w.rows[id].status == Executed || w.rows[id].status == Failed || w.rows[id].status == Cancelled
  }

  predicate SameAction(a: Row, b: Row) {
    a.items == b.items && a.expiresAt == b.expiresAt && MayBecome(a.status, b.status)
  }

  /** What caller `c` may do to the table without touching what other callers rely on. */
  ghost predicate Respects(w: World, t: World, c: nat) {
    && w.now <= t.now
    && (forall id :: id in w.rows ==> id in t.rows && SameAction(w.rows[id], t.rows[id]))
    && (forall id :: id in w.rows && OutOfReach(w, c, id) ==>
          t.rows[id].status == w.rows[id].status && DoneOf(t, id) == DoneOf(w, id) && TriedOf(t, id) == TriedOf(w, id))
    && (forall id :: id in w.winner ==> id in t.winner && t.winner[id] == w.winner[id])
  }

  lemma OtherTellsTruth(w: World, t: World, c: nat, d: nat)
    requires d < |w.callers| && d < |t.callers| && d != c
    requires t.callers[d] == w.callers[d] && CallerTellsTruth(w, d) && Respects(w, t, c)
    ensures CallerTellsTruth(t, d)
  {
  }

  /** The rows are known to tell the truth and so is caller `c`; the other callers follow. */
  lemma OthersFollow(w: World, t: World, c: nat)
    requires Invariant(w) && Respects(w, t, c) && |t.callers| >= |w.callers|
    requires forall id :: id in t.rows ==> RowTellsTruth(t, id)
    requires forall id :: id !in t.rows ==> DoneOf(t, id) == TriedOf(t, id) == [] && id !in t.winner
    requires forall d :: 0 <= d < |w.callers| && d != c ==> t.callers[d] == w.callers[d]
    requires forall d :: 0 <= d < |t.callers| && (d == c || d >= |w.callers|) ==> CallerTellsTruth(t, d)
    ensures Invariant(t)
  {
    forall d | 0 <= d < |t.callers| ensures CallerTellsTruth(t, d) {
      if d < |w.callers| && d != c { OtherTellsTruth(w, t, c, d); }
    }
  }

  lemma SamePcRows(w: World, c: nat, pc: Pc)
    requires Invariant(w) && c < |w.callers|
    ensures forall id :: id in w.rows ==> RowTellsTruth(SetPc(w, c, pc), id)
  {
    forall id | id in w.rows ensures RowTellsTruth(SetPc(w, c, pc), id) { assert RowTellsTruth(w, id); }
  }

  lemma SetPcKeeps(w: World, c: nat, pc: Pc)
    requires Invariant(w) && c < |w.callers| && CallerTellsTruth(SetPc(w, c, pc), c)
    ensures Invariant(SetPc(w, c, pc)) && Forward(w, SetPc(w, c, pc))
  {
    SamePcRows(w, c, pc);
    OthersFollow(w, SetPc(w, c, pc), c);
  }

  /** Caller `c` writes the status of its own row, possibly becoming its winner, and moves on. */
  function OwnRow(w: World, c: nat, status: Status, wins: bool, pc: Pc): World
    requires c < |w.callers| && w.callers[c].action in w.rows
  {
    var id := w.callers[c].action;
    SetPc(SetStatus(w, id, status).(winner := if wins then w.winner[id := c] else w.winner), c, pc)
  }

  lemma OwnRowRespects(w: World, c: nat, status: Status, wins: bool, pc: Pc)
    requires c < |w.callers| && w.callers[c].action in w.rows && !OutOfReach(w, c, w.callers[c].action)
    requires wins ==> w.callers[c].action !in w.winner
    requires MayBecome(w.rows[w.callers[c].action].status, status)
    ensures Respects(w, OwnRow(w, c, status, wins, pc), c) && Forward(w, OwnRow(w, c, status, wins, pc))
  {
  }

  lemma OwnRowKeeps(w: World, c: nat, status: Status, wins: bool, pc: Pc)
    requires Invariant(w) && c < |w.callers| && w.callers[c].action in w.rows && !OutOfReach(w, c, w.callers[c].action)
    requires wins ==> w.callers[c].action !in w.winner
    requires MayBecome(w.rows[w.callers[c].action].status, status)
    requires RowTellsTruth(OwnRow(w, c, status, wins, pc), w.callers[c].action)
    requires CallerTellsTruth(OwnRow(w, c, status, wins, pc), c)
    ensures Invariant(OwnRow(w, c, status, wins, pc)) && Forward(w, OwnRow(w, c, status, wins, pc))
  {
    var t := OwnRow(w, c, status, wins, pc);
    OwnRowRespects(w, c, status, wins, pc);
    forall id | id in t.rows ensures RowTellsTruth(t, id) {
      if id != w.callers[c].action { assert RowTellsTruth(w, id); }
    }
    OthersFollow(w, t, c);
  }

  lemma LoadKeeps(w: World, c: nat)
    requires Invariant(w) && Enabled(w, Load(c))
    ensures Invariant(Apply(w, Load(c))) && Forward(w, Apply(w, Load(c)))
  {
    var k := w.callers[c];
    SetPcKeeps(w, c, Found(w, k));
  }

  lemma VerdictTellsTruth(w: World, c: nat)
    requires Invariant(w) && Enabled(w, Decide(c))
    ensures CallerTellsTruth(SetPc(w, c, Verdict(w.callers[c].pc.row, w.callers[c].confirmed, w.now)), c)
  {
    var k := w.callers[c];
    assert CallerTellsTruth(w, c);
    assert k.action in w.rows && CanReach(k.pc.row.status, w.rows[k.action].status);
    assert k.pc.row.status != Pending ==> w.rows[k.action].status != Pending;
  }

  lemma DecideKeeps(w: World, c: nat)
    requires Invariant(w) && Enabled(w, Decide(c))
    ensures Invariant(Apply(w, Decide(c))) && Forward(w, Apply(w, Decide(c)))
  {
    VerdictTellsTruth(w, c);
    SetPcKeeps(w, c, Verdict(w.callers[c].pc.row, w.callers[c].confirmed, w.now));
  }

  lemma AdmitKeeps(w: World, c: nat, ok: bool)
    requires Invariant(w) && Enabled(w, Admit(c, ok))
    ensures Invariant(Apply(w, Admit(c, ok))) && Forward(w, Apply(w, Admit(c, ok)))
  {
    assert CallerTellsTruth(w, c);
    SetPcKeeps(w, c, if ok && w.rows[w.callers[c].action].items > 0 then Working(0, true) else Failing(0));
  }

  lemma CrashKeeps(w: World, c: nat)
    requires Invariant(w) && Enabled(w, Crash(c))
    ensures Invariant(Apply(w, Crash(c))) && Forward(w, Apply(w, Crash(c)))
  {
    SetPcKeeps(w, c, Crashed);
  }

  lemma MarkExpiredKeeps(w: World, c: nat)
    requires Invariant(w) && Enabled(w, MarkExpired(c))
    ensures Invariant(Apply(w, MarkExpired(c))) && Forward(w, Apply(w, MarkExpired(c)))
  {
    var id := w.callers[c].action;
    assert RowTellsTruth(w, id);
    if w.rows[id].status == Pending {
      assert Apply(w, MarkExpired(c)) == OwnRow(w, c, Expired, false, Answered(TimedOut));
      OwnRowKeeps(w, c, Expired, false, Answered(TimedOut));
    } else {
      SetPcKeeps(w, c, Answered(TimedOut));
    }
  }

  lemma ClaimKeeps(w: World, c: nat)
    requires Invariant(w) && Enabled(w, Claim(c))
    ensures Invariant(Apply(w, Claim(c))) && Forward(w, Apply(w, Claim(c)))
  {
    var k := w.callers[c];
    assert RowTellsTruth(w, k.action);
    if w.rows[k.action].status == Pending && w.rows[k.action].expiresAt > w.now {
      if k.confirmed {
        OwnRowKeeps(w, c, Executing, true, Working(0, false));
      } else {
        OwnRowKeeps(w, c, Cancelled, true, Answered(CancelledNow));
      }
    } else {
      SetPcKeeps(w, c, Answered(Conflict));
    }
  }

  lemma WriteFailedKeeps(w: World, c: nat)
    requires Invariant(w) && Enabled(w, WriteFailed(c))
    ensures Invariant(Apply(w, WriteFailed(c))) && Forward(w, Apply(w, WriteFailed(c)))
  {
    assert CallerTellsTruth(w, c) && RowTellsTruth(w, w.callers[c].action);
    var pc := Answered(FailedAfter(w.callers[c].pc.done));
    assert Apply(w, WriteFailed(c)) == OwnRow(w, c, Failed, false, pc);
    OwnRowKeeps(w, c, Failed, false, pc);
  }

  lemma WriteExecutedKeeps(w: World, c: nat)
    requires Invariant(w) && Enabled(w, WriteExecuted(c))
    ensures Invariant(Apply(w, WriteExecuted(c))) && Forward(w, Apply(w, WriteExecuted(c)))
  {
    var id, t := w.callers[c].action, OwnRow(w, c, Executed, false, Answered(Succeeded));
    assert CallerTellsTruth(w, c) && RowTellsTruth(w, id);
    assert |DoneOf(w, id)| == w.rows[id].items > 0 && Holds(w, c, Executing);
    assert Apply(w, WriteExecuted(c)) == t && DoneOf(t, id) == DoneOf(w, id) && TriedOf(t, id) == TriedOf(w, id);
    assert RowTellsTruth(t, id) && Holds(t, c, Executed);
    OwnRowKeeps(w, c, Executed, false, Answered(Succeeded));
  }

  /** Whoever holds its action may log items of it. */
  lemma ItemRespects(w: World, t: World, c: nat)
    requires c < |w.callers| && Holds(w, c, Executing) && t.rows == w.rows && t.winner == w.winner && t.now == w.now
    requires forall id :: id != w.callers[c].action ==>
               DoneOf(t, id) == DoneOf(w, id) && TriedOf(t, id) == TriedOf(w, id)
    ensures Respects(w, t, c)
  {
  }

  /** What becomes of row `id` when caller `c` begins the next item of its action. */
  lemma AttemptedRow(w: World, t: World, c: nat, id: Id)
    requires c < |w.callers| && CallerTellsTruth(w, c) && w.callers[c].pc.Working? && id in w.rows
    requires RowTellsTruth(w, id)
    requires id == w.callers[c].action ==> w.callers[c].pc.done < w.rows[id].items
    requires t.rows == w.rows && t.winner == w.winner && DoneOf(t, id) == DoneOf(w, id)
    requires TriedOf(t, id) == TriedOf(w, id) + if w.callers[c].action == id then [w.callers[c].pc.done] else []
    ensures RowTellsTruth(t, id)
  {
    if id == w.callers[c].action { OneMoreItem(w.callers[c].pc.done); }
  }

  lemma AttemptKeeps(w: World, c: nat)
    requires Invariant(w) && Enabled(w, Attempt(c))
    ensures Invariant(Apply(w, Attempt(c))) && Forward(w, Apply(w, Attempt(c)))
  {
    var k, t := w.callers[c], Apply(w, Attempt(c));
    assert CallerTellsTruth(w, c) && RowTellsTruth(w, k.action);
    forall id ensures TriedOf(t, id) == TriedOf(w, id) + if k.action == id then [k.pc.done] else [] {
      AddEffect(w.attempts, k.action, k.pc.done, id);
    }
    forall id | id in t.rows ensures RowTellsTruth(t, id) { AttemptedRow(w, t, c, id); }
    ItemRespects(w, t, c);
    OthersFollow(w, t, c);
  }

  /** What becomes of row `id` when that item has succeeded. */
  lemma ExecutedRow(w: World, t: World, c: nat, id: Id)
    requires c < |w.callers| && CallerTellsTruth(w, c) && w.callers[c].pc.Attempting? && id in w.rows
    requires RowTellsTruth(w, id)
    requires t.rows == w.rows && t.winner == w.winner && TriedOf(t, id) == TriedOf(w, id)
    requires DoneOf(t, id) == DoneOf(w, id) + if w.callers[c].action == id then [w.callers[c].pc.done] else []
    ensures RowTellsTruth(t, id)
  {
    if id == w.callers[c].action { OneMoreItem(w.callers[c].pc.done); }
  }

  lemma ExecuteKeeps(w: World, c: nat)
    requires Invariant(w) && Enabled(w, Execute(c, true))
    ensures Invariant(Apply(w, Execute(c, true))) && Forward(w, Apply(w, Execute(c, true)))
  {
    var k, t := w.callers[c], Apply(w, Execute(c, true));
    assert CallerTellsTruth(w, c) && RowTellsTruth(w, k.action);
    forall id ensures DoneOf(t, id) == DoneOf(w, id) + if k.action == id then [k.pc.done] else [] {
      AddEffect(w.effects, k.action, k.pc.done, id);
    }
    forall id | id in t.rows ensures RowTellsTruth(t, id) { ExecutedRow(w, t, c, id); }
    ItemRespects(w, t, c);
    OthersFollow(w, t, c);
  }

  lemma BreakOffKeeps(w: World, c: nat)
    requires Invariant(w) && Enabled(w, Execute(c, false))
    ensures Invariant(Apply(w, Execute(c, false))) && Forward(w, Apply(w, Execute(c, false)))
  {
    assert CallerTellsTruth(w, c) && RowTellsTruth(w, w.callers[c].action);
    SetPcKeeps(w, c, Failing(w.callers[c].pc.done));
  }

  /** `t` differs from `w` in the table alone, by pending rows that were closed or created. */
  ghost predicate ClosesPending(w: World, t: World) {
    && t.callers == w.callers && t.winner == w.winner && w.now <= t.now && t.attempts == w.attempts
      && t.effects == w.effects
    && (forall id :: id in w.rows ==>
          && id in t.rows && SameAction(w.rows[id], t.rows[id])
          && (t.rows[id].status == w.rows[id].status || (w.rows[id].status == Pending && Unstarted(t.rows[id].status))))
    && forall id :: id in t.rows && id !in w.rows ==> t.rows[id].status == Pending
  }

  lemma ClosingRespects(w: World, t: World)
    requires ClosesPending(w, t)
    ensures Respects(w, t, |w.callers|) && Forward(w, t)
  {
  }

  lemma TableKeeps(w: World, t: World)
    requires Invariant(w) && ClosesPending(w, t)
    ensures Invariant(t) && Forward(w, t)
  {
    forall id | id in t.rows ensures RowTellsTruth(t, id) {
      if id in w.rows { assert RowTellsTruth(w, id); }
    }
    ClosingRespects(w, t);
    OthersFollow(w, t, |w.callers|);
  }

  lemma UpdateKeeps(w: World, which: Row -> bool, to: Status)
    requires Invariant(w) && (to == Cancelled || to == Expired)
    ensures Invariant(w.(rows := UpdatePending(w.rows, which, to)))
    ensures Forward(w, w.(rows := UpdatePending(w.rows, which, to)))
  {
    TableKeeps(w, w.(rows := UpdatePending(w.rows, which, to)));
  }

  lemma CallKeeps(w: World, k: Caller)
    requires Invariant(w) && k.pc == Begun
    ensures Invariant(w.(callers := w.callers + [k])) && Forward(w, w.(callers := w.callers + [k]))
  {
    var t := w.(callers := w.callers + [k]);
    forall id | id in t.rows ensures RowTellsTruth(t, id) { assert RowTellsTruth(w, id); }
    OthersFollow(w, t, |w.callers|);
  }

  lemma StepKeeps(w: World, step: Step)
    requires Invariant(w) && Enabled(w, step)
    ensures Invariant(Apply(w, step)) && Forward(w, Apply(w, step))
  {
    match step
    case Tick(_) => TableKeeps(w, Apply(w, step));
    case Create(_, _, _, _) => TableKeeps(w, Apply(w, step));
    case Supersede(owner, conversation) =>
      UpdateKeeps(w, (r: Row) => r.owner == owner && r.conversation == conversation, Cancelled);
    case Sweep => UpdateKeeps(w, (r: Row) => r.expiresAt < w.now, Expired);
    case Call(owner, action, confirmed) => CallKeeps(w, Caller(owner, action, confirmed, Begun));
    case Load(c) => LoadKeeps(w, c);
    case Decide(c) => DecideKeeps(w, c);
    case MarkExpired(c) => MarkExpiredKeeps(w, c);
    case Claim(c) => ClaimKeeps(w, c);
    case Admit(c, ok) => AdmitKeeps(w, c, ok);
    case Attempt(c) => AttemptKeeps(w, c);
    case Execute(c, ok) => if ok { ExecuteKeeps(w, c); } else { BreakOffKeeps(w, c); }
    case WriteFailed(c) => WriteFailedKeeps(w, c);
    case WriteExecuted(c) => WriteExecutedKeeps(w, c);
    case Crash(c) => CrashKeeps(w, c);
  }

  lemma {:induction false} RunKeepsInvariant(w: World, steps: seq<Step>)
    requires Invariant(w) && Run(w, steps).Some?
    ensures Invariant(Run(w, steps).value)
    decreases |steps|
  {
    if steps != [] {
      StepKeeps(w, steps[0]);
      RunKeepsInvariant(Apply(w, steps[0]), steps[1..]);
    }
  }

  // ---------- Safety over every interleaving ----------

  /** Statuses only move forward: a settled action keeps its status for ever, and keeps its winner. */
  lemma {:induction false} StatusesMoveForward(w: World, steps: seq<Step>, id: Id)
    requires Invariant(w) && Run(w, steps).Some? && id in w.rows
    ensures id in Run(w, steps).value.rows && CanReach(w.rows[id].status, Run(w, steps).value.rows[id].status)
    ensures id in w.winner ==> id in Run(w, steps).value.winner && Run(w, steps).value.winner[id] == w.winner[id]
    decreases |steps|
  {
    if steps != [] {
      StepKeeps(w, steps[0]);
      StatusesMoveForward(Apply(w, steps[0]), steps[1..], id);
    }
  }

  predicate Took(pc: Pc) {
    pc.Working? || pc.Attempting? || pc.Failing? || pc == Answered(CancelledNow) || pc == Answered(Succeeded)
    || (pc.Answered? && pc.answer.FailedAfter?)
  }

  lemma TakersWon(w: World, c: nat)
    requires Invariant(w) && c < |w.callers| && Took(w.callers[c].pc)
    ensures w.callers[c].action in w.winner && w.winner[w.callers[c].action] == c
  {
    assert CallerTellsTruth(w, c);
  }

  /** However many callers race on an action, at most one of them gets to cancel or execute it. */
  lemma AtMostOneTakesAnAction(steps: seq<Step>, c: nat, d: nat)
    requires Run(INITIAL, steps).Some?
    ensures var w := Run(INITIAL, steps).value;
            (&& c < |w.callers| && d < |w.callers| && w.callers[c].action == w.callers[d].action
             && Took(w.callers[c].pc) && Took(w.callers[d].pc)) ==> c == d
  {
    RunKeepsInvariant(INITIAL, steps);
    var w := Run(INITIAL, steps).value;
    if c < |w.callers| && Took(w.callers[c].pc) { TakersWon(w, c); }
    if d < |w.callers| && Took(w.callers[d].pc) { TakersWon(w, d); }
  }

  /**
   * The execution of each item of an action is begun at most once and in order, whether it succeeds, throws or is cut
   * short by a crash; the status says how far the batch came.
   */
  lemma ItemsRunOnceInOrder(steps: seq<Step>, id: Id)
    requires Run(INITIAL, steps).Some? && id in Run(INITIAL, steps).value.rows
    ensures var w := Run(INITIAL, steps).value;
            var row, done, tried := w.rows[id], DoneOf(w, id), TriedOf(w, id);
            && tried == FirstItems(|tried|) && done == FirstItems(|done|) && |done| <= |tried| <= |done| + 1
              && |tried| <= row.items
            && (Unstarted(row.status) ==> tried == [])
            && (row.status == Executed ==> |done| == row.items > 0)
            && (row.status == Failed ==> |done| < row.items || row.items == 0)
  {
    RunKeepsInvariant(INITIAL, steps);
    assert RowTellsTruth(Run(INITIAL, steps).value, id);
  }

  /** What a caller is told is true when it is told and stays true whatever happens next. */
  lemma AnswersStayTrue(before: seq<Step>, after: seq<Step>, c: nat)
    requires Run(INITIAL, before).Some? && Run(Run(INITIAL, before).value, after).Some?
    requires c < |Run(INITIAL, before).value.callers| && Run(INITIAL, before).value.callers[c].pc.Answered?
    ensures var w := Run(Run(INITIAL, before).value, after).value;
            var k := Run(INITIAL, before).value.callers[c];
            k.pc.answer == NotFound || (k.action in w.rows && AnswerHolds(w, k.action, k.pc.answer))
  {
    var v := Run(INITIAL, before).value;
    RunKeepsInvariant(INITIAL, before);
    RunKeepsInvariant(v, after);
    var w := Run(v, after).value;
    AnswersPersist(v, after, c);
    assert CallerTellsTruth(w, c);
    if w.callers[c].action in w.rows { assert RowTellsTruth(w, w.callers[c].action); }
  }

  /** What an answer tells about the action. */
  ghost predicate AnswerHolds(w: World, id: Id, answer: Answer)
    requires id in w.rows
  {
    var row := w.rows[id];
    match answer
    case Succeeded => row.status == Executed && |DoneOf(w, id)| == row.items
    case AlreadyExecuted => row.status == Executed && |DoneOf(w, id)| == row.items
    case CancelledNow => row.status == Cancelled && TriedOf(w, id) == []
    case AlreadyCancelled => row.status == Cancelled && TriedOf(w, id) == []
    case FailedAfter(n) => row.status == Failed && DoneOf(w, id) == FirstItems(n)
    case TimedOut => row.status != Pending
    case Conflict => Over(w, id)
    case NotFound => true
  }

  lemma {:induction false} AnswersPersist(w: World, steps: seq<Step>, c: nat)
    requires Run(w, steps).Some? && c < |w.callers| && w.callers[c].pc.Answered?
    ensures c < |Run(w, steps).value.callers| && Run(w, steps).value.callers[c] == w.callers[c]
    decreases |steps|
  {
    if steps != [] {
      AnswersPersist(Apply(w, steps[0]), steps[1..], c);
    }
  }

  // ---------- The service, one call at a time ----------

  lemma {:induction false} RunAppend(w: World, a: seq<Step>, b: Step)
    requires Run(w, a).Some? && Enabled(Run(w, a).value, b)
    ensures Run(w, a + [b]) == Some(Apply(Run(w, a).value, b))
    decreases |a|
  {
    if a == [] {
      assert a + [b] == [b] && [b][1..] == [];
    } else {
      assert (a + [b])[0] == a[0] && (a + [b])[1..] == a[1..] + [b];
      RunAppend(Apply(w, a[0]), a[1..], b);
    }
  }

  lemma RunTwo(w: World, a: Step, b: Step)
    requires Enabled(w, a) && Enabled(Apply(w, a), b)
    ensures Run(w, [a, b]) == Some(Apply(Apply(w, a), b))
  {
    var v := Apply(w, a);
    assert [a, b][1..] == [b] && [b][1..] == [];
    assert Run(Apply(v, b), []) == Some(Apply(v, b));
    assert Run(v, [b]) == Some(Apply(v, b));
  }

  /** What a sweep does to each row, and that it does nothing else. */
  lemma SweepExpires(w: World)
    ensures var t := Apply(w, Sweep);
            && t == w.(rows := t.rows) && t.rows.Keys == w.rows.Keys
            && forall id :: id in w.rows ==>
                 if w.rows[id].status == Pending && w.rows[id].expiresAt < w.now
                 then t.rows[id] == w.rows[id].(status := Expired) else t.rows[id] == w.rows[id]
  {
  }

  /** What superseding does to each row, and that it does nothing else. */
  lemma SupersedeCancels(w: World, owner: Account, conversation: string)
    ensures var t := Apply(w, Supersede(owner, conversation));
            && t == w.(rows := t.rows) && t.rows.Keys == w.rows.Keys
            && forall id :: id in w.rows ==>
                 var row := w.rows[id];
                 if row.status == Pending && row.owner == owner && row.conversation == conversation
                 then t.rows[id] == row.(status := Cancelled) else t.rows[id] == row
  {
  }

  // ---------- What a caller does next ----------

  /** Where a caller can stand after its next step: decided by its row, its snapshot and the clock alone. */
  predicate Moves(w: World, k: Caller, next: Pc) {
    match k.pc
    case Begun =>
      if k.action in w.rows && w.rows[k.action].owner == k.owner then next == Loaded(w.rows[k.action])
      else next == Answered(NotFound)
    case Loaded(row) =>
      (match row.status
       case Executed => next == Answered(AlreadyExecuted)
       case Cancelled => next == Answered(if k.confirmed then Conflict else AlreadyCancelled)
       case Pending => next == if w.now < row.expiresAt then Claiming else Expiring
       case _ => next == Answered(Conflict))
    case Expiring => next == Answered(TimedOut)
    case Claiming =>
      && k.action in w.rows
      && next == if w.rows[k.action].status != Pending || w.rows[k.action].expiresAt <= w.now then Answered(Conflict)
                 else if k.confirmed then Working(0, false) else Answered(CancelledNow)
    case Working(done, allowed) =>
      && k.action in w.rows
      && if !allowed then
           done == 0 && (next == Failing(0) || (next == Working(0, true) && w.rows[k.action].items > 0))
         else if done < w.rows[k.action].items then next == Attempting(done)
         else next == Answered(Succeeded) && done == w.rows[k.action].items
    case Attempting(done) => next == Working(done + 1, true) || next == Failing(done)
    case Failing(done) => next == Answered(FailedAfter(done))
    case Answered(_) => false
    case Crashed => false
  }

  /** Whatever anyone does, a caller stands still, moves so, or crashes before it has answered. */
  lemma CallersMove(w: World, step: Step, c: nat)
    requires Enabled(w, step) && c < |w.callers|
    ensures var k, after := w.callers[c], Apply(w, step).callers[c];
            || after == k
            || (after == k.(pc := after.pc) && Moves(w, k, after.pc))
            || (step == Crash(c) && after == k.(pc := Crashed) && !k.pc.Answered?)
  {
  }

  /** The step a caller takes next; `ok` is what admission or the item it is at comes to. */
  function NextStep(w: World, c: nat, ok: bool): Step
    requires c < |w.callers| && !w.callers[c].pc.Answered? && w.callers[c].pc != Crashed
  {
    match w.callers[c].pc
    case Begun => Load(c)
    case Loaded(_) => Decide(c)
    case Expiring => MarkExpired(c)
    case Claiming => Claim(c)
    case Working(done, allowed) =>
      if !allowed then Admit(c, ok)
      else if w.callers[c].action in w.rows && done < w.rows[w.callers[c].action].items then Attempt(c)
      else WriteExecuted(c)
    case Attempting(_) => Execute(c, ok)
    case Failing(_) => WriteFailed(c)
  }

  /** A caller that has not answered is never stuck, and its step moves it. */
  lemma CallersCanMove(w: World, c: nat, ok: bool)
    requires Invariant(w) && c < |w.callers| && !w.callers[c].pc.Answered? && w.callers[c].pc != Crashed
    ensures var step := NextStep(w, c, ok);
            Enabled(w, step) && Moves(w, w.callers[c], Apply(w, step).callers[c].pc)
  {
    assert CallerTellsTruth(w, c);
    if w.callers[c].action in w.rows { assert RowTellsTruth(w, w.callers[c].action); }
  }

  /** A row changes by being superseded, swept or found too late while pending, or by the caller that takes it. */
  predicate RowMoves(w: World, step: Step, id: Id, next: Status)
    requires Enabled(w, step) && id in w.rows
  {
    var row := w.rows[id];
    next == match step
            case Supersede(owner, conversation) =>
              if row.status == Pending && row.owner == owner && row.conversation == conversation then Cancelled
              else row.status
            case Sweep => if row.status == Pending && row.expiresAt < w.now then Expired else row.status
            case MarkExpired(c) =>
              if id == w.callers[c].action && row.status == Pending then Expired else row.status
            case Claim(c) =>
              if id == w.callers[c].action && row.status == Pending && w.now < row.expiresAt
              then if w.callers[c].confirmed then Executing else Cancelled
              else row.status
            case WriteFailed(c) => if id == w.callers[c].action then Failed else row.status
            case WriteExecuted(c) => if id == w.callers[c].action then Executed else row.status
            case _ => row.status
  }

  /** Under every step a row keeps all but its status, and this moves so; no row goes. */
  lemma RowsMove(w: World, step: Step, id: Id)
    requires Enabled(w, step) && id in w.rows
    ensures var t := Apply(w, step);
            id in t.rows && t.rows[id] == w.rows[id].(status := t.rows[id].status)
            && RowMoves(w, step, id, t.rows[id].status)
  {
  }

  /** Items are begun and succeed, and actions are taken, by the caller whose step says so and by nothing else. */
  lemma LogsMove(w: World, step: Step)
    requires Enabled(w, step)
    ensures var t := Apply(w, step);
            && t.attempts == (if step.Attempt? then w.attempts + [(w.callers[step.c].action, w.callers[step.c].pc.done)]
                              else w.attempts)
            && t.effects == (if step.Execute? && step.ok
                             then w.effects + [(w.callers[step.c].action, w.callers[step.c].pc.done)]
                             else w.effects)
            && (t.winner != w.winner ==>
                  step.Claim? && t.winner == w.winner[w.callers[step.c].action := step.c]
                  && w.rows[w.callers[step.c].action].status == Pending)
            && t.now == (if step.Tick? then step.now else w.now) >= w.now
  {
  }

  // ---------- What becomes of an action ----------

  /** How many items from `i` on succeed before one does not. */
  function Completed(items: nat, outcomes: nat -> bool, i: nat): (n: nat)
    requires i <= items
    ensures i <= n <= items && (forall j :: i <= j < n ==> outcomes(j)) && (n < items ==> !outcomes(n))
    decreases items - i
  {
    if i < items && outcomes(i) then Completed(items, outcomes, i + 1) else i
  }

  /** The first `n` items of an action, as logged. */
  function Log(id: Id, n: nat): seq<(Id, nat)> {
    seq(n, i => (id, i))
  }

  /** What became of an action: the answer, its status, how many of its items were begun and how many succeeded. */
  datatype Fate = Fate(answer: Answer, status: Status, begun: nat, completed: nat)

  /** A batch that is not admitted, is empty or has an item that does not succeed fails. */
  function BatchFate(items: nat, admitted: bool, outcomes: nat -> bool): Fate {
    var n := if admitted then Completed(items, outcomes, 0) else 0;
    if admitted && n == items > 0 then Fate(Succeeded, Executed, n, n)
    else Fate(FailedAfter(n), Failed, if admitted && n < items then n + 1 else n, n)
  }

  /** The answers in order of precedence, for a call that nobody interrupts. */
  function FateOf(row: Row, confirmed: bool, now: int, admitted: bool, outcomes: nat -> bool): Fate {
    if row.status == Executed then Fate(AlreadyExecuted, Executed, 0, 0)
    else if row.status == Cancelled && !confirmed then Fate(AlreadyCancelled, Cancelled, 0, 0)
    else if row.status != Pending then Fate(Conflict, row.status, 0, 0)
    else if row.expiresAt <= now then Fate(TimedOut, Expired, 0, 0)
    else if !confirmed then Fate(CancelledNow, Cancelled, 0, 0)
    else BatchFate(row.items, admitted, outcomes)
  }

  /** When a call that nobody interrupts gets which answer. */
  lemma AnswerIff(row: Row, confirmed: bool, now: int, admitted: bool, outcomes: nat -> bool, n: nat)
    ensures var answer := FateOf(row, confirmed, now, admitted, outcomes).answer;
            var live := row.status == Pending && now < row.expiresAt;
            && (answer == AlreadyExecuted <==> row.status == Executed)
            && (answer == AlreadyCancelled <==> row.status == Cancelled && !confirmed)
            && (answer == Conflict <==>
                  row.status in {Executing, Failed, Expired} || (row.status == Cancelled && confirmed))
            && (answer == TimedOut <==> row.status == Pending && row.expiresAt <= now)
            && (answer == CancelledNow <==> live && !confirmed)
            && (answer == Succeeded <==>
                  live && confirmed && admitted && row.items > 0 && forall j :: 0 <= j < row.items ==> outcomes(j))
            && (answer == FailedAfter(n) <==>
                  live && confirmed && if !admitted || row.items == 0 then n == 0
                                       else n < row.items && !outcomes(n) && forall j :: 0 <= j < n ==> outcomes(j))
  {
  }

  /** What an answer says about the status left behind, and about the items begun and completed. */
  lemma FateFollowsAnswer(row: Row, confirmed: bool, now: int, admitted: bool, outcomes: nat -> bool)
    ensures var fate := FateOf(row, confirmed, now, admitted, outcomes);
            match fate.answer
            case Succeeded => fate == Fate(Succeeded, Executed, row.items, row.items)
            case FailedAfter(n) =>
              fate == Fate(FailedAfter(n), Failed, if admitted && row.items > 0 then n + 1 else n, n)
            case CancelledNow => fate == Fate(CancelledNow, Cancelled, 0, 0)
            case TimedOut => fate == Fate(TimedOut, Expired, 0, 0)
            case _ => fate == Fate(fate.answer, row.status, 0, 0)
  {
  }

  class AgentActionService {
    var rows: map<Id, Row>
    var attempts: seq<(Id, nat)>
    var effects: seq<(Id, nat)>
    ghost var callers: seq<Caller>
    ghost var winner: map<Id, nat>

    ghost function WorldAt(now: int): World
      reads this
    {
      World(rows, now, callers, attempts, effects, winner)
    }

    constructor ()
      ensures WorldAt(0) == INITIAL
    {
      rows, attempts, effects, callers, winner := map[], [], [], [], map[];
    }

    /** Exactly the pending rows past their deadline expire; nothing else changes. */
    method ExpireStale(now: int) returns (count: nat)
      modifies this`rows
      ensures WorldAt(now) == Apply(old(WorldAt(now)), Sweep) && rows.Keys == old(rows).Keys
      ensures forall id :: id in old(rows) ==>
                var row := old(rows)[id];
                rows[id] == if row.status == Pending && row.expiresAt < now then row.(status := Expired) else row
      ensures count == |set id | id in old(rows) && old(rows)[id].status == Pending && old(rows)[id].expiresAt < now|
    {
      count := |set id | id in rows && rows[id].status == Pending && rows[id].expiresAt < now|;
      rows := UpdatePending(rows, (r: Row) => r.expiresAt < now, Expired);
    }

    /**
     * A new proposal: exactly the pending rows of this owner in this conversation are cancelled, and the new row is
     * pending for thirty minutes.
     */
    method Propose(id: Id, owner: Account, conversation: string, items: nat, now: int)
      requires id !in rows
      modifies this`rows
      ensures Run(old(WorldAt(now)), [Supersede(owner, conversation), Create(id, owner, conversation, items)])
              == Some(WorldAt(now))
      ensures rows.Keys == old(rows).Keys + {id}
      ensures rows[id] == Row(owner, conversation, items, now + 1_800_000, Pending)
      ensures forall k :: k in old(rows) ==>
                var row := old(rows)[k];
                rows[k] == if row.status == Pending && row.owner == owner && row.conversation == conversation
                           then row.(status := Cancelled) else row
    {
      ghost var before := WorldAt(now);
      rows := UpdatePending(rows, (r: Row) => r.owner == owner && r.conversation == conversation, Cancelled);
      ghost var superseded := WorldAt(now);
      rows := rows[id := Row(owner, conversation, items, now + LIFETIME_MS, Pending)];
      assert Apply(before, Supersede(owner, conversation)) == superseded;
      RunTwo(before, Supersede(owner, conversation), Create(id, owner, conversation, items));
    }

    /** One uninterrupted confirmation is a run of the protocol above, ending in the answer it returns. */
    method Confirm(owner: Account, action: Id, confirmed: bool, now: int, admitted: bool, outcomes: nat -> bool)
      returns (answer: Answer, ghost steps: seq<Step>)
      modifies this
      ensures Run(old(WorldAt(now)), steps) == Some(WorldAt(now))
      ensures callers == old(callers) + [Caller(owner, action, confirmed, Answered(answer))]
      ensures if action !in old(rows) || old(rows)[action].owner != owner
              then answer == NotFound && rows == old(rows) && attempts == old(attempts) && effects == old(effects)
              else var fate := FateOf(old(rows)[action], confirmed, now, admitted, outcomes);
                   && answer == fate.answer
                   && rows == old(rows)[action := old(rows)[action].(status := fate.status)]
                   && attempts == old(attempts) + Log(action, fate.begun)
                   && effects == old(effects) + Log(action, fate.completed)
    {
      ghost var before := WorldAt(now);
      ghost var c := |callers|;
      RunAppend(before, [], Call(owner, action, confirmed));
      steps := [] + [Call(owner, action, confirmed)];
      callers := callers + [Caller(owner, action, confirmed, Begun)];
      RunAppend(before, steps, Load(c));
      steps := steps + [Load(c)];
      if action !in rows || rows[action].owner != owner {
        answer := NotFound;
        callers := callers[c := callers[c].(pc := Answered(NotFound))];
      } else {
        var row := rows[action];
        callers := callers[c := callers[c].(pc := Loaded(row))];
        answer, steps := Resolve(before, steps, c, action, row, confirmed, now, admitted, outcomes);
      }
    }

    /** The checks on the loaded row. */
    method Resolve(ghost before: World, ghost soFar: seq<Step>, ghost c: nat, action: Id, row: Row, confirmed: bool,
                   now: int, admitted: bool, outcomes: nat -> bool)
      returns (answer: Answer, ghost steps: seq<Step>)
      requires c < |callers| && callers[c].action == action && callers[c].confirmed == confirmed
      requires callers[c].pc == Loaded(row)
      requires action in rows && rows[action] == row && Run(before, soFar) == Some(WorldAt(now))
      modifies this
      ensures Run(before, steps) == Some(WorldAt(now))
      ensures callers == old(callers)[c := old(callers)[c].(pc := Answered(answer))]
      ensures var fate := FateOf(row, confirmed, now, admitted, outcomes);
              && answer == fate.answer && rows == old(rows)[action := row.(status := fate.status)]
              && attempts == old(attempts) + Log(action, fate.begun)
              && effects == old(effects) + Log(action, fate.completed)
    {
      RunAppend(before, soFar, Decide(c));
      steps := soFar + [Decide(c)];
      callers := callers[c := callers[c].(pc := Verdict(row, confirmed, now))];
      if row.status == Executed { return AlreadyExecuted, steps; }
      if row.status == Cancelled && !confirmed { return AlreadyCancelled, steps; }
      if row.status != Pending { return Conflict, steps; }
      if row.expiresAt <= now {
        RunAppend(before, steps, MarkExpired(c));
        steps := steps + [MarkExpired(c)];
        rows := rows[action := row.(status := Expired)];
        callers := callers[c := callers[c].(pc := Answered(TimedOut))];
        return TimedOut, steps;
      }
      answer, steps := TakeAction(before, steps, c, action, confirmed, now, admitted, outcomes);
    }

    /** The atomic compare-and-set both confirming and cancelling go through. */
    method TakeAction(ghost before: World, ghost soFar: seq<Step>, ghost c: nat, action: Id, confirmed: bool,
                      now: int, admitted: bool, outcomes: nat -> bool)
      returns (answer: Answer, ghost steps: seq<Step>)
      requires c < |callers| && callers[c].action == action && callers[c].confirmed == confirmed
      requires callers[c].pc == Claiming
      requires action in rows && Run(before, soFar) == Some(WorldAt(now))
      modifies this
      ensures Run(before, steps) == Some(WorldAt(now))
      ensures callers == old(callers)[c := old(callers)[c].(pc := Answered(answer))]
      ensures var row := old(rows)[action];
              if row.status != Pending || row.expiresAt <= now
              then answer == Conflict && rows == old(rows) && attempts == old(attempts) && effects == old(effects)
              else var fate := FateOf(row, confirmed, now, admitted, outcomes);
                   && answer == fate.answer && rows == old(rows)[action := row.(status := fate.status)]
                   && attempts == old(attempts) + Log(action, fate.begun)
                   && effects == old(effects) + Log(action, fate.completed)
    {
      RunAppend(before, soFar, Claim(c));
      steps := soFar + [Claim(c)];
      var row := rows[action];
      if row.status != Pending || row.expiresAt <= now {
        callers := callers[c := callers[c].(pc := Answered(Conflict))];
        return Conflict, steps;
      }
      rows := rows[action := row.(status := if confirmed then Executing else Cancelled)];
      winner := winner[action := c];
      callers := callers[c := callers[c].(pc := if confirmed then Working(0, false) else Answered(CancelledNow))];
      if !confirmed { return CancelledNow, steps; }
      answer, steps := ExecuteItems(before, steps, c, action, now, admitted, outcomes);
    }

    /** The batch with its `catch` clause. */
    method ExecuteItems(ghost before: World, ghost soFar: seq<Step>, ghost c: nat, action: Id, now: int,
                        admitted: bool, outcomes: nat -> bool)
      returns (answer: Answer, ghost steps: seq<Step>)
      requires c < |callers| && callers[c].action == action && callers[c].pc == Working(0, false) && action in rows
      requires Run(before, soFar) == Some(WorldAt(now))
      modifies this
      ensures Run(before, steps) == Some(WorldAt(now))
      ensures callers == old(callers)[c := old(callers)[c].(pc := Answered(answer))]
      ensures var fate := BatchFate(old(rows)[action].items, admitted, outcomes);
              && answer == fate.answer && rows == old(rows)[action := old(rows)[action].(status := fate.status)]
              && attempts == old(attempts) + Log(action, fate.begun)
              && effects == old(effects) + Log(action, fate.completed)
    {
      var done, failed := 0, false;
      failed, steps := AdmitBatch(before, soFar, c, action, now, admitted);
      if !failed { done, failed, steps := RunItems(before, steps, c, action, now, outcomes); }
      answer, steps := WriteOutcome(before, steps, c, action, now, done, failed);
    }

    /** The checks before the first item; a batch without items fails like one that is not admitted. */
    method AdmitBatch(ghost before: World, ghost soFar: seq<Step>, ghost c: nat, action: Id, now: int, admitted: bool)
      returns (failed: bool, ghost steps: seq<Step>)
      requires c < |callers| && callers[c].action == action && callers[c].pc == Working(0, false) && action in rows
      requires Run(before, soFar) == Some(WorldAt(now))
      modifies this`callers
      ensures Run(before, steps) == Some(WorldAt(now))
      ensures failed <==> !admitted || rows[action].items == 0
      ensures callers == old(callers)[c := old(callers)[c].(pc := if failed then Failing(0) else Working(0, true))]
    {
      RunAppend(before, soFar, Admit(c, admitted));
      steps := soFar + [Admit(c, admitted)];
      failed := !admitted || rows[action].items == 0;
      callers := callers[c := callers[c].(pc := if failed then Failing(0) else Working(0, true))];
    }

    /** The final status of a batch. */
    method WriteOutcome(ghost before: World, ghost soFar: seq<Step>, ghost c: nat, action: Id, now: int, done: nat,
        failed: bool)
      returns (answer: Answer, ghost steps: seq<Step>)
      requires c < |callers| && callers[c].action == action && action in rows && (failed || done == rows[action].items)
      requires callers[c].pc == if failed then Failing(done) else Working(done, true)
      requires Run(before, soFar) == Some(WorldAt(now))
      modifies this`rows, this`callers
      ensures Run(before, steps) == Some(WorldAt(now))
      ensures answer == if failed then FailedAfter(done) else Succeeded
      ensures rows == old(rows)[action := old(rows)[action].(status := if failed then Failed else Executed)]
      ensures callers == old(callers)[c := old(callers)[c].(pc := Answered(answer))]
    {
      ghost var last := if failed then WriteFailed(c) else WriteExecuted(c);
      RunAppend(before, soFar, last);
      steps := soFar + [last];
      rows := rows[action := rows[action].(status := if failed then Failed else Executed)];
      answer := if failed then FailedAfter(done) else Succeeded;
      callers := callers[c := callers[c].(pc := Answered(answer))];
    }

    /** The batch loop: items in order until one does not succeed. */
    method RunItems(ghost before: World, ghost soFar: seq<Step>, ghost c: nat, action: Id, now: int,
        outcomes: nat -> bool)
      returns (done: nat, failed: bool, ghost steps: seq<Step>)
      requires c < |callers| && callers[c].action == action && callers[c].pc == Working(0, true) && action in rows
      requires Run(before, soFar) == Some(WorldAt(now))
      modifies this`attempts, this`effects, this`callers
      ensures Run(before, steps) == Some(WorldAt(now))
      ensures done == Completed(rows[action].items, outcomes, 0) && (failed <==> done < rows[action].items)
      ensures effects == old(effects) + Log(action, done)
      ensures attempts == old(attempts) + Log(action, if failed then done + 1 else done)
      ensures callers
                == old(callers)[c := old(callers)[c].(pc := if failed then Failing(done) else Working(done, true))]
    {
      done, failed, steps := 0, false, soFar;
      while !failed && done < rows[action].items
        invariant done <= rows[action].items && Run(before, steps) == Some(WorldAt(now))
        invariant Completed(rows[action].items, outcomes, 0) == Completed(rows[action].items, outcomes, done)
        invariant failed ==> done < rows[action].items && !outcomes(done)
        invariant Logged(old(effects), effects, action, done)
        invariant Logged(old(attempts), attempts, action, if failed then done + 1 else done)
        invariant Moved(old(callers), callers, c, if failed then Failing(done) else Working(done, true))
        decreases rows[action].items - done, !failed
      {
        LogGrows(old(attempts), attempts, action, done);
        LogGrows(old(effects), effects, action, done);
        ghost var was := callers;
        var ok;
        ok, steps := RunItem(before, steps, c, action, done, now, outcomes);
        ghost var pc := if ok then Working(done + 1, true) else Failing(done);
        MovedTwice(old(callers), was, callers, c, Working(done, true), pc);
        if ok { done := done + 1; } else { failed := true; }
      }
    }

    /** One item: its execution begins, and it succeeds or does not. */
    method RunItem(ghost before: World, ghost soFar: seq<Step>, ghost c: nat, action: Id, done: nat, now: int,
                   outcomes: nat -> bool)
      returns (ok: bool, ghost steps: seq<Step>)
      requires c < |callers| && callers[c].action == action && callers[c].pc == Working(done, true) && action in rows
      requires done < rows[action].items && Run(before, soFar) == Some(WorldAt(now))
      modifies this`attempts, this`effects, this`callers
      ensures Run(before, steps) == Some(WorldAt(now)) && ok == outcomes(done)
      ensures attempts == old(attempts) + [(action, done)]
      ensures effects == if ok then old(effects) + [(action, done)] else old(effects)
      ensures callers
                == old(callers)[c := old(callers)[c].(pc := if ok then Working(done + 1, true) else Failing(done))]
    {
      RunAppend(before, soFar, Attempt(c));
      steps := soFar + [Attempt(c)];
      attempts := attempts + [(action, done)];
      callers := callers[c := callers[c].(pc := Attempting(done))];
      ok := outcomes(done);
      RunAppend(before, steps, Execute(c, ok));
      steps := steps + [Execute(c, ok)];
      if ok { effects := effects + [(action, done)]; }
      callers := callers[c := callers[c].(pc := if ok then Working(done + 1, true) else Failing(done))];
    }
  }

  predicate Logged(base: seq<(Id, nat)>, log: seq<(Id, nat)>, id: Id, n: nat) {
    log == base + Log(id, n)
  }

  lemma LogGrows(base: seq<(Id, nat)>, log: seq<(Id, nat)>, id: Id, n: nat)
    requires Logged(base, log, id, n)
    ensures Logged(base, log + [(id, n)], id, n + 1)
  {
    assert Log(id, n) + [(id, n)] == Log(id, n + 1);
  }

  predicate Moved(base: seq<Caller>, callers: seq<Caller>, c: nat, pc: Pc) {
    c < |base| && callers == base[c := base[c].(pc := pc)]
  }

  lemma MovedTwice(base: seq<Caller>, mid: seq<Caller>, callers: seq<Caller>, c: nat, p: Pc, q: Pc)
    requires Moved(base, mid, c, p) && Moved(mid, callers, c, q)
    ensures Moved(base, callers, c, q)
  {
  }
}
