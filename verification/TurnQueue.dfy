// Promise-chain queues keyed by chat: one link promise per call, a map from key to the newest link,
// and map entries that delete themselves once their link has settled.
module TurnQueue {
  import opened Common

  type Key = string

  /** `Released`: the task has returned or thrown and the call's own tail is resolved. */
  datatype Phase = Waiting | Running | Released

  /** `prev` is the link found in the map when the call was made; `None` stands for a resolved promise. */
  datatype Call = Call(key: Key, prev: Option<nat>, phase: Phase)

  /**
   * Calls are numbered in call order and call `i` owns link `i`. `cleanups` are the calls whose microtask
   * has not run yet, `watches` the `finally` callbacks registered on a link and not yet fired.
   */
  datatype State = State(calls: seq<Call>, heads: map<Key, nat>, settled: set<nat>,
                         cleanups: set<nat>, watches: multiset<(Key, nat)>)

  const EMPTY := State([], map[], {}, {}, multiset{})

  datatype Step =
    | Enqueue(key: Key)            // the synchronous start of a call
    | Start(i: nat)                // `await previous` returns
    | Release(i: nat)              // the task ends, however it ends
    | Settle(i: nat)               // the link promise of call `i` resolves
    | Cleanup(i: nat)              // the microtask queued by call `i`
    | Forget(key: Key, link: nat)  // a `finally` callback on a settled link

  predicate PrevSettled(s: State, i: nat)
    requires i < |s.calls|
  {
    s.calls[i].prev.None? || s.calls[i].prev.value in s.settled
  }

  predicate Enabled(s: State, step: Step) {
    match step
    case Enqueue(_) => true
    case Start(i) => i < |s.calls| && s.calls[i].phase == Waiting && PrevSettled(s, i)
    case Release(i) => i < |s.calls| && s.calls[i].phase == Running
    case Settle(i) => i < |s.calls| && i !in s.settled && s.calls[i].phase == Released && PrevSettled(s, i)
    case Cleanup(i) => i < |s.calls| && i in s.cleanups
    case Forget(key, link) => (key, link) in s.watches && link in s.settled
  }

  function SetPhase(s: State, i: nat, phase: Phase): State
    requires i < |s.calls|
  {
    s.(calls := s.calls[i := s.calls[i].(phase := phase)])
  }

  function Apply(s: State, step: Step): State
    requires Enabled(s, step)
  {
    match step
    case Enqueue(key) =>
      var prev := if key in s.heads then Some(s.heads[key]) else None;
      s.(calls := s.calls + [Call(key, prev, Waiting)], heads := s.heads[key := |s.calls|])
    case Start(i) => SetPhase(s, i, Running)
    case Release(i) => SetPhase(s, i, Released).(cleanups := s.cleanups + {i})
    case Settle(i) => s.(settled := s.settled + {i})
    case Cleanup(i) =>
      var key := s.calls[i].key;
      s.(cleanups := s.cleanups - {i},
         watches := if key in s.heads then s.watches + multiset{(key, s.heads[key])} else s.watches)
    case Forget(key, link) =>
      s.(watches := s.watches - multiset{(key, link)},
         heads := if key in s.heads && s.heads[key] == link then s.heads - {key} else s.heads)
  }

  function Run(s: State, steps: seq<Step>): Option<State>
    decreases |steps|
  {
    if steps == [] then Some(s)
    else if !Enabled(s, steps[0]) then None
    else Run(Apply(s, steps[0]), steps[1..])
  }

  // ---------- The invariant ----------

  predicate Same(s: State, i: nat, j: nat)
    requires i < |s.calls| && j < |s.calls|
  {
    s.calls[i].key == s.calls[j].key
  }

  /** Every earlier call of the same chat has settled. */
  predicate EarlierSettled(s: State, i: nat)
    requires i < |s.calls|
  {
    forall j :: 0 <= j < i && Same(s, j, i) ==> j in s.settled
  }

  ghost predicate HeadsAreNewest(s: State) {
    forall k :: k in s.heads ==>
      && s.heads[k] < |s.calls| && s.calls[s.heads[k]].key == k
      && forall j :: s.heads[k] < j < |s.calls| ==> s.calls[j].key != k
  }

  ghost predicate ForgottenIsSettled(s: State) {
    forall i :: 0 <= i < |s.calls| && s.calls[i].key !in s.heads ==> i in s.settled
  }

  ghost predicate PrevIsNearest(s: State) {
    forall i :: 0 <= i < |s.calls| ==> Nearest(s, i)
  }

  ghost predicate SettledInOrder(s: State) {
    forall i :: i in s.settled ==> i < |s.calls| && s.calls[i].phase == Released && EarlierSettled(s, i)
  }

  ghost predicate StartedInOrder(s: State) {
    forall i :: 0 <= i < |s.calls| && s.calls[i].phase != Waiting ==> EarlierSettled(s, i)
  }

  ghost predicate EntriesAreWatched(s: State) {
    forall k :: k in s.heads && s.heads[k] < |s.calls| && s.calls[s.heads[k]].phase == Released ==>
      s.heads[k] in s.cleanups || (k, s.heads[k]) in s.watches
  }

  ghost predicate Bookkeeping(s: State) {
    && (forall i :: i in s.cleanups ==> i < |s.calls|)
    && (forall w :: w in s.watches ==> w.1 < |s.calls|)
  }

  ghost predicate Invariant(s: State) {
    && HeadsAreNewest(s) && ForgottenIsSettled(s) && PrevIsNearest(s)
    && SettledInOrder(s) && StartedInOrder(s) && EntriesAreWatched(s) && Bookkeeping(s)
  }

  lemma PrevSettledMeansEarlierSettled(s: State, i: nat)
    requires PrevIsNearest(s) && SettledInOrder(s) && i < |s.calls| && PrevSettled(s, i)
    ensures EarlierSettled(s, i)
  {
    assert Nearest(s, i);
    if s.calls[i].prev.Some? {
      var p := s.calls[i].prev.value;
      assert EarlierSettled(s, p);
      forall j | 0 <= j < i && Same(s, j, i) ensures j in s.settled {
        assert j < p ==> Same(s, j, p);
      }
    }
  }

  /** `t` has at least the settled links and the same calls as `s`, phases apart. */
  predicate Extends(s: State, t: State) {
    && |s.calls| <= |t.calls| && s.settled <= t.settled
    && forall i :: 0 <= i < |s.calls| ==> s.calls[i].key == t.calls[i].key && s.calls[i].prev == t.calls[i].prev
  }

  lemma EarlierSettledCarries(s: State, t: State, i: nat)
    requires Extends(s, t) && i < |s.calls| && EarlierSettled(s, i)
    ensures EarlierSettled(t, i)
  {
    forall j | 0 <= j < i && Same(t, j, i) ensures j in t.settled {
      assert Same(s, j, i);
    }
  }

  predicate Nearest(s: State, i: nat)
    requires i < |s.calls|
  {
    match s.calls[i].prev
    case None => EarlierSettled(s, i)
    case Some(p) => p < i && Same(s, p, i) && forall j :: p < j < i ==> !Same(s, j, i)
  }

  lemma NearestCarries(s: State, t: State, i: nat)
    requires Extends(s, t) && i < |s.calls| && Nearest(s, i)
    ensures Nearest(t, i)
  {
    if s.calls[i].prev.None? {
      EarlierSettledCarries(s, t, i);
    } else {
      var p := s.calls[i].prev.value;
      assert Same(s, p, i);
      forall j | p < j < i ensures !Same(t, j, i) {
        assert !Same(s, j, i);
      }
    }
  }

  lemma OrderCarries(s: State, t: State)
    requires Invariant(s) && Extends(s, t)
    ensures forall i :: 0 <= i < |s.calls| ==> Nearest(t, i)
    ensures forall i :: 0 <= i < |s.calls| && (i in s.settled || s.calls[i].phase != Waiting) ==> EarlierSettled(t, i)
  {
    forall i | 0 <= i < |s.calls| ensures Nearest(t, i) {
      NearestCarries(s, t, i);
    }
    forall i | 0 <= i < |s.calls| && (i in s.settled || s.calls[i].phase != Waiting) ensures EarlierSettled(t, i) {
      EarlierSettledCarries(s, t, i);
    }
  }

  /** Order facts for old calls, once those for call `i` are known. */
  lemma OrderKept(s: State, t: State, i: nat)
    requires Invariant(s) && Extends(s, t) && |t.calls| <= |s.calls| + 1 && i < |t.calls|
    requires i == |s.calls| || |t.calls| == |s.calls|
    requires |t.calls| > |s.calls| ==> Nearest(t, i)
    requires forall j :: 0 <= j < |t.calls| && j != i ==> j < |s.calls| && t.calls[j] == s.calls[j]
    requires t.calls[i].phase != Waiting || i in t.settled ==> EarlierSettled(t, i)
    requires t.settled <= s.settled + {i} && (i in t.settled ==> t.calls[i].phase == Released)
    ensures PrevIsNearest(t) && SettledInOrder(t) && StartedInOrder(t)
  {
    OrderCarries(s, t);
  }

  lemma EnqueueKeeps(s: State, key: Key)
    requires Invariant(s)
    ensures Invariant(Apply(s, Enqueue(key)))
  {
    var t := Apply(s, Enqueue(key));
    EnqueuedIsNearest(s, key);
    OrderKept(s, t, |s.calls|);
    EnqueueKeepsHeads(s, key);
  }

  lemma EnqueueKeepsHeads(s: State, key: Key)
    requires Invariant(s)
    ensures var t := Apply(s, Enqueue(key));
              HeadsAreNewest(t) && ForgottenIsSettled(t) && EntriesAreWatched(t) && Bookkeeping(t)
  {
  }

  lemma EnqueuedIsNearest(s: State, key: Key)
    requires Invariant(s)
    ensures Nearest(Apply(s, Enqueue(key)), |s.calls|)
  {
    var t := Apply(s, Enqueue(key));
    var n := |s.calls|;
    if key in s.heads {
      forall j | s.heads[key] < j < n ensures !Same(t, j, n) {
        assert s.calls[j].key != key;
      }
    } else {
      forall j | 0 <= j < n && Same(t, j, n) ensures j in t.settled {
        assert s.calls[j].key == key;
      }
    }
  }

  /** Heads do not care about phases and settling, as long as a released head is watched. */
  lemma HeadsKept(s: State, t: State)
    requires HeadsAreNewest(s) && ForgottenIsSettled(s) && Extends(s, t) && |t.calls| == |s.calls| && t.heads == s.heads
    ensures HeadsAreNewest(t) && ForgottenIsSettled(t)
  {
  }

  lemma StartKeeps(s: State, i: nat)
    requires Invariant(s) && Enabled(s, Start(i))
    ensures Invariant(Apply(s, Start(i)))
  {
    var t := Apply(s, Start(i));
    PrevSettledMeansEarlierSettled(s, i);
    EarlierSettledCarries(s, t, i);
    OrderKept(s, t, i);
    HeadsKept(s, t);
  }

  lemma ReleaseKeeps(s: State, i: nat)
    requires Invariant(s) && Enabled(s, Release(i))
    ensures Invariant(Apply(s, Release(i)))
  {
    var t := Apply(s, Release(i));
    EarlierSettledCarries(s, t, i);
    OrderKept(s, t, i);
    HeadsKept(s, t);
    assert EntriesAreWatched(t);
  }

  lemma SettleKeeps(s: State, i: nat)
    requires Invariant(s) && Enabled(s, Settle(i))
    ensures Invariant(Apply(s, Settle(i)))
  {
    var t := Apply(s, Settle(i));
    PrevSettledMeansEarlierSettled(s, i);
    EarlierSettledCarries(s, t, i);
    OrderKept(s, t, i);
    HeadsKept(s, t);
  }

  /** Bookkeeping steps leave calls and settled links as they are. */
  lemma CallsKept(s: State, t: State)
    requires Invariant(s) && t.calls == s.calls && t.settled == s.settled
    ensures PrevIsNearest(t) && SettledInOrder(t) && StartedInOrder(t)
  {
    OrderCarries(s, t);
  }

  lemma CleanupKeeps(s: State, i: nat)
    requires Invariant(s) && Enabled(s, Cleanup(i))
    ensures Invariant(Apply(s, Cleanup(i)))
  {
    var t := Apply(s, Cleanup(i));
    CallsKept(s, t);
    HeadsKept(s, t);
    assert EntriesAreWatched(t);
  }

  lemma ForgetKeeps(s: State, key: Key, link: nat)
    requires Invariant(s) && Enabled(s, Forget(key, link))
    ensures Invariant(Apply(s, Forget(key, link)))
  {
    var t := Apply(s, Forget(key, link));
    CallsKept(s, t);
    if key in s.heads && s.heads[key] == link {
      forall i | 0 <= i < |t.calls| && t.calls[i].key !in t.heads ensures i in t.settled {
        if s.calls[i].key == key && i < link {
          assert EarlierSettled(s, link) && Same(s, i, link);
        }
      }
    } else {
      HeadsKept(s, t);
    }
    assert EntriesAreWatched(t);
  }

  lemma StepKeepsInvariant(s: State, step: Step)
    requires Invariant(s) && Enabled(s, step)
    ensures Invariant(Apply(s, step))
  {
    match step
    case Enqueue(key) => EnqueueKeeps(s, key);
    case Start(i) => StartKeeps(s, i);
    case Release(i) => ReleaseKeeps(s, i);
    case Settle(i) => SettleKeeps(s, i);
    case Cleanup(i) => CleanupKeeps(s, i);
    case Forget(key, link) => ForgetKeeps(s, key, link);
  }

  /** Once a call has left the waiting line, the earlier calls of its chat are done. */
  lemma EarlierAreReleased(s: State, i: nat, j: nat)
    requires Invariant(s) && i < j < |s.calls| && Same(s, i, j) && s.calls[j].phase != Waiting
    ensures s.calls[i].phase == Released
  {
    assert EarlierSettled(s, j);
  }

  /** Calls are only added, keep their key, and stay released once they are. */
  ghost predicate CallsGrow(s: State, t: State) {
    && |s.calls| <= |t.calls|
    && forall i :: 0 <= i < |s.calls| ==>
         t.calls[i].key == s.calls[i].key && (s.calls[i].phase == Released ==> t.calls[i].phase == Released)
  }

  lemma StepGrows(s: State, step: Step)
    requires Enabled(s, step)
    ensures CallsGrow(s, Apply(s, step))
    ensures |Apply(s, step).calls| == |s.calls| + if step.Enqueue? then 1 else 0
  {
  }

  lemma {:induction false} RunKeepsInvariant(s: State, steps: seq<Step>)
    requires Invariant(s) && Run(s, steps).Some?
    ensures Invariant(Run(s, steps).value)
    decreases |steps|
  {
    if steps != [] {
      StepKeepsInvariant(s, steps[0]);
      RunKeepsInvariant(Apply(s, steps[0]), steps[1..]);
    }
  }

  // ---------- Safety over every interleaving ----------

  /** A task starts only after every earlier task of its chat has ended; in particular no two run together. */
  lemma StrictlySequential(steps: seq<Step>, i: nat, j: nat)
    requires Run(EMPTY, steps).Some?
    ensures var s := Run(EMPTY, steps).value;
            i < j < |s.calls| && Same(s, i, j) && s.calls[j].phase != Waiting ==> s.calls[i].phase == Released
  {
    RunKeepsInvariant(EMPTY, steps);
    var s := Run(EMPTY, steps).value;
    if i < j < |s.calls| && Same(s, i, j) && s.calls[j].phase != Waiting {
      assert EarlierSettled(s, j);
    }
  }

  lemma AtMostOneRunning(steps: seq<Step>, i: nat, j: nat)
    requires Run(EMPTY, steps).Some?
    ensures var s := Run(EMPTY, steps).value;
            i < |s.calls| && j < |s.calls| && Same(s, i, j) && s.calls[i].phase == s.calls[j].phase == Running ==>
                i == j
  {
    StrictlySequential(steps, i, j);
    StrictlySequential(steps, j, i);
  }

  // ---------- Progress: nothing deadlocks, and the map empties itself ----------

  function Load(phase: Phase): nat {
    match phase
    case Waiting => 4
    case Running => 3
    case Released => 0
  }

  function Weight(calls: seq<Call>): nat {
    if calls == [] then 0 else Load(calls[|calls| - 1].phase) + Weight(calls[..|calls| - 1])
  }

  ghost function Backlog(s: State): int {
    Weight(s.calls) + (|s.calls| - |s.settled|) + 2 * |s.cleanups| + |s.watches|
  }

  lemma {:induction false} WeightOfUpdate(calls: seq<Call>, i: nat, c: Call)
    requires i < |calls|
    ensures Weight(calls[i := c]) + Weight([calls[i]]) == Weight(calls) + Weight([c])
    decreases |calls|
  {
    var n := |calls| - 1;
    if i == n {
      assert calls[i := c][..n] == calls[..n];
    } else {
      WeightOfUpdate(calls[..n], i, c);
      assert calls[i := c][..n] == calls[..n][i := c];
    }
  }

  /** Every step but the arrival of a new call uses up backlog. */
  lemma InternalStepsShrinkBacklog(s: State, step: Step)
    requires Invariant(s) && Enabled(s, step) && !step.Enqueue?
    ensures Backlog(Apply(s, step)) < Backlog(s)
  {
    match step
    case Enqueue(_) =>
    case Start(i) => WeightOfUpdate(s.calls, i, s.calls[i].(phase := Running));
    case Release(i) =>
      WeightOfUpdate(s.calls, i, s.calls[i].(phase := Released));
      assert |s.cleanups + {i}| <= |s.cleanups| + 1;
    case Settle(i) => assert |s.settled + {i}| == |s.settled| + 1;
    case Cleanup(i) => assert |s.cleanups - {i}| == |s.cleanups| - 1;
    case Forget(key, link) => assert |s.watches - multiset{(key, link)}| == |s.watches| - 1;
  }

  lemma SettledFits(s: State)
    requires Invariant(s)
    ensures |s.settled| <= |s.calls|
  {
    SubsetSize(s.settled, Upto(|s.calls|));
  }

  function Upto(n: nat): (r: set<nat>)
    ensures |r| == n && forall i :: i in r <==> 0 <= i < n
  {
    if n == 0 then {} else Upto(n - 1) + {n - 1}
  }

  /** So without new calls at most `Backlog` steps are left to take, whatever the scheduler does. */
  lemma {:induction false} RunsWithoutArrivalsEnd(s: State, steps: seq<Step>)
    requires Invariant(s) && Run(s, steps).Some? && forall x :: x in steps ==> !x.Enqueue?
    ensures |steps| <= Backlog(s)
    decreases |steps|
  {
    if steps == [] {
      SettledFits(s);
    } else {
      InternalStepsShrinkBacklog(s, steps[0]);
      StepKeepsInvariant(s, steps[0]);
      RunsWithoutArrivalsEnd(Apply(s, steps[0]), steps[1..]);
    }
  }

  /** The oldest call whose link has not settled can always take its next step. */
  lemma OldestUnsettledCanMove(s: State, i: nat)
    requires Invariant(s) && i < |s.calls| && i !in s.settled && EarlierSettled(s, i)
    ensures Enabled(s, Start(i)) || Enabled(s, Release(i)) || Enabled(s, Settle(i))
  {
    assert Nearest(s, i);
    if s.calls[i].prev.Some? {
      assert Same(s, s.calls[i].prev.value, i);
    }
  }

  lemma {:induction false} SomeOldestUnsettled(s: State, n: nat) returns (i: nat)
    requires Invariant(s) && n < |s.calls| && n !in s.settled
    ensures i < |s.calls| && i !in s.settled && EarlierSettled(s, i)
    decreases n
  {
    if EarlierSettled(s, n) {
      i := n;
    } else {
      var j :| 0 <= j < n && Same(s, j, n) && j !in s.settled;
      i := SomeOldestUnsettled(s, j);
    }
  }

  /** Every task has ended and the map holds no entry. */
  ghost predicate Drained(s: State) {
    s.heads == map[] && forall i :: 0 <= i < |s.calls| ==> s.calls[i].phase == Released && i in s.settled
  }

  lemma BusyCanMove(s: State) returns (step: Step)
    requires Invariant(s) && !Drained(s)
    ensures Enabled(s, step) && !step.Enqueue?
  {
    if n :| 0 <= n < |s.calls| && n !in s.settled {
      var i := SomeOldestUnsettled(s, n);
      OldestUnsettledCanMove(s, i);
      step := if Enabled(s, Start(i)) then Start(i) else if Enabled(s, Release(i)) then Release(i) else Settle(i);
    } else {
      var k :| k in s.heads;
      var h := s.heads[k];
      step := if h in s.cleanups then Cleanup(h) else Forget(k, h);
    }
  }

  /** When only arrivals are possible the queues are drained: no deadlock and no leaked map entry. */
  lemma QuiescentMeansDrained(steps: seq<Step>)
    requires Run(EMPTY, steps).Some?
    requires forall x :: Enabled(Run(EMPTY, steps).value, x) ==> x.Enqueue?
    ensures Drained(Run(EMPTY, steps).value)
  {
    RunKeepsInvariant(EMPTY, steps);
    if !Drained(Run(EMPTY, steps).value) {
      var x := BusyCanMove(Run(EMPTY, steps).value);
    }
  }
}
