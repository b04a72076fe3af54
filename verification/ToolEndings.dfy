// How a chat turn ends, and which calls are answered: what the model, the executions and nothing else decide.
module ToolEndings {
  import opened Common
  import opened ToolLoop

  // ---------- One round ----------

  /** Those of the let-through calls whose executions, numbered from `n`, ask for confirmation. */
  function Waiting(env: Env, n: nat, first: seq<ToolCall>): seq<ToolCall>
    requires forall call :: call in first ==> Allowed(env, call)
    decreases |first|
  {
    if first == [] then []
    else
      (if env.execute(n, Resolve(env, first[0])) == Confirmation then [first[0]] else [])
      + Waiting(env, n + 1, first[1..])
  }

  /** How many of the calls before position `i` are let through. */
  function RunBefore(env: Env, remembered: set<string>, calls: seq<ToolCall>, i: nat): nat
    requires i <= |calls|
  {
    |FirstAsks(env, remembered, calls[..i])|
  }

  /** Call `i` is let through, and its execution asks for confirmation. */
  predicate Waits(env: Env, remembered: set<string>, n: nat, calls: seq<ToolCall>, i: nat)
    requires i < |calls|
  {
    && IsFirst(env, remembered, calls, i)
    && env.execute(n + RunBefore(env, remembered, calls, i), Resolve(env, calls[i])) == Confirmation
  }

  lemma TailRunBefore(env: Env, remembered: set<string>, calls: seq<ToolCall>, i: nat)
    requires i + 1 <= |calls|
    ensures RunBefore(env, remembered, calls, i + 1)
            == (if IsFirst(env, remembered, calls, 0) then 1 else 0)
               + RunBefore(env, remembered + {Fingerprint(calls[0])}, calls[1..], i)
  {
    assert calls[..i + 1][0] == calls[0] && calls[..i + 1][1..] == calls[1..][..i];
  }

  lemma TailWaits(env: Env, remembered: set<string>, n: nat, calls: seq<ToolCall>, i: nat)
    requires i + 1 < |calls|
    ensures var m := n + if IsFirst(env, remembered, calls, 0) then 1 else 0;
            Waits(env, remembered, n, calls, i + 1)
            <==> Waits(env, remembered + {Fingerprint(calls[0])}, m, calls[1..], i)
  {
    FirstOfTail(env, remembered, calls, i);
    TailRunBefore(env, remembered, calls, i);
  }

  lemma HeadWaits(env: Env, remembered: set<string>, n: nat, calls: seq<ToolCall>)
    requires calls != []
    ensures Waits(env, remembered, n, calls, 0)
            <==> IsFirst(env, remembered, calls, 0) && env.execute(n, Resolve(env, calls[0])) == Confirmation
  {
    assert calls[..0] == [];
  }

  /** The calls handed over for confirmation are the waiting ones, in order. */
  lemma {:induction false} PendingAreWaiting(env: Env, s: State, calls: seq<ToolCall>)
    ensures HandleCalls(env, s, calls).1 == Waiting(env, |s.executed|, FirstAsks(env, s.attempted, calls))
    decreases |calls|
  {
    if calls != [] {
      var t := HandleCall(env, s, calls[0]).0;
      CallIsAsked(env, s, calls[0]);
      FirstAskOf(env, s.attempted, calls[0]);
      PendingAreWaiting(env, t, calls[1..]);
      var later := FirstAsks(env, s.attempted + {Fingerprint(calls[0])}, calls[1..]);
      assert t.attempted == s.attempted + {Fingerprint(calls[0])};
      if IsFirst(env, s.attempted, calls, 0) {
        assert ([calls[0]] + later)[1..] == later && |t.executed| == |s.executed| + 1;
      }
    }
  }

  /** Something waits exactly when some call of the round does. */
  lemma {:induction false} SomethingWaitsIff(env: Env, remembered: set<string>, n: nat, calls: seq<ToolCall>)
    ensures Waiting(env, n, FirstAsks(env, remembered, calls)) != []
            <==> exists i :: 0 <= i < |calls| && Waits(env, remembered, n, calls, i)
    decreases |calls|
  {
    if calls != [] {
      var runs := IsFirst(env, remembered, calls, 0);
      var m := n + if runs then 1 else 0;
      var wider, tail := remembered + {Fingerprint(calls[0])}, calls[1..];
      var later := FirstAsks(env, wider, tail);
      SomethingWaitsIff(env, wider, m, tail);
      HeadWaits(env, remembered, n, calls);
      if runs { assert ([calls[0]] + later)[1..] == later; }
      forall i | 0 <= i < |tail|
        ensures Waits(env, remembered, n, calls, i + 1) <==> Waits(env, wider, m, tail, i) {
        TailWaits(env, remembered, n, calls, i);
      }
      if i :| 0 <= i < |calls| && Waits(env, remembered, n, calls, i) {
        if i > 0 { assert Waits(env, wider, m, tail, i - 1); }
      }
      if i :| 0 <= i < |tail| && Waits(env, wider, m, tail, i) {
        assert Waits(env, remembered, n, calls, i + 1);
      }
    }
  }

  // ---------- Who is answered ----------

  /** The ids answered: of every call but the waiting ones, in order. */
  function AnsweredIds(env: Env, remembered: set<string>, n: nat, calls: seq<ToolCall>): seq<string>
    decreases |calls|
  {
    if calls == [] then []
    else
      var runs := IsFirst(env, remembered, calls, 0);
      (if Waits(env, remembered, n, calls, 0) then [] else [calls[0].id])
      + AnsweredIds(env, remembered + {Fingerprint(calls[0])}, n + (if runs then 1 else 0), calls[1..])
  }

  function Answers(ids: seq<string>): seq<Message> {
    seq(|ids|, i requires 0 <= i < |ids| => ToolResult(ids[i]))
  }

  lemma AnswersConcat(a: seq<string>, b: seq<string>)
    ensures Answers(a + b) == Answers(a) + Answers(b)
  {
  }

  lemma CallAnswered(env: Env, s: State, call: ToolCall)
    ensures HandleCall(env, s, call).1 <==> Waits(env, s.attempted, |s.executed|, [call], 0)
    ensures HandleCall(env, s, call).0.messages
            == s.messages + Answers(if Waits(env, s.attempted, |s.executed|, [call], 0) then [] else [call.id])
  {
    HeadWaits(env, s.attempted, |s.executed|, [call]);
  }

  lemma {:induction false} CallsAnswered(env: Env, s: State, calls: seq<ToolCall>)
    ensures HandleCalls(env, s, calls).0.messages
            == s.messages + Answers(AnsweredIds(env, s.attempted, |s.executed|, calls))
    decreases |calls|
  {
    if calls != [] {
      var t := HandleCall(env, s, calls[0]).0;
      CallIsAsked(env, s, calls[0]);
      FirstAskOf(env, s.attempted, calls[0]);
      CallAnswered(env, s, calls[0]);
      HeadWaits(env, s.attempted, |s.executed|, calls);
      HeadWaits(env, s.attempted, |s.executed|, [calls[0]]);
      CallsAnswered(env, t, calls[1..]);
      var head := if Waits(env, s.attempted, |s.executed|, calls, 0) then [] else [calls[0].id];
      AnswersConcat(head, AnsweredIds(env, t.attempted, |t.executed|, calls[1..]));
    }
  }

  /** Call `i` gets an answer exactly when it does not wait, given that no two calls carry one id. */
  lemma {:induction false} AnsweredIff(env: Env, remembered: set<string>, n: nat, calls: seq<ToolCall>, i: nat)
    requires i < |calls| && Distinct(Ids(calls))
    ensures calls[i].id in AnsweredIds(env, remembered, n, calls) <==> !Waits(env, remembered, n, calls, i)
    decreases |calls|
  {
    var runs := IsFirst(env, remembered, calls, 0);
    var m := n + if runs then 1 else 0;
    var wider, tail := remembered + {Fingerprint(calls[0])}, calls[1..];
    DistinctTail(calls);
    AnsweredAreCalled(env, wider, m, tail);
    if i > 0 {
      TailWaits(env, remembered, n, calls, i - 1);
      AnsweredIff(env, wider, m, tail, i - 1);
      assert Ids(calls)[i] != Ids(calls)[0];
    }
  }

  lemma {:induction false} AnsweredAreCalled(env: Env, remembered: set<string>, n: nat, calls: seq<ToolCall>)
    ensures forall id :: id in AnsweredIds(env, remembered, n, calls) ==> id in SetOf(Ids(calls))
    decreases |calls|
  {
    if calls != [] {
      var runs := IsFirst(env, remembered, calls, 0);
      AnsweredAreCalled(env, remembered + {Fingerprint(calls[0])}, n + (if runs then 1 else 0), calls[1..]);
      assert Ids(calls)[0] == calls[0].id && Ids(calls[1..]) == Ids(calls)[1..];
    }
  }

  /**
   * A round: the calls handed over are those that wait, in order; there are some exactly when a call that is let
   * through executes to a confirmation; and every call is answered, in order, but those.
   */
  lemma {:induction false} RoundHandsOver(env: Env, s: State, calls: seq<ToolCall>)
    ensures var (t, pending) := HandleCalls(env, s, calls);
            && pending == Waiting(env, |s.executed|, FirstAsks(env, s.attempted, calls))
            && (pending != [] <==> exists i :: 0 <= i < |calls| && Waits(env, s.attempted, |s.executed|, calls, i))
            && t.messages == s.messages + Answers(AnsweredIds(env, s.attempted, |s.executed|, calls))
            && (Distinct(Ids(calls)) ==>
                  forall i :: 0 <= i < |calls| ==>
                    (calls[i].id in AnsweredIds(env, s.attempted, |s.executed|, calls)
                     <==> !Waits(env, s.attempted, |s.executed|, calls, i)))
  {
    PendingAreWaiting(env, s, calls);
    SomethingWaitsIff(env, s.attempted, |s.executed|, calls);
    CallsAnswered(env, s, calls);
    if Distinct(Ids(calls)) {
      forall i | 0 <= i < |calls|
        ensures calls[i].id in AnsweredIds(env, s.attempted, |s.executed|, calls)
                <==> !Waits(env, s.attempted, |s.executed|, calls, i) {
        AnsweredIff(env, s.attempted, |s.executed|, calls, i);
      }
    }
  }

  // ---------- The end of the turn ----------

  function CallsAt(env: Env, round: nat): seq<ToolCall> {
    if env.provider(round).Some? then CallsOf(env.provider(round).value) else []
  }

  /** The calls of the rounds from `from` up to `to`. */
  function CallsUntil(env: Env, from: nat, to: nat): seq<ToolCall>
    requires from <= to
    decreases if from <= to then to - from else 0
  {
    if from == to then [] else CallsAt(env, from) + CallsUntil(env, from + 1, to)
  }

  /** What waits in round `k`, after the rounds since `from` with `n` executions before them. */
  function WaitingAt(env: Env, remembered: set<string>, n: nat, from: nat, k: nat): seq<ToolCall>
    requires from <= k
  {
    WaitingAfter(env, remembered, n, CallsUntil(env, from, k), CallsAt(env, k))
  }

  /** What waits of these calls once the calls before them have been handled. */
  function WaitingAfter(env: Env, remembered: set<string>, n: nat, before: seq<ToolCall>, calls: seq<ToolCall>)
    : seq<ToolCall>
  {
    Waiting(env, n + |FirstAsks(env, remembered, before)|, FirstAsks(env, remembered + Prints(before), calls))
  }

  /** The model asks for tools in round `k`, and nothing waits. */
  predicate PassesOver(env: Env, remembered: set<string>, n: nat, from: nat, k: nat)
    requires from <= k
  {
    CallsAt(env, k) != [] && WaitingAt(env, remembered, n, from, k) == []
  }

  /**
   * The turn ends in round `k`: in every round before, the model asked for tools and nothing waited. Six rounds are
   * played at most.
   */
  predicate EndsAt(env: Env, remembered: set<string>, n: nat, from: nat, k: nat, end: End) {
    && from <= k <= 6
    && (forall j: nat :: from <= j < k ==> PassesOver(env, remembered, n, from, j))
    && match end
       case GaveUp => k == 6
       case Threw => k < 6 && env.provider(k).None?
       case Replied => k < 6 && env.provider(k).Some? && CallsAt(env, k) == []
       case AwaitsConfirmation(pending) => k < 6 && WaitingAt(env, remembered, n, from, k) == pending != []
  }

  lemma AsksIff(env: Env, round: nat)
    ensures AsksAt(env, round) <==> CallsAt(env, round) != []
    ensures AsksAt(env, round) ==> ToProviderMessage(env.provider(round).value).calls == CallsAt(env, round)
  {
  }

  lemma {:induction false} WaitingLater(env: Env, remembered: set<string>, n: nat, from: nat, k: nat)
    requires from < k
    ensures var calls := CallsAt(env, from);
            WaitingAt(env, remembered, n, from, k)
            == WaitingAt(env, remembered + Prints(calls), n + |FirstAsks(env, remembered, calls)|, from + 1, k)
  {
    WaitingInParts(env, remembered, n, CallsAt(env, from), CallsUntil(env, from + 1, k), CallsAt(env, k));
  }

  lemma {:induction false} WaitingInParts(
    env: Env, remembered: set<string>, n: nat, a: seq<ToolCall>, b: seq<ToolCall>, calls: seq<ToolCall>)
    ensures WaitingAfter(env, remembered, n, a + b, calls)
            == WaitingAfter(env, remembered + Prints(a), n + |FirstAsks(env, remembered, a)|, b, calls)
  {
    FirstAsksConcat(env, remembered, a, b);
    PrintsConcat(a, b);
    UnionAssociates(remembered, Prints(a), Prints(b));
  }

  lemma UnionAssociates(a: set<string>, b: set<string>, c: set<string>)
    ensures a + (b + c) == a + b + c
  {
  }

  lemma WaitingNow(env: Env, s: State, from: nat)
    requires AsksAt(env, from)
    ensures var m := ToProviderMessage(env.provider(from).value);
            HandleCalls(env, Posed(s, m), m.calls).1 == WaitingAt(env, s.attempted, |s.executed|, from, from)
  {
    AsksIff(env, from);
    var m := ToProviderMessage(env.provider(from).value);
    PendingAreWaiting(env, Posed(s, m), m.calls);
    assert CallsUntil(env, from, from) == [] && s.attempted + Prints([]) == s.attempted;
    assert FirstAsks(env, s.attempted, []) == [];
  }

  /** The round at hand, by itself. */
  lemma RoundEndsNow(env: Env, s: State, round: nat)
    requires round <= MAX_TOOL_ROUNDS
    ensures round == MAX_TOOL_ROUNDS || !AsksAt(env, round)
            || WaitingAt(env, s.attempted, |s.executed|, round, round) != [] ==>
              EndsAt(env, s.attempted, |s.executed|, round, round, Rounds(env, s, round).1)
    ensures round < MAX_TOOL_ROUNDS && AsksAt(env, round)
            && WaitingAt(env, s.attempted, |s.executed|, round, round) == [] ==>
              Rounds(env, s, round).1 == Rounds(env, PlayedState(env, s, round), round + 1).1
  {
    AsksIff(env, round);
    if round < MAX_TOOL_ROUNDS && AsksAt(env, round) { WaitingNow(env, s, round); }
  }

  function PlayedState(env: Env, s: State, round: nat): State
    requires AsksAt(env, round)
  {
    var m := ToProviderMessage(env.provider(round).value);
    HandleCalls(env, Posed(s, m), m.calls).0
  }

  /** The turn ends as the model's replies and the executions say, in one of six rounds or after them. */
  lemma {:induction false} RoundsEndAt(env: Env, s: State, round: nat) returns (k: nat)
    requires round <= MAX_TOOL_ROUNDS
    ensures EndsAt(env, s.attempted, |s.executed|, round, k, Rounds(env, s, round).1)
    decreases MAX_TOOL_ROUNDS - round
  {
    RoundEndsNow(env, s, round);
    if round == MAX_TOOL_ROUNDS || !AsksAt(env, round)
       || WaitingAt(env, s.attempted, |s.executed|, round, round) != []
    {
      k := round;
    } else {
      var t := PlayedState(env, s, round);
      k := RoundsEndAt(env, t, round + 1);
      PlayedOn(env, s, round);
      AsksIff(env, round);
      EndsEarlier(env, s, t, round, k, Rounds(env, t, round + 1).1);
    }
  }

  lemma {:induction false} EndsEarlier(env: Env, s: State, t: State, round: nat, k: nat, end: End)
    requires EndsAt(env, t.attempted, |t.executed|, round + 1, k, end)
    requires Asking(env, s, CallsAt(env, round), t) && PassesOver(env, s.attempted, |s.executed|, round, round)
    ensures EndsAt(env, s.attempted, |s.executed|, round, k, end)
  {
    forall j: nat | round < j <= k
      ensures WaitingAt(env, s.attempted, |s.executed|, round, j)
              == WaitingAt(env, t.attempted, |t.executed|, round + 1, j)
    {
      WaitingFrom(env, s, t, round, j);
    }
    forall j: nat | round <= j < k ensures PassesOver(env, s.attempted, |s.executed|, round, j) {
      if round < j { assert PassesOver(env, t.attempted, |t.executed|, round + 1, j); }
    }
  }

  lemma {:induction false} WaitingFrom(env: Env, s: State, t: State, round: nat, j: nat)
    requires Asking(env, s, CallsAt(env, round), t) && round < j
    ensures WaitingAt(env, s.attempted, |s.executed|, round, j)
            == WaitingAt(env, t.attempted, |t.executed|, round + 1, j)
  {
    WaitingLater(env, s.attempted, |s.executed|, round, j);
    assert |t.executed| == |s.executed| + |FirstAsks(env, s.attempted, CallsAt(env, round))|;
  }

  lemma EndDoesNotPass(env: Env, remembered: set<string>, n: nat, from: nat, k: nat, end: End)
    requires EndsAt(env, remembered, n, from, k, end) && k < 6
    ensures !PassesOver(env, remembered, n, from, k)
  {
  }

  /** And in no other way. */
  lemma EndIsUnique(env: Env, remembered: set<string>, n: nat, from: nat, k: nat, end: End, l: nat, other: End)
    requires EndsAt(env, remembered, n, from, k, end) && EndsAt(env, remembered, n, from, l, other)
    ensures k == l && end == other
  {
    if k < 6 { EndDoesNotPass(env, remembered, n, from, k, end); }
    if l < 6 { EndDoesNotPass(env, remembered, n, from, l, other); }
  }

  /** So the end of a turn is this one exactly when the replies and executions say so. */
  lemma TurnEndsIff(env: Env, p: Prelude, end: End)
    ensures var start := Start(p);
            Rounds(env, start, 0).1 == end <==> exists k :: EndsAt(env, start.attempted, |start.executed|, 0, k, end)
  {
    var start := Start(p);
    var k := RoundsEndAt(env, start, 0);
    if l :| EndsAt(env, start.attempted, |start.executed|, 0, l, end) {
      EndIsUnique(env, start.attempted, |start.executed|, 0, k, Rounds(env, start, 0).1, l, end);
    }
  }

  // ---------- Reasoning goes back to the model ----------

  /** An answer with reasoning is sent back item by item, any other as its calls alone. */
  lemma ReasoningIsSentBack(output: seq<Item>)
    requires CallsOf(output) != []
    ensures MessageItems(ToProviderMessage(output))
            == if Other(true) in output then output else CallItems(CallsOf(output))
  {
  }

  /** A read of today for a message about all time keeps its currency and nothing else. */
  lemma OverrideKeepsCurrency(env: Env, call: ToolCall)
    requires Allowed(env, call)
    ensures var asked := env.parse(call.arguments).value;
            Resolve(env, call) ==
              if env.allTime && (call.name == "get_today_finance" || call.name == "get_finance_summary"
                                 || call.name == "get_all_time_finance")
              then Operation("get_all_time_finance", Input(asked.currency, ""))
              else Operation(call.name, asked)
  {
  }
}
