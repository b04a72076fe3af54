// The tool-call rounds of one chat turn and the transcript they send to the model.
module ToolLoop {
  import opened Common

  const MAX_TOOL_ROUNDS := 6

  datatype ToolCall = ToolCall(id: string, name: string, arguments: string)

  /** Items of the provider's input and output; `Other` is text or reasoning. */
  datatype Item = Other(reasoning: bool) | FunctionCall(call: ToolCall) | FunctionOutput(id: string)

  /** A transcript entry; `raw` are the provider's own output items, kept when they include reasoning. */
  datatype Message = Said | Asked(calls: seq<ToolCall>, raw: seq<Item>) | ToolResult(id: string)

  // ---------- Converting to and from the provider ----------

  function CallItems(calls: seq<ToolCall>): seq<Item> {
    if calls == [] then [] else [FunctionCall(calls[0])] + CallItems(calls[1..])
  }

  function MessageItems(m: Message): seq<Item> {
    match m
    case Said => [Other(false)]
    case ToolResult(id) => [FunctionOutput(id)]
    case Asked(calls, raw) => if raw != [] then raw else CallItems(calls)
  }

  function ToResponseInput(messages: seq<Message>): seq<Item> {
    if messages == [] then []
    else ToResponseInput(messages[..|messages| - 1]) + MessageItems(messages[|messages| - 1])
  }

  function CallsOf(items: seq<Item>): seq<ToolCall> {
    if items == [] then []
    else (if items[0].FunctionCall? then [items[0].call] else []) + CallsOf(items[1..])
  }

  /** A response without function calls is plain text. */
  function ToProviderMessage(output: seq<Item>): Message {
    if CallsOf(output) == [] then Said
    else Asked(CallsOf(output), if exists i :: i in output && i == Other(true) then output else [])
  }

  // ---------- The rounds ----------

  datatype ExecResult = Data | Confirmation | Throws

  /** A parsed argument object: its currency, if one is given, and its other fields in a canonical form. */
  datatype Input = Input(currency: Option<string>, rest: string)

  const NO_FIELDS := Input(None, "")

  /** What is handed to execution. */
  datatype Operation = Operation(tool: string, input: Input)

  /**
   * The outside world: what the model answers in each round (`None` when the call fails), which tools are let through,
   * how argument texts parse, whether the customer's message asks for all time and names no period, and what the
   * `n`-th execution of the turn gives.
   */
  datatype Env = Env(provider: nat -> Option<seq<Item>>, permitted: ToolCall -> bool, parse: string -> Option<Input>,
                     allTime: bool, execute: (nat, Operation) -> ExecResult)

  /**
   * `attempted` are the fingerprints answered from memory from now on; `ran` the calls of the model let through to
   * execution, `executed` all operations executed so far, and `sent` the inputs handed to the provider.
   */
  datatype State = State(messages: seq<Message>, attempted: set<string>, ran: seq<ToolCall>, executed: seq<Operation>,
                         sent: seq<seq<Item>>)

  datatype End = Replied | AwaitsConfirmation(pending: seq<ToolCall>) | GaveUp | Threw

  function Fingerprint(call: ToolCall): string { call.name + ":" + call.arguments }

  const INVENTORY := "bito__inventory_snapshot"
  const FINANCE := "get_all_time_finance"
  const FINANCE_READS: set<string> := {"get_today_finance", "get_finance_summary", FINANCE}

  /** For a message about all time any finance read becomes the all-time one, of which only the currency is kept. */
  function FinanceReadOverride(env: Env, operation: Operation): Operation {
    if env.allTime && operation.tool in FINANCE_READS then Operation(FINANCE, Input(operation.input.currency, ""))
    else operation
  }

  predicate Allowed(env: Env, call: ToolCall) {
    env.permitted(call) && env.parse(call.arguments).Some?
  }

  /** The operation a call stands for. */
  function Resolve(env: Env, call: ToolCall): Operation
    requires Allowed(env, call)
  {
    FinanceReadOverride(env, Operation(call.name, env.parse(call.arguments).value))
  }

  function HandleCall(env: Env, s: State, call: ToolCall): (State, bool) {
    var answered := s.messages + [ToolResult(call.id)];
    if Fingerprint(call) in s.attempted then (s.(messages := answered), false)
    else
      var tried := s.(attempted := s.attempted + {Fingerprint(call)});
      if !Allowed(env, call) then (tried.(messages := answered), false)
      else
        var ran := tried.(ran := s.ran + [call], executed := s.executed + [Resolve(env, call)]);
        if env.execute(|s.executed|, Resolve(env, call)) == Confirmation then (ran, true)
        else (ran.(messages := answered), false)
  }

  function HandleCalls(env: Env, s: State, calls: seq<ToolCall>): (State, seq<ToolCall>)
    decreases |calls|
  {
    if calls == [] then (s, [])
    else
      var (t, waits) := HandleCall(env, s, calls[0]);
      var (u, pending) := HandleCalls(env, t, calls[1..]);
      (u, (if waits then [calls[0]] else []) + pending)
  }

  function Rounds(env: Env, s: State, round: nat): (State, End)
    requires round <= MAX_TOOL_ROUNDS
    decreases MAX_TOOL_ROUNDS - round
  {
    if round == MAX_TOOL_ROUNDS then (s, GaveUp)
    else
      var asked := s.(sent := s.sent + [ToResponseInput(s.messages)]);
      var output := env.provider(round);
      if output.None? then (asked, Threw)
      else
        var message := ToProviderMessage(output.value);
        if !message.Asked? then (asked, Replied)
        else
          var (t, pending) := HandleCalls(env, asked.(messages := asked.messages + [message]), message.calls);
          if pending != [] then (t, AwaitsConfirmation(pending)) else Rounds(env, t, round + 1)
  }

  /** The state in which the calls of message `m` are handled. */
  function Posed(s: State, m: Message): State {
    s.(messages := s.messages + [m], sent := s.sent + [ToResponseInput(s.messages)])
  }

  /** The model answers the round by asking for tools. */
  predicate AsksAt(env: Env, round: nat) {
    env.provider(round).Some? && ToProviderMessage(env.provider(round).value).Asked?
  }

  lemma RoundPlayed(env: Env, s: State, round: nat)
    requires round < MAX_TOOL_ROUNDS
    ensures Rounds(env, s, round).0 ==
              if !AsksAt(env, round) then s.(sent := s.sent + [ToResponseInput(s.messages)])
              else
                var m := ToProviderMessage(env.provider(round).value);
                var (t, pending) := HandleCalls(env, Posed(s, m), m.calls);
                if pending != [] then t else Rounds(env, t, round + 1).0
  {
  }

  method RunRounds(env: Env, start: State) returns (s: State, end: End)
    ensures (s, end) == Rounds(env, start, 0)
  {
    s := start;
    for round := 0 to MAX_TOOL_ROUNDS
      invariant Rounds(env, start, 0) == Rounds(env, s, round)
    {
      s := s.(sent := s.sent + [ToResponseInput(s.messages)]);
      var output := env.provider(round);
      if output.None? { return s, Threw; }
      var message := ToProviderMessage(output.value);
      if !message.Asked? { return s, Replied; }
      s := s.(messages := s.messages + [message]);
      var pending := [];
      s, pending := RunCalls(env, s, message.calls);
      if pending != [] { return s, AwaitsConfirmation(pending); }
    }
    end := GaveUp;
  }

  method RunCalls(env: Env, start: State, calls: seq<ToolCall>) returns (s: State, pending: seq<ToolCall>)
    ensures (s, pending) == HandleCalls(env, start, calls)
  {
    s, pending := start, [];
    for i := 0 to |calls|
      invariant HandleCalls(env, start, calls).0 == HandleCalls(env, s, calls[i..]).0
      invariant HandleCalls(env, start, calls).1 == pending + HandleCalls(env, s, calls[i..]).1
    {
      assert calls[i..][1..] == calls[i + 1..];
      var waits;
      s, waits := RunCall(env, s, calls[i]);
      if waits { pending := pending + [calls[i]]; }
    }
    assert calls[|calls|..] == [] && pending + [] == pending;
  }

  /** One call: answered from memory, refused, executed, or held back for confirmation. */
  method RunCall(env: Env, start: State, call: ToolCall) returns (s: State, waits: bool)
    ensures (s, waits) == HandleCall(env, start, call)
  {
    s, waits := start, false;
    var fingerprint := Fingerprint(call);
    if fingerprint !in s.attempted {
      s := s.(attempted := s.attempted + {fingerprint});
      if Allowed(env, call) {
        var number, operation := |s.executed|, Resolve(env, call);
        s := s.(ran := s.ran + [call], executed := s.executed + [operation]);
        if env.execute(number, operation) == Confirmation { return s, true; }
      }
    }
    s := s.(messages := s.messages + [ToolResult(call.id)]);
  }

  // ---------- Before the rounds ----------

  /** An inventory read with the input it is executed with. */
  datatype InventoryRead = InventoryRead(call: ToolCall, input: Input)

  /** The deterministic reads made before the first round; the inventory read is remembered as attempted. */
  datatype Prelude = Prelude(history: nat, inventory: Option<InventoryRead>, finance: Option<string>)

  function History(n: nat): seq<Message> {
    if n == 0 then [] else History(n - 1) + [Said]
  }

  function Start(p: Prelude): State {
    var base := State(History(p.history), {}, [], [], []);
    var stocked :=
      if p.inventory.None? then base
      else
        var read := p.inventory.value;
        base.(messages := base.messages + [Asked([read.call], []), ToolResult(read.call.id)],
              attempted := {Fingerprint(read.call)}, executed := [Operation(INVENTORY, read.input)]);
    if p.finance.None? then stocked
    else
      var call := ToolCall(p.finance.value, FINANCE, "{}");
      stocked.(messages := stocked.messages + [Asked([call], []), ToolResult(call.id)],
               executed := stocked.executed + [FINANCE_READ])
  }

  const FINANCE_READ := Operation(FINANCE, NO_FIELDS)

  function PreludeIds(p: Prelude): seq<string> {
    (if p.inventory.Some? then [p.inventory.value.call.id] else [])
    + (if p.finance.Some? then [p.finance.value] else [])
  }

  // ---------- Paired transcripts ----------

  /**
   * Reads the items left to right: the ids still open and all ids called; `None` on a repeated call or a stray
   * output.
   */
  function Scan(items: seq<Item>, open: set<string>, called: set<string>): Option<(set<string>, set<string>)> {
    if items == [] then Some((open, called))
    else match items[0]
      case Other(_) => Scan(items[1..], open, called)
      case FunctionCall(call) =>
        if call.id in called then None else Scan(items[1..], open + {call.id}, called + {call.id})
      case FunctionOutput(id) =>
        if id !in open then None else Scan(items[1..], open - {id}, called)
  }

  /** Every call is answered, once, after it was made, and nothing else is answered. */
  predicate Paired(items: seq<Item>) {
    Scan(items, {}, {}).Some? && Scan(items, {}, {}).value.0 == {}
  }

  lemma {:induction false} ScanAppend(a: seq<Item>, b: seq<Item>, open: set<string>, called: set<string>)
    ensures Scan(a + b, open, called) ==
            if Scan(a, open, called).None? then None
            else Scan(b, Scan(a, open, called).value.0, Scan(a, open, called).value.1)
    decreases |a|
  {
    if a == [] {
      assert a + b == b;
    } else {
      assert (a + b)[0] == a[0] && (a + b)[1..] == a[1..] + b;
      match a[0]
      case Other(_) => ScanAppend(a[1..], b, open, called);
      case FunctionCall(call) => ScanAppend(a[1..], b, open + {call.id}, called + {call.id});
      case FunctionOutput(id) => ScanAppend(a[1..], b, open - {id}, called);
    }
  }

  function Ids(calls: seq<ToolCall>): (r: seq<string>)
    ensures |r| == |calls| && forall i :: 0 <= i < |r| ==> r[i] == calls[i].id
  {
    seq(|calls|, i requires 0 <= i < |calls| => calls[i].id)
  }

  function SetOf(s: seq<string>): set<string> { set x | x in s }

  predicate NoOutputs(items: seq<Item>) {
    forall i :: i in items ==> !i.FunctionOutput?
  }

  lemma DistinctTail(calls: seq<ToolCall>)
    requires calls != [] && Distinct(Ids(calls))
    ensures Distinct(Ids(calls[1..])) && calls[0].id !in SetOf(Ids(calls[1..]))
    ensures SetOf(Ids(calls)) == {calls[0].id} + SetOf(Ids(calls[1..]))
  {
    var all, tail := Ids(calls), Ids(calls[1..]);
    assert forall i :: 0 <= i < |tail| ==> tail[i] == all[i + 1];
    assert all == [calls[0].id] + tail;
  }

  /** Items with fresh, distinct call ids and no outputs leave exactly those ids open. */
  lemma {:induction false} ScanCalls(items: seq<Item>, open: set<string>, called: set<string>)
    requires NoOutputs(items) && Distinct(Ids(CallsOf(items))) && SetOf(Ids(CallsOf(items))) !! called
    ensures Scan(items, open, called) == Some((open + SetOf(Ids(CallsOf(items))), called + SetOf(Ids(CallsOf(items)))))
    decreases |items|
  {
    var calls := CallsOf(items);
    if items == [] {
      assert open + SetOf(Ids(calls)) == open && called + SetOf(Ids(calls)) == called;
    } else {
      assert items[0] in items;
      if items[0].FunctionCall? {
        var id, rest := items[0].call.id, CallsOf(items[1..]);
        assert calls == [items[0].call] + rest;
        assert calls[1..] == rest;
        DistinctTail(calls);
        ScanCalls(items[1..], open + {id}, called + {id});
        assert open + {id} + SetOf(Ids(rest)) == open + SetOf(Ids(calls));
        assert called + {id} + SetOf(Ids(rest)) == called + SetOf(Ids(calls));
      } else {
        assert calls == CallsOf(items[1..]);
        ScanCalls(items[1..], open, called);
      }
    }
  }

  function Outputs(calls: seq<ToolCall>): seq<Item> {
    if calls == [] then [] else [FunctionOutput(calls[0].id)] + Outputs(calls[1..])
  }

  lemma {:induction false} ScanOutputs(calls: seq<ToolCall>, open: set<string>, called: set<string>)
    requires Distinct(Ids(calls)) && open == SetOf(Ids(calls))
    ensures Scan(Outputs(calls), open, called) == Some(({}, called))
    decreases |calls|
  {
    if calls == [] {
      assert open == {};
    } else {
      DistinctTail(calls);
      assert open - {calls[0].id} == SetOf(Ids(calls[1..]));
      assert Outputs(calls)[1..] == Outputs(calls[1..]);
      ScanOutputs(calls[1..], open - {calls[0].id}, called);
    }
  }

  lemma InputOfAppend(messages: seq<Message>, m: Message)
    ensures ToResponseInput(messages + [m]) == ToResponseInput(messages) + MessageItems(m)
  {
    assert (messages + [m])[..|messages|] == messages;
  }

  lemma {:induction false} CallItemsCalls(calls: seq<ToolCall>)
    ensures CallsOf(CallItems(calls)) == calls && NoOutputs(CallItems(calls))
  {
    if calls != [] {
      CallItemsCalls(calls[1..]);
      assert calls == [calls[0]] + calls[1..];
    }
  }

  lemma HandledCallIsAnswered(env: Env, s: State, call: ToolCall)
    ensures var (t, waits) := HandleCall(env, s, call);
            && t.sent == s.sent
            && (!waits ==> ToResponseInput(t.messages) == ToResponseInput(s.messages) + [FunctionOutput(call.id)])
  {
    InputOfAppend(s.messages, ToolResult(call.id));
  }

  lemma ConsAssociates<T>(a: seq<T>, x: T, b: seq<T>)
    ensures a + [x] + b == a + ([x] + b)
  {
  }

  /** When no call waits for confirmation, each one got its output, in order. */
  lemma {:induction false} HandledCallsAreAnswered(env: Env, s: State, calls: seq<ToolCall>)
    ensures HandleCalls(env, s, calls).0.sent == s.sent
    ensures HandleCalls(env, s, calls).1 == [] ==>
              ToResponseInput(HandleCalls(env, s, calls).0.messages) == ToResponseInput(s.messages) + Outputs(calls)
    decreases |calls|
  {
    var input := ToResponseInput(s.messages);
    if calls == [] {
      assert input + Outputs(calls) == input;
    } else {
      var t := HandleCall(env, s, calls[0]).0;
      HandledCallIsAnswered(env, s, calls[0]);
      HandledCallsAreAnswered(env, t, calls[1..]);
      ConsAssociates(input, FunctionOutput(calls[0].id), Outputs(calls[1..]));
    }
  }

  /** The model's call ids are new: to the prelude, within a round and across rounds. */
  ghost predicate FreshIds(env: Env, used: set<string>, round: nat) {
    forall r: nat :: round <= r && env.provider(r).Some? ==> FreshRound(env, used, round, r)
  }

  ghost predicate FreshRound(env: Env, used: set<string>, round: nat, r: nat)
    requires env.provider(r).Some?
  {
    && NoOutputs(env.provider(r).value)
    && Distinct(Ids(CallsOf(env.provider(r).value)))
    && SetOf(Ids(CallsOf(env.provider(r).value))) !! used
    && forall q: nat :: round <= q < r && env.provider(q).Some? ==>
         SetOf(Ids(CallsOf(env.provider(r).value))) !! SetOf(Ids(CallsOf(env.provider(q).value)))
  }

  lemma FreshLater(env: Env, used: set<string>, round: nat)
    requires FreshIds(env, used, round) && env.provider(round).Some?
    ensures FreshIds(env, used + SetOf(Ids(CallsOf(env.provider(round).value))), round + 1)
  {
    forall r: nat | round + 1 <= r && env.provider(r).Some?
      ensures FreshRound(env, used + SetOf(Ids(CallsOf(env.provider(round).value))), round + 1, r) {
      assert FreshRound(env, used, round, r);
    }
  }

  /** The transcript is paired and has called exactly `used`. */
  predicate Settled(messages: seq<Message>, used: set<string>) {
    Scan(ToResponseInput(messages), {}, {}) == Some(({}, used))
  }

  /** Sending what the model asked and the outputs of all its calls settles the transcript again. */
  lemma AnsweredRoundSettles(before: seq<Item>, items: seq<Item>, calls: seq<ToolCall>, used: set<string>)
    requires Scan(before, {}, {}) == Some(({}, used))
    requires CallsOf(items) == calls && NoOutputs(items) && Distinct(Ids(calls)) && SetOf(Ids(calls)) !! used
    ensures Scan(before + items + Outputs(calls), {}, {}) == Some(({}, used + SetOf(Ids(calls))))
  {
    var ids := SetOf(Ids(calls));
    ScanAppend(before, items, {}, {});
    ScanCalls(items, {}, used);
    ScanAppend(before + items, Outputs(calls), {}, {});
    assert {} + ids == ids;
    ScanOutputs(calls, ids, used + ids);
  }

  lemma RoundStaysSettled(env: Env, s: State, output: seq<Item>, used: set<string>)
    requires Settled(s.messages, used) && ToProviderMessage(output).Asked?
    requires NoOutputs(output) && Distinct(Ids(CallsOf(output))) && SetOf(Ids(CallsOf(output))) !! used
    ensures var m := ToProviderMessage(output);
            var next := s.(messages := s.messages + [m]);
            HandleCalls(env, next, m.calls).1 == [] ==>
              Settled(HandleCalls(env, next, m.calls).0.messages, used + SetOf(Ids(CallsOf(output))))
  {
    var m := ToProviderMessage(output);
    var next := s.(messages := s.messages + [m]);
    InputOfAppend(s.messages, m);
    CallItemsCalls(m.calls);
    HandledCallsAreAnswered(env, next, m.calls);
    AnsweredRoundSettles(ToResponseInput(s.messages), MessageItems(m), m.calls, used);
  }

  ghost predicate AllPaired(sent: seq<seq<Item>>) {
    forall i :: 0 <= i < |sent| ==> Paired(sent[i])
  }

  /** One round: what was sent is paired, and if the loop goes on the transcript is settled again. */
  lemma RoundSendsPaired(env: Env, s: State, round: nat, used: set<string>)
    requires Settled(s.messages, used) && FreshIds(env, used, round) && AllPaired(s.sent)
    requires env.provider(round).Some? && ToProviderMessage(env.provider(round).value).Asked?
    ensures var m := ToProviderMessage(env.provider(round).value);
            var next := Posed(s, m);
            var (t, pending) := HandleCalls(env, next, m.calls);
            && t.sent == next.sent && AllPaired(next.sent)
            && (pending == [] ==> Settled(t.messages, used + SetOf(Ids(CallsOf(env.provider(round).value)))))
  {
    var m := ToProviderMessage(env.provider(round).value);
    var asked := s.(sent := s.sent + [ToResponseInput(s.messages)]);
    assert FreshRound(env, used, round, round);
    RoundStaysSettled(env, asked, env.provider(round).value, used);
    HandledCallsAreAnswered(env, asked.(messages := asked.messages + [m]), m.calls);
  }

  lemma OneMorePaired(sent: seq<seq<Item>>, items: seq<Item>)
    requires AllPaired(sent) && Paired(items)
    ensures AllPaired(sent + [items])
  {
  }

  /** What the rounds rely on before each one. */
  ghost predicate Ready(env: Env, s: State, round: nat, used: set<string>) {
    Settled(s.messages, used) && FreshIds(env, used, round) && AllPaired(s.sent)
  }

  lemma RoundKeepsReady(env: Env, s: State, round: nat, used: set<string>)
    requires Ready(env, s, round, used) && AsksAt(env, round)
    ensures var m := ToProviderMessage(env.provider(round).value);
            var (t, pending) := HandleCalls(env, Posed(s, m), m.calls);
            && AllPaired(t.sent) && |t.sent| == |s.sent| + 1
            && (pending == [] ==> Ready(env, t, round + 1, used + SetOf(Ids(CallsOf(env.provider(round).value)))))
  {
    RoundSendsPaired(env, s, round, used);
    FreshLater(env, used, round);
  }

  lemma {:induction false} RoundsSendPaired(env: Env, s: State, round: nat, used: set<string>)
    requires round <= MAX_TOOL_ROUNDS && Ready(env, s, round, used)
    ensures AllPaired(Rounds(env, s, round).0.sent)
    ensures |Rounds(env, s, round).0.sent| <= |s.sent| + (MAX_TOOL_ROUNDS - round)
    decreases MAX_TOOL_ROUNDS - round
  {
    if round < MAX_TOOL_ROUNDS {
      RoundPlayed(env, s, round);
      if !AsksAt(env, round) {
        OneMorePaired(s.sent, ToResponseInput(s.messages));
      } else {
        RoundKeepsReady(env, s, round, used);
        var m := ToProviderMessage(env.provider(round).value);
        var (t, pending) := HandleCalls(env, Posed(s, m), m.calls);
        if pending == [] {
          RoundsSendPaired(env, t, round + 1, used + SetOf(Ids(CallsOf(env.provider(round).value))));
        }
      }
    }
  }

  lemma {:induction false} HistoryIsPlain(n: nat)
    ensures Scan(ToResponseInput(History(n)), {}, {}) == Some(({}, {}))
  {
    if n > 0 {
      HistoryIsPlain(n - 1);
      InputOfAppend(History(n - 1), Said);
      ScanAppend(ToResponseInput(History(n - 1)), [Other(false)], {}, {});
      assert [Other(false)][1..] == [];
    }
  }

  lemma AnsweredPairSettles(messages: seq<Message>, call: ToolCall, used: set<string>)
    requires Settled(messages, used) && call.id !in used
    ensures Settled(messages + [Asked([call], []), ToolResult(call.id)], used + {call.id})
  {
    var m, items := Asked([call], []), ToResponseInput(messages);
    InputOfAppend(messages, m);
    InputOfAppend(messages + [m], ToolResult(call.id));
    assert messages + [m] + [ToolResult(call.id)] == messages + [m, ToolResult(call.id)];
    assert Ids([call]) == [call.id] && SetOf(Ids([call])) == {call.id};
    OneCall(call);
    AnsweredRoundSettles(items, [FunctionCall(call)], [call], used);
  }

  lemma OneCall(call: ToolCall)
    ensures CallItems([call]) == [FunctionCall(call)] && Outputs([call]) == [FunctionOutput(call.id)]
    ensures CallsOf([FunctionCall(call)]) == [call]
  {
    assert CallItems([call][1..]) == [] && Outputs([call][1..]) == [];
    assert CallsOf([FunctionCall(call)][1..]) == [];
  }

  lemma AppendedId(ids: seq<string>, id: string)
    ensures SetOf(ids + [id]) == SetOf(ids) + {id}
    ensures Distinct(ids + [id]) ==> Distinct(ids) && id !in SetOf(ids)
  {
    var all := ids + [id];
    assert all[|ids|] == id;
    if Distinct(all) {
      forall i, j | 0 <= i < j < |ids| ensures ids[i] != ids[j] { assert all[i] != all[j]; }
      forall i | 0 <= i < |ids| ensures ids[i] != id { assert all[i] != all[|ids|]; }
    }
  }

  /** Starting from a settled transcript, a call with a new id and its answer settle it again. */
  lemma AnotherRead(messages: seq<Message>, ids: seq<string>, call: ToolCall)
    requires Settled(messages, SetOf(ids)) && Distinct(ids + [call.id])
    ensures Settled(messages + [Asked([call], []), ToolResult(call.id)], SetOf(ids + [call.id]))
  {
    AppendedId(ids, call.id);
    AnsweredPairSettles(messages, call, SetOf(ids));
  }

  lemma StartIsSettled(p: Prelude)
    requires Distinct(PreludeIds(p))
    ensures Settled(Start(p).messages, SetOf(PreludeIds(p))) && Start(p).sent == []
  {
    var history, ids := History(p.history), PreludeIds(p);
    HistoryIsPlain(p.history);
    assert SetOf([]) == {};
    var stocked := if p.inventory.Some? then [p.inventory.value.call.id] else [];
    assert ids == stocked + if p.finance.Some? then [p.finance.value] else [];
    if p.finance.Some? { AppendedId(stocked, p.finance.value); }
    if p.inventory.Some? {
      assert stocked == [] + [p.inventory.value.call.id];
      AnotherRead(history, [], p.inventory.value.call);
    }
    var q := p.(finance := None);
    assert Settled(Start(q).messages, SetOf(stocked));
    if p.finance.Some? {
      AnotherRead(Start(q).messages, stocked, ToolCall(p.finance.value, FINANCE, "{}"));
    } else {
      assert q == p && ids == stocked;
    }
  }

  /** Everything sent to the model in a turn, in at most six calls, pairs each function call with one later output. */
  lemma EverySentTranscriptIsPaired(env: Env, p: Prelude)
    requires Distinct(PreludeIds(p)) && FreshIds(env, SetOf(PreludeIds(p)), 0)
    ensures var t := Rounds(env, Start(p), 0).0;
            |t.sent| <= MAX_TOOL_ROUNDS && AllPaired(t.sent)
  {
    StartIsSettled(p);
    RoundsSendPaired(env, Start(p), 0, SetOf(PreludeIds(p)));
  }

  // ---------- What pairing means position by position ----------

  lemma {:induction false} OpenIdsGetAnswered(items: seq<Item>, open: set<string>, called: set<string>, id: string)
      returns (j: nat)
    requires Scan(items, open, called).Some? && Scan(items, open, called).value.0 == {} && id in open && open <= called
    ensures j < |items| && items[j] == FunctionOutput(id)
    ensures forall k :: 0 <= k < |items| && items[k] == FunctionOutput(id) ==> k == j
    ensures forall k :: 0 <= k < |items| ==> !(items[k].FunctionCall? && items[k].call.id == id)
    decreases |items|
  {
    if items[0] == FunctionOutput(id) {
      j := 0;
      ClosedIdsStayClosed(items[1..], open - {id}, called, id);
    } else {
      var rest := match items[0]
        case Other(_) => (open, called)
        case FunctionCall(call) => (open + {call.id}, called + {call.id})
        case FunctionOutput(x) => (open - {x}, called);
      var k := OpenIdsGetAnswered(items[1..], rest.0, rest.1, id);
      j := k + 1;
    }
    assert forall k :: 0 < k < |items| ==> items[k] == items[1..][k - 1];
  }

  lemma {:induction false} ClosedIdsStayClosed(items: seq<Item>, open: set<string>, called: set<string>, id: string)
    requires Scan(items, open, called).Some? && id in called && id !in open
    ensures forall k :: 0 <= k < |items| ==>
              items[k] != FunctionOutput(id) && !(items[k].FunctionCall? && items[k].call.id == id)
    decreases |items|
  {
    if items != [] {
      match items[0] {
        case Other(_) => ClosedIdsStayClosed(items[1..], open, called, id);
        case FunctionCall(call) => ClosedIdsStayClosed(items[1..], open + {call.id}, called + {call.id}, id);
        case FunctionOutput(x) => ClosedIdsStayClosed(items[1..], open - {x}, called, id);
      }
      assert forall k :: 0 < k < |items| ==> items[k] == items[1..][k - 1];
    }
  }

  lemma {:induction false} OpenIsCalled(items: seq<Item>, open: set<string>, called: set<string>)
    requires open <= called && Scan(items, open, called).Some?
    ensures Scan(items, open, called).value.0 <= Scan(items, open, called).value.1
    decreases |items|
  {
    if items != [] {
      match items[0]
      case Other(_) => OpenIsCalled(items[1..], open, called);
      case FunctionCall(call) => OpenIsCalled(items[1..], open + {call.id}, called + {call.id});
      case FunctionOutput(x) => OpenIsCalled(items[1..], open - {x}, called);
    }
  }

  /** In a paired transcript the call at `i` has one output, later on, and its id is called nowhere after. */
  lemma PairedCallHasOneOutput(items: seq<Item>, i: nat) returns (j: nat)
    requires Paired(items) && i < |items| && items[i].FunctionCall?
    ensures i < j < |items| && items[j] == FunctionOutput(items[i].call.id)
    ensures forall k :: i < k < |items| && items[k] == FunctionOutput(items[i].call.id) ==> k == j
    ensures forall k :: i < k < |items| ==> !(items[k].FunctionCall? && items[k].call.id == items[i].call.id)
  {
    var a, b, id := items[..i], items[i + 1..], items[i].call.id;
    assert items == a + ([items[i]] + b) && ([items[i]] + b)[1..] == b;
    ScanAppend(a, [items[i]] + b, {}, {});
    var at := Scan(a, {}, {}).value;
    OpenIsCalled(a, {}, {});
    var k := OpenIdsGetAnswered(b, at.0 + {id}, at.1 + {id}, id);
    j := i + 1 + k;
    assert forall x :: i < x < |items| ==> items[x] == b[x - i - 1];
  }

  // ---------- Which calls run, and what they execute ----------

  function Prints(calls: seq<ToolCall>): set<string> {
    set call | call in calls :: Fingerprint(call)
  }

  /** The first asks of each fingerprint not remembered, as far as they are let through. */
  function FirstAsks(env: Env, remembered: set<string>, calls: seq<ToolCall>): (r: seq<ToolCall>)
    ensures forall call :: call in r ==> Allowed(env, call)
    decreases |calls|
  {
    if calls == [] then []
    else
      var later := FirstAsks(env, remembered + {Fingerprint(calls[0])}, calls[1..]);
      if Fingerprint(calls[0]) !in remembered && Allowed(env, calls[0]) then [calls[0]] + later else later
  }

  function Operations(env: Env, calls: seq<ToolCall>): seq<Operation>
    requires forall call :: call in calls ==> Allowed(env, call)
  {
    seq(|calls|, i requires 0 <= i < |calls| => Resolve(env, calls[i]))
  }

  /** The calls of the rounds that the turn goes on to play. */
  function Played(env: Env, s: State, round: nat): seq<ToolCall>
    requires round <= MAX_TOOL_ROUNDS
    decreases MAX_TOOL_ROUNDS - round
  {
    if round == MAX_TOOL_ROUNDS || !AsksAt(env, round) then []
    else
      var m := ToProviderMessage(env.provider(round).value);
      var (t, pending) := HandleCalls(env, Posed(s, m), m.calls);
      m.calls + if pending == [] then Played(env, t, round + 1) else []
  }

  /** `t` is `s` after the calls have been asked for: their first asks have run, all of them are remembered. */
  predicate Asking(env: Env, s: State, calls: seq<ToolCall>, t: State) {
    var first := FirstAsks(env, s.attempted, calls);
    && t.attempted == s.attempted + Prints(calls)
    && t.ran == s.ran + first && t.executed == s.executed + Operations(env, first)
  }

  lemma FirstAskOf(env: Env, remembered: set<string>, call: ToolCall)
    ensures FirstAsks(env, remembered, [call])
            == if Fingerprint(call) !in remembered && Allowed(env, call) then [call] else []
    ensures Prints([call]) == {Fingerprint(call)}
  {
    assert [call][1..] == [];
  }

  lemma PrintsConcat(a: seq<ToolCall>, b: seq<ToolCall>)
    ensures Prints(a + b) == Prints(a) + Prints(b)
  {
    assert forall c :: c in a + b <==> c in a || c in b;
  }

  lemma {:induction false} FirstAsksConcat(env: Env, remembered: set<string>, a: seq<ToolCall>, b: seq<ToolCall>)
    ensures FirstAsks(env, remembered, a + b)
            == FirstAsks(env, remembered, a) + FirstAsks(env, remembered + Prints(a), b)
    decreases |a|
  {
    if a == [] {
      assert a + b == b && remembered + Prints(a) == remembered;
    } else {
      var wider, tail := remembered + {Fingerprint(a[0])}, a[1..];
      assert (a + b)[0] == a[0] && (a + b)[1..] == tail + b;
      FirstAsksConcat(env, wider, tail, b);
      PrintsConcat([a[0]], tail);
      assert [a[0]] + tail == a && Prints([a[0]]) == {Fingerprint(a[0])};
      assert wider + Prints(tail) == remembered + Prints(a);
    }
  }

  lemma OperationsConcat(env: Env, a: seq<ToolCall>, b: seq<ToolCall>)
    requires forall call :: call in a + b ==> Allowed(env, call)
    requires forall call :: call in a ==> Allowed(env, call)
    requires forall call :: call in b ==> Allowed(env, call)
    ensures Operations(env, a + b) == Operations(env, a) + Operations(env, b)
  {
  }

  lemma ConcatAssociates<T>(a: seq<T>, b: seq<T>, c: seq<T>)
    ensures a + b + c == a + (b + c)
  {
  }

  /** Asking for `a` and then for `b` is asking for both. */
  lemma AskingInParts(env: Env, s: State, a: seq<ToolCall>, t: State, b: seq<ToolCall>, u: State)
    requires Asking(env, s, a, t) && Asking(env, t, b, u)
    ensures Asking(env, s, a + b, u)
  {
    var first, later := FirstAsks(env, s.attempted, a), FirstAsks(env, t.attempted, b);
    FirstAsksConcat(env, s.attempted, a, b);
    PrintsConcat(a, b);
    OperationsConcat(env, first, later);
    assert s.attempted + Prints(a) + Prints(b) == s.attempted + Prints(a + b);
    ConcatAssociates(s.ran, first, later);
    ConcatAssociates(s.executed, Operations(env, first), Operations(env, later));
  }

  lemma CallIsAsked(env: Env, s: State, call: ToolCall)
    ensures Asking(env, s, [call], HandleCall(env, s, call).0)
  {
    FirstAskOf(env, s.attempted, call);
    if Fingerprint(call) !in s.attempted && Allowed(env, call) {
      assert Operations(env, [call]) == [Resolve(env, call)];
    }
  }

  lemma {:induction false} CallsAreAsked(env: Env, s: State, calls: seq<ToolCall>)
    ensures Asking(env, s, calls, HandleCalls(env, s, calls).0)
    decreases |calls|
  {
    if calls != [] {
      var t := HandleCall(env, s, calls[0]).0;
      CallIsAsked(env, s, calls[0]);
      CallsAreAsked(env, t, calls[1..]);
      AskingInParts(env, s, [calls[0]], t, calls[1..], HandleCalls(env, s, calls).0);
      assert [calls[0]] + calls[1..] == calls;
    }
  }

  lemma PlayedOn(env: Env, s: State, round: nat)
    requires round < MAX_TOOL_ROUNDS && AsksAt(env, round)
    ensures var m := ToProviderMessage(env.provider(round).value);
            var (t, pending) := HandleCalls(env, Posed(s, m), m.calls);
            && Played(env, s, round) == m.calls + (if pending == [] then Played(env, t, round + 1) else [])
            && Asking(env, s, m.calls, t)
  {
    var m := ToProviderMessage(env.provider(round).value);
    CallsAreAsked(env, Posed(s, m), m.calls);
  }

  lemma NothingAsked(env: Env, s: State, t: State)
    requires t.attempted == s.attempted && t.ran == s.ran && t.executed == s.executed
    ensures Asking(env, s, [], t)
  {
    assert Operations(env, []) == [] && Prints([]) == {};
  }

  /** What the rounds run and execute are the first asks of the calls they play, and nothing else. */
  lemma {:induction false} RoundsRunFirstAsks(env: Env, s: State, round: nat)
    requires round <= MAX_TOOL_ROUNDS
    ensures Asking(env, s, Played(env, s, round), Rounds(env, s, round).0)
    decreases MAX_TOOL_ROUNDS - round
  {
    if round == MAX_TOOL_ROUNDS {
      NothingAsked(env, s, s);
    } else {
      RoundPlayed(env, s, round);
      if !AsksAt(env, round) {
        NothingAsked(env, s, Rounds(env, s, round).0);
      } else {
        PlayedOn(env, s, round);
        var m := ToProviderMessage(env.provider(round).value);
        var (t, pending) := HandleCalls(env, Posed(s, m), m.calls);
        if pending == [] {
          RoundsRunFirstAsks(env, t, round + 1);
          AskingInParts(env, s, m.calls, t, Played(env, t, round + 1), Rounds(env, t, round + 1).0);
        } else {
          assert m.calls + [] == m.calls;
        }
      }
    }
  }

  // ---------- Each fingerprint runs at most once ----------

  predicate DistinctPrints(calls: seq<ToolCall>) {
    forall i, j :: 0 <= i < j < |calls| ==> Fingerprint(calls[i]) != Fingerprint(calls[j])
  }

  lemma {:induction false} FirstAsksAreDistinct(env: Env, remembered: set<string>, calls: seq<ToolCall>)
    ensures var r := FirstAsks(env, remembered, calls);
            DistinctPrints(r) && forall i :: 0 <= i < |r| ==> Fingerprint(r[i]) !in remembered
    decreases |calls|
  {
    if calls != [] { FirstAsksAreDistinct(env, remembered + {Fingerprint(calls[0])}, calls[1..]); }
  }

  /** In one turn each fingerprint the model asks for runs at most once, and a remembered inventory read never again. */
  lemma EachAskRunsOnce(env: Env, p: Prelude)
    ensures var t := Rounds(env, Start(p), 0).0;
            && DistinctPrints(t.ran) && |t.executed| == |Start(p).executed| + |t.ran|
            && (p.inventory.Some? ==>
                  forall i :: 0 <= i < |t.ran| ==> Fingerprint(t.ran[i]) != Fingerprint(p.inventory.value.call))
  {
    RoundsRunFirstAsks(env, Start(p), 0);
    FirstAsksAreDistinct(env, Start(p).attempted, Played(env, Start(p), 0));
    assert [] + FirstAsks(env, Start(p).attempted, Played(env, Start(p), 0)) == Rounds(env, Start(p), 0).0.ran;
  }

  // ---------- When an operation is executed twice ----------

  /** Call `i` is the first with its fingerprint, is not remembered and is let through. */
  predicate IsFirst(env: Env, remembered: set<string>, calls: seq<ToolCall>, i: nat)
    requires i < |calls|
  {
    && Fingerprint(calls[i]) !in remembered && Allowed(env, calls[i])
    && forall k :: 0 <= k < i ==> Fingerprint(calls[k]) != Fingerprint(calls[i])
  }

  /** A first call stands for an operation already executed before the rounds. */
  predicate RepeatsEarlier(env: Env, remembered: set<string>, before: seq<Operation>, calls: seq<ToolCall>) {
    exists i :: 0 <= i < |calls| && IsFirst(env, remembered, calls, i) && Resolve(env, calls[i]) in before
  }

  /** Two first calls stand for the same operation. */
  predicate TwoAlike(env: Env, remembered: set<string>, calls: seq<ToolCall>) {
    exists i, j :: 0 <= i < j < |calls| && IsFirst(env, remembered, calls, i) && IsFirst(env, remembered, calls, j)
                   && Resolve(env, calls[i]) == Resolve(env, calls[j])
  }

  predicate RunsAlone(env: Env, remembered: set<string>, before: seq<Operation>, calls: seq<ToolCall>) {
    !RepeatsEarlier(env, remembered, before, calls) && !TwoAlike(env, remembered, calls)
  }

  lemma FirstOfTail(env: Env, remembered: set<string>, calls: seq<ToolCall>, i: nat)
    requires i + 1 < |calls|
    ensures IsFirst(env, remembered, calls, i + 1)
            <==> IsFirst(env, remembered + {Fingerprint(calls[0])}, calls[1..], i)
  {
    var tail, f := calls[1..], Fingerprint(calls[0]);
    if IsFirst(env, remembered, calls, i + 1) {
      forall k | 0 <= k < i ensures Fingerprint(tail[k]) != Fingerprint(tail[i]) { assert tail[k] == calls[k + 1]; }
    }
    if IsFirst(env, remembered + {f}, tail, i) {
      forall k | 0 <= k < i + 1 ensures Fingerprint(calls[k]) != Fingerprint(calls[i + 1]) {
        if k > 0 { assert calls[k] == tail[k - 1]; }
      }
    }
  }

  lemma {:induction false} RepeatsIff(env: Env, remembered: set<string>, before: seq<Operation>, calls: seq<ToolCall>)
    ensures Distinct(before + Operations(env, FirstAsks(env, remembered, calls)))
            <==> Distinct(before) && RunsAlone(env, remembered, before, calls)
    decreases |calls|
  {
    if calls == [] {
      assert before + Operations(env, []) == before;
    } else {
      var wider, tail := remembered + {Fingerprint(calls[0])}, calls[1..];
      var later := FirstAsks(env, wider, tail);
      if IsFirst(env, remembered, calls, 0) {
        var more := before + [Resolve(env, calls[0])];
        RepeatsIff(env, wider, more, tail);
        assert Operations(env, [calls[0]] + later) == [Resolve(env, calls[0])] + Operations(env, later);
        assert before + ([Resolve(env, calls[0])] + Operations(env, later)) == more + Operations(env, later);
        FirstCallRepeats(env, remembered, before, calls);
      } else {
        RepeatsIff(env, wider, before, tail);
        OtherCallRepeats(env, remembered, before, calls);
      }
    }
  }

  lemma DistinctAppend(before: seq<Operation>, x: Operation)
    ensures Distinct(before + [x]) <==> Distinct(before) && x !in before
  {
    var more := before + [x];
    if Distinct(more) {
      forall i, j | 0 <= i < j < |before| ensures before[i] != before[j] { assert more[i] != more[j]; }
      forall i | 0 <= i < |before| ensures before[i] != x { assert more[i] != more[|before|]; }
    }
  }

  /** Repetitions of the tail, when the first call runs. */
  lemma FirstCallRepeats(env: Env, remembered: set<string>, before: seq<Operation>, calls: seq<ToolCall>)
    requires calls != [] && IsFirst(env, remembered, calls, 0)
    ensures var wider, more := remembered + {Fingerprint(calls[0])}, before + [Resolve(env, calls[0])];
            Distinct(more) && RunsAlone(env, wider, more, calls[1..])
            <==> Distinct(before) && RunsAlone(env, remembered, before, calls)
  {
    DistinctAppend(before, Resolve(env, calls[0]));
    TailRepeats(env, remembered, before, calls);
  }

  /** A first call past the head stands for an operation in `before`. */
  predicate LaterRepeats(env: Env, remembered: set<string>, before: seq<Operation>, calls: seq<ToolCall>) {
    exists i :: 1 <= i < |calls| && IsFirst(env, remembered, calls, i) && Resolve(env, calls[i]) in before
  }

  lemma TailRepeats(env: Env, remembered: set<string>, before: seq<Operation>, calls: seq<ToolCall>)
    requires calls != []
    ensures var wider := remembered + {Fingerprint(calls[0])};
            && (RepeatsEarlier(env, wider, before, calls[1..]) <==> LaterRepeats(env, remembered, before, calls))
            && (TwoAlike(env, wider, calls[1..]) ==> TwoAlike(env, remembered, calls))
  {
  }

  lemma OtherCallRepeats(env: Env, remembered: set<string>, before: seq<Operation>, calls: seq<ToolCall>)
    requires calls != [] && !IsFirst(env, remembered, calls, 0)
    ensures var wider := remembered + {Fingerprint(calls[0])};
            && (RepeatsEarlier(env, wider, before, calls[1..]) <==> RepeatsEarlier(env, remembered, before, calls))
            && (TwoAlike(env, wider, calls[1..]) <==> TwoAlike(env, remembered, calls))
  {
  }

  /**
   * The operations of a turn, those before the rounds included, are executed at most once each, if and only if among
   * the first calls that are let through in the rounds it plays no two stand for one operation, and none for an
   * operation executed before the rounds.
   */
  lemma TurnRunsOnceIff(env: Env, p: Prelude)
    ensures var start := Start(p);
            var calls := Played(env, start, 0);
            Distinct(Rounds(env, start, 0).0.executed)
            <==> RunsAlone(env, start.attempted, start.executed, calls)
  {
    RoundsRunFirstAsks(env, Start(p), 0);
    RepeatsIff(env, Start(p).attempted, Start(p).executed, Played(env, Start(p), 0));
    StartIsDistinct(p);
  }

  lemma StartIsDistinct(p: Prelude)
    ensures Distinct(Start(p).executed)
  {
    assert INVENTORY[0] == 'b' && FINANCE[0] == 'g';
  }

  predicate ParseAlike(env: Env, c: ToolCall, d: ToolCall) {
    env.parse(c.arguments).Some? && env.parse(c.arguments) == env.parse(d.arguments)
  }

  /** Among these calls, argument texts that differ parse to inputs that differ. */
  predicate SpelledAlike(env: Env, calls: seq<ToolCall>) {
    forall c, d :: c in calls && d in calls && ParseAlike(env, c, d) ==> c.arguments == d.arguments
  }

  /**
   * So nothing runs twice when no finance read was made beforehand, the message is not one that turns finance known
   * into one another, and the model spells an input one way only, the one of the inventory read included.
   */
  lemma PlainTurnRunsOnce(env: Env, p: Prelude)
    requires p.finance.None? && !env.allTime
    requires var known := if p.inventory.Some? then [p.inventory.value.call] else [];
             SpelledAlike(env, known + Played(env, Start(p), 0))
    requires p.inventory.Some? ==>
               && p.inventory.value.call.name == INVENTORY
               && env.parse(p.inventory.value.call.arguments) == Some(p.inventory.value.input)
    ensures Distinct(Rounds(env, Start(p), 0).0.executed)
  {
    var start, played := Start(p), Played(env, Start(p), 0);
    var known := if p.inventory.Some? then [p.inventory.value.call] else [];
    TurnRunsOnceIff(env, p);
    if TwoAlike(env, start.attempted, played) {
      var i, j :| 0 <= i < j < |played| && IsFirst(env, start.attempted, played, i)
                  && IsFirst(env, start.attempted, played, j) && Resolve(env, played[i]) == Resolve(env, played[j]);
      AlikeIsTheSameAsk(env, known + played, played[i], played[j]);
    }
    if RepeatsEarlier(env, start.attempted, start.executed, played) {
      var i :| 0 <= i < |played| && IsFirst(env, start.attempted, played, i)
               && Resolve(env, played[i]) in start.executed;
      var read := p.inventory.value;
      assert start.executed == [Operation(INVENTORY, read.input)] && known[0] == read.call;
      assert read.call in known + played && played[i] in known + played;
      InventoryAskedAgain(env, read, known + played, played[i]);
    }
  }

  lemma InventoryAskedAgain(env: Env, read: InventoryRead, calls: seq<ToolCall>, c: ToolCall)
    requires !env.allTime && SpelledAlike(env, calls) && read.call in calls && c in calls
    requires read.call.name == INVENTORY && env.parse(read.call.arguments) == Some(read.input)
    requires Allowed(env, c) && Resolve(env, c) == Operation(INVENTORY, read.input)
    ensures Fingerprint(c) == Fingerprint(read.call)
  {
    assert ParseAlike(env, read.call, c);
  }

  lemma AlikeIsTheSameAsk(env: Env, calls: seq<ToolCall>, c: ToolCall, d: ToolCall)
    requires !env.allTime && SpelledAlike(env, calls) && c in calls && d in calls
    requires Allowed(env, c) && Allowed(env, d) && Resolve(env, c) == Resolve(env, d)
    ensures Fingerprint(c) == Fingerprint(d)
  {
    assert ParseAlike(env, c, d);
  }

  /** A model that answers the first round with these calls and then fails. */
  function Asks(calls: seq<ToolCall>): nat -> Option<seq<Item>> {
    (r: nat) => if r == 0 then Some(CallItems(calls)) else None
  }

  /** Everything is let through and succeeds, and arguments parse to no fields; the message is about all time. */
  function AllTimeEnv(calls: seq<ToolCall>): Env {
    Env(Asks(calls), (c: ToolCall) => true, (arguments: string) => Some(NO_FIELDS), true,
        (n: nat, o: Operation) => Data)
  }

  lemma PlayedFirst(calls: seq<ToolCall>, s: State)
    requires calls != []
    ensures var played := Played(AllTimeEnv(calls), s, 0); calls <= played
  {
    CallItemsCalls(calls);
  }

  /** A model that repeats the finance read made beforehand gets it executed a second time. */
  lemma FinanceReadCanRunTwice(id: string, again: string)
    ensures var calls := [ToolCall(again, FINANCE, "{}")];
            !Distinct(Rounds(AllTimeEnv(calls), Start(Prelude(0, None, Some(id))), 0).0.executed)
  {
    ReadAgainAs(id, ToolCall(again, FINANCE, "{}"));
  }

  /** So does a model that asks for today's figures, because the message turns that read into the all-time one. */
  lemma TodayReadRunsTheFinanceReadAgain(id: string, again: string)
    ensures var calls := [ToolCall(again, "get_today_finance", "{}")];
            !Distinct(Rounds(AllTimeEnv(calls), Start(Prelude(0, None, Some(id))), 0).0.executed)
  {
    ReadAgainAs(id, ToolCall(again, "get_today_finance", "{}"));
  }

  lemma ReadAgainAs(id: string, call: ToolCall)
    requires call.name in FINANCE_READS
    ensures !Distinct(Rounds(AllTimeEnv([call]), Start(Prelude(0, None, Some(id))), 0).0.executed)
  {
    var env, p := AllTimeEnv([call]), Prelude(0, None, Some(id));
    var start := Start(p);
    var played := Played(env, start, 0);
    PlayedFirst([call], start);
    assert played[0] == call && start.executed == [FINANCE_READ] && start.attempted == {};
    assert IsFirst(env, start.attempted, played, 0) && Resolve(env, played[0]) == FINANCE_READ;
    TurnRunsOnceIff(env, p);
  }

  /** Without a read beforehand, two differently named finance reads of one reply execute the same operation. */
  lemma TwoNamesRunOneOperation(a: string, b: string)
    ensures var calls := [ToolCall(a, "get_today_finance", "{}"), ToolCall(b, "get_finance_summary", "{}")];
            !Distinct(Rounds(AllTimeEnv(calls), Start(Prelude(0, None, None)), 0).0.executed)
  {
    var calls := [ToolCall(a, "get_today_finance", "{}"), ToolCall(b, "get_finance_summary", "{}")];
    var env, p := AllTimeEnv(calls), Prelude(0, None, None);
    var start := Start(p);
    var played := Played(env, start, 0);
    PlayedFirst(calls, start);
    assert played[0] == calls[0] && played[1] == calls[1] && start.attempted == {};
    assert Fingerprint(calls[0])[4] == 't' && Fingerprint(calls[1])[4] == 'f';
    assert IsFirst(env, start.attempted, played, 0) && IsFirst(env, start.attempted, played, 1);
    TurnRunsOnceIff(env, p);
  }

  /** The inventory read made beforehand runs again for a model that spells its arguments with a blank. */
  lemma SpellingRunsTheInventoryReadAgain(id: string, again: string)
    ensures var calls := [ToolCall(again, INVENTORY, "{ }")];
            var read := InventoryRead(ToolCall(id, INVENTORY, "{}"), NO_FIELDS);
            !Distinct(Rounds(AllTimeEnv(calls), Start(Prelude(0, Some(read), None)), 0).0.executed)
  {
    var calls := [ToolCall(again, INVENTORY, "{ }")];
    var read := InventoryRead(ToolCall(id, INVENTORY, "{}"), NO_FIELDS);
    var env, p := AllTimeEnv(calls), Prelude(0, Some(read), None);
    var start := Start(p);
    var played := Played(env, start, 0);
    PlayedFirst(calls, start);
    assert played[0] == calls[0] && start.executed == [Operation(INVENTORY, NO_FIELDS)];
    assert |Fingerprint(calls[0])| == |Fingerprint(read.call)| + 1 && start.attempted == {Fingerprint(read.call)};
    assert INVENTORY[0] == 'b';
    assert INVENTORY !in FINANCE_READS && Resolve(env, played[0]) == Operation(INVENTORY, NO_FIELDS);
    assert IsFirst(env, start.attempted, played, 0);
    TurnRunsOnceIff(env, p);
  }
}
