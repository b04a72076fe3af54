// The typing-fragment buffer: incomplete pieces are collected per chat and handed over as one text.
module TextFragments {
  import opened Common

  const MAX_FRAGMENT := 1200
  const MAX_PENDING := 8
  const MAX_JOINED := 4000

  function Clean(s: string): string { Prefix(Squeeze(s), MAX_FRAGMENT) }

  function Buffered(bucket: seq<string>, text: string): seq<string> {
    if Clean(text) == "" then bucket else LastPending(bucket + [Clean(text)])
  }

  function LastPending(items: seq<string>): seq<string> {
    if |items| > MAX_PENDING then items[|items| - MAX_PENDING..] else items
  }

  function Items(bucket: seq<string>, current: Option<string>): seq<string> {
    bucket + if current.Some? && Squeeze(current.value) != "" then [Squeeze(current.value)] else []
  }

  function Consumed(bucket: seq<string>, current: Option<string>): (seq<string>, Option<string>) {
    var items := Items(bucket, current);
    if items == [] then (bucket, None) else ([], Some(Prefix(Join(items, "\n"), MAX_JOINED)))
  }

  // ---------- A run of one chat's buffer ----------

  datatype Op = Buffer(text: string) | Consume(current: Option<string>)

  /** `received` are the lines of all texts handed over; `lossless` that no step hit one of the three limits. */
  datatype Log = Log(bucket: seq<string>, received: seq<string>, lossless: bool)

  function Lines(t: string): seq<string> {
    if t == "" then [""]
    else if t[0] == '\n' then [""] + Lines(t[1..])
    else var rest := Lines(t[1..]); [[t[0]] + rest[0]] + rest[1..]
  }

  function After(l: Log, op: Op): Log {
    match op
    case Buffer(text) =>
      Log(Buffered(l.bucket, text), l.received,
          l.lossless && |Squeeze(text)| <= MAX_FRAGMENT && (Squeeze(text) == "" || |l.bucket| < MAX_PENDING))
    case Consume(current) =>
      var (bucket, text) := Consumed(l.bucket, current);
      if text.None? then l
      else Log(bucket, l.received + Lines(text.value), l.lossless
        && |Join(Items(l.bucket, current), "\n")| <= MAX_JOINED)
  }

  function Run(ops: seq<Op>): Log {
    if ops == [] then Log([], [], true) else After(Run(ops[..|ops| - 1]), ops[|ops| - 1])
  }

  /** What the customer typed, in arrival order; white space is squeezed but nothing is cut. */
  function Arrivals(ops: seq<Op>): seq<string> {
    if ops == [] then [] else Arrivals(ops[..|ops| - 1]) + Arrival(ops[|ops| - 1])
  }

  function Arrival(op: Op): seq<string> {
    match op
    case Buffer(text) => if Squeeze(text) == "" then [] else [Squeeze(text)]
    case Consume(current) => Items([], current)
  }

  // ---------- Cleaned fragments hold no line break ----------

  predicate OneLine(s: string) {
    forall i :: 0 <= i < |s| ==> s[i] != '\n'
  }

  lemma {:induction false} CollapseIsOneLine(s: string)
    ensures OneLine(Collapse(s))
  {
    if s != "" {
      CollapseIsOneLine(s[1..]);
    }
  }

  lemma {:induction false} TrimStartIsOneLine(s: string)
    requires OneLine(s)
    ensures OneLine(TrimStart(s))
  {
    if s != "" && IsSpace(s[0]) {
      TrimStartIsOneLine(s[1..]);
    }
  }

  lemma CleanIsOneLine(s: string)
    ensures OneLine(Squeeze(s)) && OneLine(Clean(s))
  {
    CollapseIsOneLine(s);
    TrimStartIsOneLine(Collapse(s));
  }

  // ---------- Joining and splitting ----------

  lemma {:induction false} LinesOfLine(x: string, t: string)
    requires OneLine(x)
    ensures Lines(x) == [x] && Lines(x + "\n" + t) == [x] + Lines(t)
  {
    if x == "" {
      assert x + "\n" + t == ['\n'] + t;
      assert (['\n'] + t)[1..] == t;
    } else {
      LinesOfLine(x[1..], t);
      assert x == [x[0]] + x[1..];
      assert ([x[1..]] + Lines(t))[1..] == Lines(t);
      assert (x + "\n" + t)[1..] == x[1..] + "\n" + t;
    }
  }

  lemma {:induction false} LinesOfJoin(items: seq<string>)
    requires items != [] && forall x :: x in items ==> OneLine(x)
    ensures Lines(Join(items, "\n")) == items
  {
    if |items| == 1 {
      LinesOfLine(items[0], "");
    } else {
      assert items[0] in items;
      var rest := Join(items[1..], "\n");
      LinesOfJoin(items[1..]);
      LinesOfLine(items[0], rest);
      assert Join(items, "\n") == items[0] + "\n" + rest;
      assert items == [items[0]] + items[1..];
    }
  }

  /** Characters of a list of lines, one extra for each line. */
  function Size(items: seq<string>): nat {
    if items == [] then 0 else |items[0]| + 1 + Size(items[1..])
  }

  lemma {:induction false} SizeAppend(a: seq<string>, b: seq<string>)
    ensures Size(a + b) == Size(a) + Size(b)
  {
    if a == [] {
      assert a + b == b;
    } else {
      assert (a + b)[1..] == a[1..] + b;
      SizeAppend(a[1..], b);
    }
  }

  lemma {:induction false} SizeOfLines(t: string)
    ensures Size(Lines(t)) == |t| + 1
  {
    if t != "" {
      SizeOfLines(t[1..]);
      var rest := Lines(t[1..]);
      if t[0] != '\n' {
        assert ([[t[0]] + rest[0]] + rest[1..])[1..] == rest[1..];
      } else {
        assert ([""] + rest)[1..] == rest;
      }
    }
  }

  lemma {:induction false} SizeOfJoin(items: seq<string>)
    requires items != []
    ensures Size(items) == |Join(items, "\n")| + 1
  {
    if |items| > 1 {
      SizeOfJoin(items[1..]);
    }
  }

  // ---------- Conservation ----------

  ghost predicate Accounted(l: Log, arrivals: seq<string>) {
    && |l.bucket| <= MAX_PENDING && (forall x :: x in l.bucket ==> OneLine(x))
    && (l.lossless ==> l.received + l.bucket == arrivals)
    && Size(l.received + l.bucket) + (if l.lossless then 0 else 1) <= Size(arrivals)
  }

  lemma SizeOfThree(a: seq<string>, b: seq<string>, c: seq<string>)
    ensures Size(a + (b + c)) == Size(a) + Size(b) + Size(c) && a + (b + c) == a + b + c
  {
    SizeAppend(b, c);
    SizeAppend(a, b + c);
  }

  /** A piece `c`, typed as `typed`, that still fits. */
  lemma RoomyBufferAccounts(l: Log, c: string, typed: string, arrivals: seq<string>)
    requires Accounted(l, arrivals) && OneLine(c) && c <= typed && |l.bucket| < MAX_PENDING
    ensures Accounted(Log(l.bucket + [c], l.received, l.lossless && c == typed), arrivals + [typed])
  {
    SizeAppend(arrivals, [typed]);
    SizeAppend(l.received, l.bucket);
    SizeOfThree(l.received, l.bucket, [c]);
  }

  /** A piece that pushes the oldest one out. */
  lemma FullBufferAccounts(l: Log, c: string, typed: string, arrivals: seq<string>)
    requires Accounted(l, arrivals) && OneLine(c) && c <= typed && |l.bucket| == MAX_PENDING
    ensures Accounted(Log(l.bucket[1..] + [c], l.received, false), arrivals + [typed])
  {
    SizeAppend(arrivals, [typed]);
    SizeAppend(l.received, l.bucket);
    assert Size(l.bucket) == |l.bucket[0]| + 1 + Size(l.bucket[1..]);
    SizeOfThree(l.received, l.bucket[1..], [c]);
  }

  lemma BufferAccounts(l: Log, text: string, arrivals: seq<string>)
    requires Accounted(l, arrivals)
    ensures Accounted(After(l, Buffer(text)), arrivals + Arrival(Buffer(text)))
  {
    var c, typed := Clean(text), Squeeze(text);
    CleanIsOneLine(text);
    if typed == "" {
      assert arrivals + [] == arrivals;
    } else if |l.bucket| < MAX_PENDING {
      RoomyBufferAccounts(l, c, typed, arrivals);
    } else {
      FullBufferAccounts(l, c, typed, arrivals);
      assert (l.bucket + [c])[1..] == l.bucket[1..] + [c];
    }
  }

  /** Handing over all items, cut at the limit. */
  lemma HandoverAccounts(received: seq<string>, items: seq<string>)
    requires items != [] && forall x :: x in items ==> OneLine(x)
    ensures var text := Prefix(Join(items, "\n"), MAX_JOINED);
            && (|Join(items, "\n")| <= MAX_JOINED ==> Lines(text) == items)
            && (|Join(items, "\n")| > MAX_JOINED ==> Size(Lines(text)) < Size(items))
  {
    var text := Prefix(Join(items, "\n"), MAX_JOINED);
    SizeOfJoin(items);
    SizeOfLines(text);
    if |Join(items, "\n")| <= MAX_JOINED { LinesOfJoin(items); }
  }

  lemma ItemsAreOneLine(bucket: seq<string>, current: Option<string>)
    requires forall x :: x in bucket ==> OneLine(x)
    ensures forall x :: x in Items(bucket, current) ==> OneLine(x)
    ensures Items(bucket, current) == bucket + Items([], current)
  {
    if current.Some? { CleanIsOneLine(current.value); }
  }

  lemma ConsumeAccounts(l: Log, current: Option<string>, arrivals: seq<string>)
    requires Accounted(l, arrivals)
    ensures Accounted(After(l, Consume(current)), arrivals + Arrival(Consume(current)))
  {
    var own := Items([], current);
    var items := Items(l.bucket, current);
    ItemsAreOneLine(l.bucket, current);
    if items == [] {
      assert arrivals + own == arrivals;
    } else {
      var text := Prefix(Join(items, "\n"), MAX_JOINED);
      HandoverAccounts(l.received, items);
      SizeAppend(l.received, l.bucket);
      SizeAppend(arrivals, own);
      SizeAppend(l.bucket, own);
      SizeAppend(l.received, Lines(text));
      assert l.received + Lines(text) + [] == l.received + Lines(text);
      assert l.received + (l.bucket + own) == l.received + l.bucket + own;
    }
  }

  lemma {:induction false} RunIsAccounted(ops: seq<Op>)
    ensures Accounted(Run(ops), Arrivals(ops))
    decreases |ops|
  {
    if ops != [] {
      var front, last := ops[..|ops| - 1], ops[|ops| - 1];
      RunIsAccounted(front);
      match last {
        case Buffer(text) => BufferAccounts(Run(front), text, Arrivals(front));
        case Consume(current) => ConsumeAccounts(Run(front), current, Arrivals(front));
      }
    }
  }

  /**
   * Every fragment is received exactly once in arrival order or still pending, precisely when no fragment passed 1,200
   * characters, no buffering met eight pending pieces and no handed-over text passed four thousand characters.
   */
  lemma NothingLostIffWithinLimits(ops: seq<Op>)
    ensures Run(ops).lossless <==> Run(ops).received + Run(ops).bucket == Arrivals(ops)
    ensures |Run(ops).bucket| <= MAX_PENDING
  {
    RunIsAccounted(ops);
  }

  // ---------- What squeezing, buffering and handing over leave ----------

  /** The characters that are not white space. */
  function Ink(s: string): string {
    if s == "" then "" else (if IsSpace(s[0]) then "" else [s[0]]) + Ink(s[1..])
  }

  lemma {:induction false} InkConcat(a: string, b: string)
    ensures Ink(a + b) == Ink(a) + Ink(b)
  {
    if a == "" {
      assert a + b == b;
    } else {
      assert (a + b)[1..] == a[1..] + b;
      InkConcat(a[1..], b);
    }
  }

  lemma {:induction false} CollapseKeepsInk(s: string)
    ensures Ink(Collapse(s)) == Ink(s)
    decreases |s|
  {
    if s != "" {
      CollapseKeepsInk(s[1..]);
      if !IsSpace(s[0]) {
        assert ([s[0]] + Collapse(s[1..]))[1..] == Collapse(s[1..]);
      } else if |s| == 1 || !IsSpace(s[1]) {
        assert ([' '] + Collapse(s[1..]))[1..] == Collapse(s[1..]);
      }
    }
  }

  lemma {:induction false} TrimStartKeepsInk(s: string)
    ensures Ink(TrimStart(s)) == Ink(s)
  {
    if s != "" && IsSpace(s[0]) { TrimStartKeepsInk(s[1..]); }
  }

  lemma {:induction false} TrimEndKeepsInk(s: string)
    ensures Ink(TrimEnd(s)) == Ink(s)
  {
    if s != "" && IsSpace(s[|s| - 1]) {
      TrimEndKeepsInk(s[..|s| - 1]);
      InkConcat(s[..|s| - 1], [s[|s| - 1]]);
      assert s == s[..|s| - 1] + [s[|s| - 1]] && Ink([s[|s| - 1]]) == "";
    }
  }

  /** The only white space left is single blanks between other characters. */
  predicate Squeezed(s: string) {
    && (forall i :: 0 <= i < |s| && IsSpace(s[i]) ==> s[i] == ' ' && 0 < i < |s| - 1 && !IsSpace(s[i + 1]))
  }

  predicate SingleBlanks(s: string) {
    forall i :: 0 <= i < |s| && IsSpace(s[i]) ==> s[i] == ' ' && (i + 1 < |s| ==> !IsSpace(s[i + 1]))
  }

  lemma {:induction false} CollapseLeavesSingleBlanks(s: string)
    ensures SingleBlanks(Collapse(s)) && (Collapse(s) == "" <==> s == "")
    ensures s != "" ==> (IsSpace(Collapse(s)[0]) <==> IsSpace(s[0]))
    decreases |s|
  {
    if s != "" { CollapseLeavesSingleBlanks(s[1..]); }
  }

  lemma {:induction false} TrimStartKeepsBlanks(s: string)
    requires SingleBlanks(s)
    ensures SingleBlanks(TrimStart(s))
  {
    if s != "" && IsSpace(s[0]) {
      forall i | 0 <= i < |s[1..]| && IsSpace(s[1..][i]) ensures s[1..][i] == s[i + 1] { }
      TrimStartKeepsBlanks(s[1..]);
    }
  }

  /** Squeezing keeps every other character in order and leaves single blanks between them. */
  lemma SqueezeMeans(s: string)
    ensures Ink(Squeeze(s)) == Ink(s) && Squeezed(Squeeze(s))
  {
    CollapseKeepsInk(s);
    TrimStartKeepsInk(Collapse(s));
    TrimEndKeepsInk(TrimStart(Collapse(s)));
    CollapseLeavesSingleBlanks(s);
    TrimStartKeepsBlanks(Collapse(s));
    var t := TrimStart(Collapse(s));
    var r := TrimEnd(t);
    assert r <= t && (r != "" ==> t != "" && r[0] == t[0]);
    forall i | 0 <= i < |r| && IsSpace(r[i]) ensures r[i] == ' ' && 0 < i < |r| - 1 && !IsSpace(r[i + 1]) {
      assert r[i] == t[i];
    }
  }

  /** The pieces of these texts, each squeezed and cut at 1,200 characters, blank ones left out. */
  function Pieces(texts: seq<string>): seq<string> {
    if texts == [] then []
    else
      var last := Prefix(Squeeze(texts[|texts| - 1]), 1200);
      Pieces(texts[..|texts| - 1]) + if last == "" then [] else [last]
  }

  function Buffering(bucket: seq<string>, texts: seq<string>): seq<string> {
    if texts == [] then bucket else Buffered(Buffering(bucket, texts[..|texts| - 1]), texts[|texts| - 1])
  }

  /** After any number of fragments the newest eight are pending, in order. */
  lemma {:induction false} NewestArePending(texts: seq<string>)
    ensures var all, pending := Pieces(texts), Buffering([], texts);
            |pending| == Min(|all|, 8) && pending == all[|all| - |pending|..]
    decreases |texts|
  {
    if texts != [] {
      var front, last := texts[..|texts| - 1], texts[|texts| - 1];
      NewestArePending(front);
      var all, pending, piece := Pieces(front), Buffering([], front), Clean(last);
      if piece == "" {
        assert all + [] == all;
      } else {
        NewestAndOneMore(all, pending, piece);
      }
    }
  }

  lemma NewestAndOneMore(all: seq<string>, pending: seq<string>, piece: string)
    requires |pending| == Min(|all|, 8) && pending == all[|all| - |pending|..]
    ensures var more, kept := all + [piece], LastPending(pending + [piece]);
            |kept| == Min(|more|, 8) && kept == more[|more| - |kept|..]
  {
    var n := |all|;
    if n < 8 {
      assert pending == all;
    } else {
      assert (pending + [piece])[1..] == pending[1..] + [piece] && pending[1..] == all[n - 7..];
      assert (all + [piece])[n - 7..] == all[n - 7..] + [piece];
    }
  }

  /** Handing over empties the bucket into the first 4,000 characters of its pieces and the current text, by lines. */
  lemma HandoverMeans(bucket: seq<string>, current: Option<string>)
    ensures var own := if current.Some? && Squeeze(current.value) != "" then [Squeeze(current.value)] else [];
            var items := bucket + own;
            var (rest, text) := Consumed(bucket, current);
            if items == [] then rest == bucket && text.None?
            else
              && rest == [] && text.Some? && text.value <= Join(items, "\n")
              && |text.value| == Min(|Join(items, "\n")|, 4000)
  {
  }
}
