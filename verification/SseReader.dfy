// The streaming reply reader: server-sent events cut into arbitrary chunks, first envelope with the expected id.
module SseReader {
  import opened Common

  const MAX_BYTES := 4_000_000

  /** One read of the body: the text the decoder released and the bytes it consumed. */
  datatype Chunk = Chunk(text: string, bytes: nat)

  datatype Outcome = Found(body: string) | TooLarge | Invalid

  /** `Some(body)` when the event data parses and carries the expected id. */
  type Matcher = string -> Option<string>

  // ---------- Separators and splitting ----------

  function CrAt(t: string, i: nat): nat {
    if i < |t| && t[i] == '\r' then 1 else 0
  }

  /** Length of the line break at `i`, zero when there is none. */
  function BreakLen(t: string, i: nat): (n: nat)
    ensures n > 0 ==> i + n <= |t|
  {
    var j := i + CrAt(t, i);
    if j < |t| && t[j] == '\n' then j + 1 - i else 0
  }

  /** Length of the blank-line separator (two line breaks) at `i`, zero when there is none. */
  function SepLen(t: string, i: nat): (n: nat)
    ensures n > 0 ==> i + n <= |t|
  {
    var first := BreakLen(t, i);
    if first == 0 then 0
    else if BreakLen(t, i + first) == 0 then 0
    else first + BreakLen(t, i + first)
  }

  /** First separator at or after `i`; the length of the text when there is none. */
  function FindSep(t: string, i: nat): (r: nat)
    requires i <= |t|
    ensures i <= r <= |t|
    ensures r < |t| ==> SepLen(t, r) > 0
    ensures forall k :: i <= k < r ==> SepLen(t, k) == 0
    decreases |t| - i
  {
    if i == |t| || SepLen(t, i) > 0 then i else FindSep(t, i + 1)
  }

  /** Every event closed by a separator. */
  function Events(t: string): seq<string>
    decreases |t|
  {
    var i := FindSep(t, 0);
    if i == |t| then [] else [t[..i]] + Events(t[i + SepLen(t, i)..])
  }

  /** The unfinished tail after the last separator. */
  function Rest(t: string): string
    decreases |t|
  {
    var i := FindSep(t, 0);
    if i == |t| then t else Rest(t[i + SepLen(t, i)..])
  }

  /** All events of a finished body: the tail counts when it is not empty. */
  function AllEvents(t: string): seq<string> {
    Events(t) + if Rest(t) == "" then [] else [Rest(t)]
  }

  // ---------- Event data ----------

  function FindBreak(t: string, i: nat): (r: nat)
    requires i <= |t|
    ensures i <= r <= |t|
    ensures r < |t| ==> BreakLen(t, r) > 0
    ensures forall k :: i <= k < r ==> BreakLen(t, k) == 0
    decreases |t| - i
  {
    if i == |t| || BreakLen(t, i) > 0 then i else FindBreak(t, i + 1)
  }

  function Lines(t: string): seq<string>
    decreases |t|
  {
    var i := FindBreak(t, 0);
    if i == |t| then [t] else [t[..i]] + Lines(t[i + BreakLen(t, i)..])
  }

  const DATA := "data:"

  function DataLines(lines: seq<string>): seq<string> {
    if lines == [] then []
    else (if DATA <= lines[0] then [TrimStart(lines[0][5..])] else []) + DataLines(lines[1..])
  }

  function EventData(event: string): string {
    Join(DataLines(Lines(event)), "\n")
  }

  function FirstMatch(events: seq<string>, matcher: Matcher): Option<string> {
    if events == [] then None
    else if matcher(EventData(events[0])).Some? then matcher(EventData(events[0]))
    else FirstMatch(events[1..], matcher)
  }

  lemma {:induction false} FirstMatchAppend(a: seq<string>, b: seq<string>, matcher: Matcher)
    ensures FirstMatch(a + b, matcher)
            == if FirstMatch(a, matcher).Some? then FirstMatch(a, matcher) else FirstMatch(b, matcher)
  {
    if a == [] {
      assert a + b == b;
    } else {
      assert (a + b)[0] == a[0] && (a + b)[1..] == a[1..] + b;
      FirstMatchAppend(a[1..], b, matcher);
    }
  }

  // ---------- Splitting is online ----------

  lemma BreakKept(p: string, q: string, i: nat)
    ensures BreakLen(p, i) > 0 ==> BreakLen(p + q, i) == BreakLen(p, i)
    ensures BreakLen(p + q, i) > 0 && i + BreakLen(p + q, i) <= |p| ==> BreakLen(p, i) == BreakLen(p + q, i)
  {
  }

  lemma SepKept(p: string, q: string, i: nat)
    ensures SepLen(p, i) > 0 ==> SepLen(p + q, i) == SepLen(p, i)
    ensures SepLen(p + q, i) > 0 && i + SepLen(p + q, i) <= |p| ==> SepLen(p, i) == SepLen(p + q, i)
  {
    BreakKept(p, q, i);
    var f, g := BreakLen(p, i), BreakLen(p + q, i);
    BreakKept(p, q, i + f);
    BreakKept(p, q, i + g);
    if SepLen(p, i) > 0 {
      assert g == f && BreakLen(p, i + f) > 0;
      assert BreakLen(p + q, i + g) == BreakLen(p, i + f);
    }
  }

  /** A separator has only two newlines, so an earlier one cannot end after a later one does. */
  lemma SepsDoNotNest(t: string, j: nat, i: nat)
    requires j < i && SepLen(t, j) > 0 && SepLen(t, i) > 0
    ensures j + SepLen(t, j) <= i + SepLen(t, i)
  {
    var f := BreakLen(t, j);
    var g := BreakLen(t, i);
    assert t[i + g - 1] == '\n' && t[i + SepLen(t, i) - 1] == '\n';
    assert forall k :: j <= k < j + SepLen(t, j) - 1 && t[k] == '\n' ==> k == j + f - 1;
  }

  lemma FirstSepKept(p: string, q: string)
    requires FindSep(p, 0) < |p|
    ensures FindSep(p + q, 0) == FindSep(p, 0)
    ensures SepLen(p + q, FindSep(p, 0)) == SepLen(p, FindSep(p, 0))
  {
    var i := FindSep(p, 0);
    SepKept(p, q, i);
    var j := FindSep(p + q, 0);
    if j < i {
      SepKept(p, q, j);
      SepsDoNotNest(p + q, j, i);
    }
  }

  lemma SplitStep(t: string, i: nat, n: nat)
    requires i == FindSep(t, 0) < |t| && n == i + SepLen(t, i)
    ensures n <= |t| && Events(t) == [t[..i]] + Events(t[n..]) && Rest(t) == Rest(t[n..])
  {
  }

  /** Splitting what is pending together with the next chunk gives the events the whole text would. */
  lemma {:induction false} SplitIsOnline(p: string, q: string)
    ensures Events(p + q) == Events(p) + Events(Rest(p) + q)
    ensures Rest(p + q) == Rest(Rest(p) + q)
    decreases |p|
  {
    var i := FindSep(p, 0);
    if i < |p| {
      var n := i + SepLen(p, i);
      SplitStep(p, i, n);
      FirstEventKept(p, q, i, n);
      SplitIsOnline(p[n..], q);
      ConsAppend(p[..i], Events(p[n..]), Events(Rest(p[n..]) + q));
    } else {
      NoSplit(p);
      NothingBefore(Events(p + q));
    }
  }

  lemma FirstEventKept(p: string, q: string, i: nat, n: nat)
    requires i == FindSep(p, 0) < |p| && n == i + SepLen(p, i)
    ensures n <= |p| && Events(p + q) == [p[..i]] + Events(p[n..] + q) && Rest(p + q) == Rest(p[n..] + q)
  {
    FirstSepKept(p, q);
    SplitStep(p + q, i, n);
    assert (p + q)[n..] == p[n..] + q && (p + q)[..i] == p[..i];
  }

  lemma NothingBefore<T>(a: seq<T>)
    ensures [] + a == a
  {
  }

  lemma NoSplit(t: string)
    requires FindSep(t, 0) == |t|
    ensures Events(t) == [] && Rest(t) == t
  {
  }

  lemma ConsAppend<T>(x: T, a: seq<T>, b: seq<T>)
    ensures [x] + (a + b) == [x] + a + b
  {
  }

  // ---------- The reader ----------

  function Text(chunks: seq<Chunk>): string {
    if chunks == [] then "" else Text(chunks[..|chunks| - 1]) + chunks[|chunks| - 1].text
  }

  function Bytes(chunks: seq<Chunk>): nat {
    if chunks == [] then 0 else Bytes(chunks[..|chunks| - 1]) + chunks[|chunks| - 1].bytes
  }

  /** How many chunks are taken before the running size passes the cap. */
  function TakenWithinCap(chunks: seq<Chunk>): (n: nat)
    ensures n <= |chunks|
    ensures Bytes(chunks[..n]) <= MAX_BYTES
    ensures n < |chunks| ==> Bytes(chunks[..n + 1]) > MAX_BYTES
  {
    if Bytes(chunks) <= MAX_BYTES then assert chunks[..|chunks|] == chunks; |chunks|
    else
      var front := chunks[..|chunks| - 1];
      var n := TakenWithinCap(front);
      assert chunks[..n] == front[..n];
      assert n < |front| ==> chunks[..n + 1] == front[..n + 1];
      assert n == |front| ==> chunks[..n + 1] == chunks;
      n
  }

  function Answer(hit: Option<string>, otherwise: Outcome): Outcome {
    if hit.Some? then Found(hit.value) else otherwise
  }

  /**
   * What a reader that waited for the whole body would answer: split the text once and take the first
   * matching event. Only a body over the cap is cut, at the read that passes it.
   */
  function WholeBodyOutcome(chunks: seq<Chunk>, flush: string, matcher: Matcher): Outcome {
    if Bytes(chunks) <= MAX_BYTES then
      Answer(FirstMatch(AllEvents(Text(chunks) + flush), matcher), Invalid)
    else
      Answer(FirstMatch(Events(Text(chunks[..TakenWithinCap(chunks)])), matcher), TooLarge)
  }

  lemma {:induction false} BytesGrow(chunks: seq<Chunk>, m: nat)
    requires m <= |chunks|
    ensures Bytes(chunks[..m]) <= Bytes(chunks)
  {
    if m < |chunks| {
      BytesGrow(chunks[..|chunks| - 1], m);
      assert chunks[..|chunks| - 1][..m] == chunks[..m];
    } else {
      assert chunks[..m] == chunks;
    }
  }

  lemma PrefixBytes(chunks: seq<Chunk>, m: nat, n: nat)
    requires m <= n <= |chunks|
    ensures Bytes(chunks[..m]) <= Bytes(chunks[..n])
  {
    BytesGrow(chunks[..n], m);
    assert chunks[..n][..m] == chunks[..m];
  }

  lemma TakenIsUnique(chunks: seq<Chunk>, n: nat)
    requires n < |chunks| && Bytes(chunks[..n]) <= MAX_BYTES < Bytes(chunks[..n + 1])
    ensures TakenWithinCap(chunks) == n && Bytes(chunks) > MAX_BYTES
  {
    BytesGrow(chunks, n + 1);
    var m := TakenWithinCap(chunks);
    if m < n {
      PrefixBytes(chunks, m + 1, n);
    } else if n < m {
      PrefixBytes(chunks, n + 1, m);
    }
  }

  /** The events closed so far decide the outcome as soon as one of them matches. */
  lemma EarlyMatchStands(chunks: seq<Chunk>, flush: string, matcher: Matcher, n: nat)
    requires n <= |chunks| && Bytes(chunks[..n]) <= MAX_BYTES
    requires FirstMatch(Events(Text(chunks[..n])), matcher).Some?
    ensures WholeBodyOutcome(chunks, flush, matcher) == Found(FirstMatch(Events(Text(chunks[..n])), matcher).value)
  {
    var p := Text(chunks[..n]);
    if Bytes(chunks) <= MAX_BYTES {
      var more := PrefixText(chunks, n, |chunks|);
      EarlierEventsFirst(p, more + flush, matcher);
      ConcatAssociates(p, more, flush);
      assert chunks[..|chunks|] == chunks;
    } else {
      var cut := TakenWithinCap(chunks);
      CutIsLater(chunks, n);
      var more := PrefixText(chunks, n, cut);
      EarlierEventsFirst(p, more, matcher);
    }
  }

  lemma ConcatAssociates(p: string, more: string, flush: string)
    ensures p + more + flush == p + (more + flush)
  {
  }

  lemma CutIsLater(chunks: seq<Chunk>, n: nat)
    requires n <= |chunks| && Bytes(chunks[..n]) <= MAX_BYTES
    ensures n <= TakenWithinCap(chunks)
  {
    var cut := TakenWithinCap(chunks);
    if cut < n {
      PrefixBytes(chunks, cut + 1, n);
    }
  }

  lemma EarlierEventsFirst(p: string, q: string, matcher: Matcher)
    requires FirstMatch(Events(p), matcher).Some?
    ensures FirstMatch(Events(p + q), matcher) == FirstMatch(Events(p), matcher)
    ensures FirstMatch(AllEvents(p + q), matcher) == FirstMatch(Events(p), matcher)
  {
    SplitIsOnline(p, q);
    FirstMatchAppend(Events(p), Events(Rest(p) + q), matcher);
    FirstMatchAppend(Events(p + q), if Rest(p + q) == "" then [] else [Rest(p + q)], matcher);
  }

  lemma {:induction false} PrefixText(chunks: seq<Chunk>, n: nat, m: nat) returns (more: string)
    requires n <= m <= |chunks|
    ensures Text(chunks[..m]) == Text(chunks[..n]) + more
  {
    if n == m {
      more := "";
    } else {
      more := PrefixText(chunks, n, m - 1);
      assert chunks[..m][..m - 1] == chunks[..m - 1];
      more := more + chunks[m - 1].text;
    }
  }

  /** The loop: append the chunk, check the size, split, inspect the closed events, keep the tail. */
  method ReadRpcBody(chunks: seq<Chunk>, flush: string, matcher: Matcher) returns (outcome: Outcome)
    ensures outcome == WholeBodyOutcome(chunks, flush, matcher)
  {
    var pending, size := "", 0;
    for n := 0 to |chunks|
      invariant size == Bytes(chunks[..n]) <= MAX_BYTES
      invariant pending == Rest(Text(chunks[..n]))
      invariant FirstMatch(Events(Text(chunks[..n])), matcher) == None
    {
      var chunk := chunks[n];
      ghost var before := Text(chunks[..n]);
      assert chunks[..n + 1][..n] == chunks[..n];
      assert Text(chunks[..n + 1]) == before + chunk.text;
      SplitIsOnline(before, chunk.text);
      pending := pending + chunk.text;
      size := size + chunk.bytes;
      if size > MAX_BYTES {
        TakenIsUnique(chunks, n);
        return TooLarge;
      }
      var events := Events(pending);
      pending := Rest(pending);
      FirstMatchAppend(Events(before), events, matcher);
      var hit := InspectEvents(events, matcher);
      if hit.Some? {
        EarlyMatchStands(chunks, flush, matcher, n + 1);
        return Found(hit.value);
      }
    }
    assert chunks[..|chunks|] == chunks;
    outcome := ReadTail(Text(chunks), pending, flush, matcher);
  }

  /** The end of the stream: what the decoder still held, split once more, and the unfinished tail as an event. */
  method ReadTail(ghost before: string, held: string, flush: string, matcher: Matcher) returns (outcome: Outcome)
    requires held == Rest(before) && FirstMatch(Events(before), matcher) == None
    ensures outcome == Answer(FirstMatch(AllEvents(before + flush), matcher), Invalid)
  {
    SplitIsOnline(before, flush);
    var pending := held + flush;
    var events := Events(pending);
    pending := Rest(pending);
    if pending != "" { events := events + [pending]; }
    assert AllEvents(before + flush) == Events(before) + events;
    FirstMatchAppend(Events(before), events, matcher);
    var hit := InspectEvents(events, matcher);
    return if hit.Some? then Found(hit.value) else Invalid;
  }

  method InspectEvents(events: seq<string>, matcher: Matcher) returns (hit: Option<string>)
    ensures hit == FirstMatch(events, matcher)
  {
    for i := 0 to |events|
      invariant FirstMatch(events, matcher) == FirstMatch(events[i..], matcher)
    {
      var data := EventData(events[i]);
      if matcher(data).Some? { return matcher(data); }
      assert events[i..][1..] == events[i + 1..];
    }
    return None;
  }

  // ---------- Round trip with a sender ----------

  /** A frame as servers write it: some other field or comment line, then one line of JSON. */
  datatype Frame = Frame(other: string, json: string, crlf: bool) {
    predicate Valid() {
      && OneLine(other) && !(DATA <= other)
      && OneLine(json) && json != "" && !IsSpace(json[0])
    }

    function Eol(): string { if crlf then "\r\n" else "\n" }

    function Body(): string { other + Eol() + "data: " + json }
  }

  predicate OneLine(s: string) {
    forall i :: 0 <= i < |s| ==> s[i] != '\r' && s[i] != '\n'
  }

  function Encode(frames: seq<Frame>): string {
    if frames == [] then "" else frames[0].Body() + frames[0].Eol() + frames[0].Eol() + Encode(frames[1..])
  }

  function FirstFrame(frames: seq<Frame>, matcher: Matcher): Option<string> {
    if frames == [] then None
    else if matcher(frames[0].json).Some? then matcher(frames[0].json)
    else FirstFrame(frames[1..], matcher)
  }

  lemma FrameSplits(f: Frame, tail: string)
    requires f.Valid()
    ensures var t := f.Body() + f.Eol() + f.Eol() + tail;
            FindSep(t, 0) == |f.Body()| && |f.Body()| < |t| && SepLen(t, |f.Body()|) == 2 * |f.Eol()|
  {
    var t := f.Body() + f.Eol() + f.Eol() + tail;
    var n, e := |f.other|, |f.Eol()|;
    forall k | 0 <= k < |f.Body()| ensures SepLen(t, k) == 0 {
      if k == n {
        assert t[n + e] == 'd';
      } else if k == n + 1 && e == 2 {
        assert t[n + e] == 'd';
      } else if k < n {
        assert t[k] == f.other[k];
      } else if k >= n + e + 6 {
        assert t[k] == f.json[k - n - e - 6];
      } else {
        assert t[k] == "data: "[k - n - e];
      }
    }
    assert SepLen(t, |f.Body()|) == 2 * e;
  }

  lemma LinesOfLine(s: string)
    requires OneLine(s)
    ensures Lines(s) == [s]
  {
  }

  lemma TwoLines(a: string, e: string, b: string)
    requires OneLine(a) && OneLine(b) && (e == "\n" || e == "\r\n")
    ensures Lines(a + e + b) == [a, b]
  {
    var t := a + e + b;
    forall k | 0 <= k < |a| ensures BreakLen(t, k) == 0 {
      assert t[k] == a[k];
    }
    assert BreakLen(t, |a|) == |e|;
    assert FindBreak(t, 0) == |a|;
    assert t[..|a|] == a && t[|a| + |e|..] == b;
    LinesOfLine(b);
    assert Lines(t) == [a] + [b];
  }

  lemma DataLineOf(json: string)
    requires json != "" && !IsSpace(json[0])
    ensures DataLines(["data: " + json]) == [json]
  {
    var line := "data: " + json;
    assert line[..5] == DATA;
    assert line[5..] == " " + json && (" " + json)[1..] == json;
    assert TrimStart(" " + json) == TrimStart(json) == json;
    assert DataLines([line][1..]) == [];
  }

  lemma FrameData(f: Frame)
    requires f.Valid()
    ensures EventData(f.Body()) == f.json
  {
    var dataLine := "data: " + f.json;
    TwoLines(f.other, f.Eol(), dataLine);
    assert f.Body() == f.other + f.Eol() + dataLine;
    DataLineOf(f.json);
    assert [f.other, dataLine][1..] == [dataLine];
    assert DataLines([f.other, dataLine]) == [] + [f.json];
  }

  function Bodies(frames: seq<Frame>): seq<string> {
    if frames == [] then [] else [frames[0].Body()] + Bodies(frames[1..])
  }

  lemma FirstFrameSplits(f: Frame, tail: string)
    requires f.Valid()
    ensures var t := f.Body() + f.Eol() + f.Eol() + tail;
              Events(t) == [f.Body()] + Events(tail) && Rest(t) == Rest(tail)
  {
    var t := f.Body() + f.Eol() + f.Eol() + tail;
    var i := |f.Body()|;
    FrameSplits(f, tail);
    SplitStep(t, i, i + SepLen(t, i));
    assert t[..i] == f.Body() && t[i + 2 * |f.Eol()|..] == tail;
  }

  lemma {:induction false} EncodedEvents(frames: seq<Frame>)
    requires forall f :: f in frames ==> f.Valid()
    ensures Rest(Encode(frames)) == "" && Events(Encode(frames)) == Bodies(frames)
  {
    if frames != [] {
      assert frames[0] in frames;
      FirstFrameSplits(frames[0], Encode(frames[1..]));
      EncodedEvents(frames[1..]);
    }
  }

  lemma {:induction false} FirstMatchOfFrames(frames: seq<Frame>, matcher: Matcher)
    requires forall f :: f in frames ==> f.Valid()
    ensures FirstMatch(Bodies(frames), matcher) == FirstFrame(frames, matcher)
  {
    if frames != [] {
      assert frames[0] in frames;
      FrameData(frames[0]);
      FirstMatchOfFrames(frames[1..], matcher);
    }
  }

  /** Whatever frames a server sends and however the network cuts them, the reader finds the first answer. */
  lemma SentFramesAreRead(frames: seq<Frame>, chunks: seq<Chunk>, flush: string, matcher: Matcher)
    requires forall f :: f in frames ==> f.Valid()
    requires Text(chunks) + flush == Encode(frames) && Bytes(chunks) <= 4_000_000
    ensures WholeBodyOutcome(chunks, flush, matcher)
         == Answer(FirstFrame(frames, matcher), Invalid)
  {
    EncodedEvents(frames);
    assert AllEvents(Encode(frames)) == Bodies(frames);
    FirstMatchOfFrames(frames, matcher);
  }

  // ---------- Bodies that are refused, and data in several lines ----------

  /** A body over four million bytes is refused, unless an event closed before the cap was passed already matched. */
  lemma OversizedIsRefusedIff(chunks: seq<Chunk>, flush: string, matcher: Matcher)
    requires Bytes(chunks) > 4_000_000
    ensures var kept := Text(chunks[..TakenWithinCap(chunks)]);
            WholeBodyOutcome(chunks, flush, matcher) == TooLarge <==> FirstMatch(Events(kept), matcher).None?
  {
  }

  /** A line of an event: data with white space before it, or another field or comment. */
  datatype Line = Data(space: string, text: string) | Field(text: string) {
    predicate Valid() {
      match this
      case Data(space, text) =>
        OneLine(space) && OneLine(text) && (forall c :: c in space ==> IsSpace(c)) && (text == "" || !IsSpace(text[0]))
      case Field(text) => OneLine(text) && !(DATA <= text)
    }

    function Written(): string {
      match this case Data(space, text) => "data:" + space + text case Field(text) => text
    }
  }

  function WrittenLines(lines: seq<Line>): seq<string> {
    if lines == [] then [] else [lines[0].Written()] + WrittenLines(lines[1..])
  }

  /** The data of the lines that carry some. */
  function DataOf(lines: seq<Line>): seq<string> {
    if lines == [] then [] else (if lines[0].Data? then [lines[0].text] else []) + DataOf(lines[1..])
  }

  lemma {:induction false} LinesOfJoin(lines: seq<string>, eol: string)
    requires lines != [] && (forall x :: x in lines ==> OneLine(x)) && (eol == "\n" || eol == "\r\n")
    ensures Lines(Join(lines, eol)) == lines
  {
    var first, rest := lines[0], lines[1..];
    assert first in lines && lines == [first] + rest;
    if rest == [] {
      LinesOfLine(first);
    } else {
      LinesOfJoin(rest, eol);
      JoinedBehind(first, rest, eol);
    }
  }

  lemma {:induction false} JoinedBehind(first: string, rest: seq<string>, eol: string)
    requires OneLine(first) && rest != [] && (eol == "\n" || eol == "\r\n")
    ensures Lines(Join([first] + rest, eol)) == [first] + Lines(Join(rest, eol))
  {
    assert ([first] + rest)[1..] == rest;
    LineAndMore(first, eol, Join(rest, eol));
  }

  lemma {:induction false} LineAndMore(a: string, e: string, rest: string)
    requires OneLine(a) && (e == "\n" || e == "\r\n")
    ensures Lines(a + e + rest) == [a] + Lines(rest)
  {
    var t := a + e + rest;
    forall k | 0 <= k < |a| ensures BreakLen(t, k) == 0 {
      assert t[k] == a[k];
    }
    assert BreakLen(t, |a|) == |e|;
    assert FindBreak(t, 0) == |a|;
    assert t[..|a|] == a && t[|a| + |e|..] == rest;
  }

  lemma {:induction false} SpaceIsTrimmed(space: string, text: string)
    requires (forall c :: c in space ==> IsSpace(c)) && (text == "" || !IsSpace(text[0]))
    ensures TrimStart(space + text) == text
  {
    if space == "" {
      assert space + text == text;
    } else {
      assert space[0] in space && (space + text)[1..] == space[1..] + text;
      SpaceIsTrimmed(space[1..], text);
    }
  }

  lemma {:induction false} DataIsPicked(lines: seq<Line>)
    requires forall l :: l in lines ==> l.Valid()
    ensures DataLines(WrittenLines(lines)) == DataOf(lines)
    ensures forall x :: x in WrittenLines(lines) ==> OneLine(x)
  {
    if lines != [] {
      var l := lines[0];
      assert l in lines;
      DataIsPicked(lines[1..]);
      if l.Data? {
        assert l.Written()[..5] == DATA && l.Written()[5..] == l.space + l.text;
        SpaceIsTrimmed(l.space, l.text);
      }
      assert WrittenLines(lines)[1..] == WrittenLines(lines[1..]);
    }
  }

  /** The data of an event are its data lines without the white space before them, joined by line feeds. */
  lemma EventDataIsJoined(lines: seq<Line>, crlf: bool)
    requires lines != [] && forall l :: l in lines ==> l.Valid()
    ensures EventData(Join(WrittenLines(lines), if crlf then "\r\n" else "\n")) == Join(DataOf(lines), "\n")
  {
    DataIsPicked(lines);
    LinesOfJoin(WrittenLines(lines), if crlf then "\r\n" else "\n");
  }
}
