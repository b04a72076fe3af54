// Finding JSON objects and arrays embedded in prose: the balanced-bracket scanner of the MCP payload reader.
module JsonScanner {
  import opened Common

  const MAX_TEXT_LENGTH := 2_000_000

  predicate Opens(c: char) { c == '{' || c == '[' }

  predicate Closes(c: char) { c == '}' || c == ']' }

  function OpenerOf(c: char): char { if c == '}' then '{' else '[' }

  /** How the bracket opened before position `i` ends. */
  datatype End = Balanced(at: nat) | Mismatched(at: nat) | Unfinished

  function Close(t: string, i: nat, quoted: bool, escaped: bool, stack: seq<char>): (r: End)
    requires i <= |t| && |stack| > 0
    ensures !r.Unfinished? ==> i <= r.at < |t| && Closes(t[r.at])
    decreases |t| - i
  {
    if i == |t| then Unfinished
    else if quoted then
      if escaped then Close(t, i + 1, true, false, stack)
      else Close(t, i + 1, t[i] != '"', t[i] == '\\', stack)
    else if t[i] == '"' then Close(t, i + 1, true, escaped, stack)
    else if Opens(t[i]) then Close(t, i + 1, false, escaped, stack + [t[i]])
    else if Closes(t[i]) then
      if stack[|stack| - 1] != OpenerOf(t[i]) then Mismatched(i)
      else if |stack| == 1 then Balanced(i)
      else Close(t, i + 1, false, escaped, stack[..|stack| - 1])
    else Close(t, i + 1, false, escaped, stack)
  }

  /** The balanced slices of `t` from `i` on, left to right; a broken bracket is skipped together with its text. */
  function Slices(t: string, i: nat): seq<string>
    requires i <= |t|
    decreases |t| - i
  {
    if i == |t| then []
    else if !Opens(t[i]) then Slices(t, i + 1)
    else Continue(t, i, Close(t, i + 1, false, false, [t[i]]))
  }

  function Continue(t: string, start: nat, end: End): seq<string>
    requires start < |t|
    requires !end.Unfinished? ==> start < end.at < |t|
    decreases |t| - start, 0
  {
    match end
    case Unfinished => []
    case Mismatched(e) => Slices(t, e + 1)
    case Balanced(e) => [t[start..e + 1]] + Slices(t, e + 1)
  }

  function Parsed<T>(slices: seq<string>, parse: string -> Option<T>): seq<T> {
    if slices == [] then [] else OneParsed(slices[0], parse) + Parsed(slices[1..], parse)
  }

  function OneParsed<T>(slice: string, parse: string -> Option<T>): seq<T> {
    match parse(slice) case Some(value) => [value] case None => []
  }

  lemma Associates<T>(a: seq<T>, b: seq<T>, c: seq<T>)
    ensures a + b + c == a + (b + c)
  {
  }

  /** The documents in a text, `parse` standing for the JSON parser. */
  function Documents<T>(text: string, parse: string -> Option<T>): seq<T> {
    if |text| > MAX_TEXT_LENGTH then [] else Parsed(Slices(text, 0), parse)
  }

  /** The loop's variables: where the open document starts (-1 when idle), the string state, the bracket stack. */
  datatype Scanner = Scanner(start: int, quoted: bool, escaped: bool, stack: seq<char>) {
    predicate At(i: nat) {
      && -1 <= start < i + 1 && (start >= 0 ==> start < i && |stack| > 0)
      && (start < 0 ==> !quoted) && (!quoted ==> !escaped)
    }
  }

  /** What is still to be returned when the scanner stands at `i`. */
  ghost function Pending(t: string, i: nat, sc: Scanner): seq<string>
    requires i <= |t| && sc.At(i)
  {
    if sc.start < 0 then Slices(t, i) else Continue(t, sc.start, Close(t, i, sc.quoted, sc.escaped, sc.stack))
  }

  function OneOf(slice: Option<string>): seq<string> {
    match slice case Some(s) => [s] case None => []
  }

  /** One pass over the characters with an explicit bracket stack. */
  method JsonDocuments<T>(text: string, parse: string -> Option<T>) returns (documents: seq<T>)
    ensures documents == Documents(text, parse)
  {
    if |text| > MAX_TEXT_LENGTH { return []; }
    documents := ScanText(text, parse);
  }

  method ScanText<T>(text: string, parse: string -> Option<T>) returns (documents: seq<T>)
    ensures documents == Parsed(Slices(text, 0), parse)
  {
    documents := [];
    var sc := Scanner(-1, false, false, []);
    ghost var rest := Slices(text, 0);
    NothingFirst(Parsed(rest, parse));
    for i := 0 to |text|
      invariant sc.At(i) && rest == Pending(text, i, sc)
      invariant Parsed(Slices(text, 0), parse) == documents + Parsed(rest, parse)
    {
      var slice;
      sc, slice := Advance(text, i, sc);
      documents := AddDocument(documents, slice, parse, rest, Pending(text, i + 1, sc));
      rest := Pending(text, i + 1, sc);
    }
    NothingPending(text, sc, documents, parse);
  }

  lemma NothingFirst<T>(s: seq<T>)
    ensures [] + s == s
  {
  }

  lemma NothingPending<T>(text: string, sc: Scanner, documents: seq<T>, parse: string -> Option<T>)
    requires sc.At(|text|)
    ensures documents + Parsed(Pending(text, |text|, sc), parse) == documents
  {
    assert Pending(text, |text|, sc) == [];
  }

  /** A slice that does not parse is skipped. */
  method AddDocument<T>(documents: seq<T>, slice: Option<string>, parse: string -> Option<T>, ghost before: seq<string>,
      ghost after: seq<string>)
    returns (r: seq<T>)
    requires before == OneOf(slice) + after
    ensures documents + Parsed(before, parse) == r + Parsed(after, parse)
  {
    r := documents;
    if slice.Some? {
      assert before[0] == slice.value && before[1..] == after;
      Associates(documents, OneParsed(slice.value, parse), Parsed(after, parse));
      var value := parse(slice.value);
      if value.Some? { r := r + [value.value]; } else { assert documents + [] == documents; }
    } else {
      assert before == after;
    }
  }

  /** The loop body: one character; a slice comes out when it closes the outermost bracket. */
  method Advance(text: string, i: nat, before: Scanner) returns (sc: Scanner, slice: Option<string>)
    requires i < |text| && before.At(i)
    ensures sc.At(i + 1) && Pending(text, i, before) == OneOf(slice) + Pending(text, i + 1, sc)
  {
    var c := text[i];
    sc, slice := before, None;
    if sc.start < 0 {
      if Opens(c) { sc := sc.(start := i, stack := [c]); }
    } else if sc.quoted {
      if sc.escaped { sc := sc.(escaped := false); }
      else if c == '\\' { sc := sc.(escaped := true); }
      else if c == '"' { sc := sc.(quoted := false); }
    } else if c == '"' {
      sc := sc.(quoted := true);
    } else if Opens(c) {
      sc := sc.(stack := sc.stack + [c]);
    } else if Closes(c) {
      var top := sc.stack[|sc.stack| - 1];
      sc := sc.(stack := sc.stack[..|sc.stack| - 1]);
      if top != OpenerOf(c) {
        sc := sc.(start := -1, stack := []);
      } else if sc.stack == [] {
        slice := Some(text[sc.start..i + 1]);
        sc := sc.(start := -1);
      }
    }
    assert slice.None? ==> Pending(text, i, before) == Pending(text, i + 1, sc);
  }

  // ---------- Bracketed text as a tree ----------

  datatype StrChar = Plain(c: char) | Escaped(c: char)

  /** A character outside strings and brackets, a string literal, or a bracketed group. */
  datatype Piece = Other(c: char) | Quoted(body: seq<StrChar>) | Group(curly: bool, inside: seq<Piece>)

  predicate ValidBody(body: seq<StrChar>) {
    forall s :: s in body && s.Plain? ==> s.c != '"' && s.c != '\\'
  }

  predicate ValidPiece(p: Piece)
    decreases p, 0
  {
    match p
    case Other(c) => c != '"' && !Opens(c) && !Closes(c)
    case Quoted(body) => ValidBody(body)
    case Group(_, inside) => Valid(inside)
  }

  predicate Valid(ps: seq<Piece>)
    decreases ps, 0
  {
    forall p :: p in ps ==> ValidPiece(p)
  }

  function BodyText(body: seq<StrChar>): string {
    if body == [] then "" else CharText(body[0]) + BodyText(body[1..])
  }

  function CharText(s: StrChar): string {
    match s case Plain(c) => [c] case Escaped(c) => ['\\', c]
  }

  function Opener(curly: bool): char { if curly then '{' else '[' }

  function Closer(curly: bool): char { if curly then '}' else ']' }

  function PieceText(p: Piece): string
    decreases p, 0
  {
    match p
    case Other(c) => [c]
    case Quoted(body) => ['"'] + (BodyText(body) + ['"'])
    case Group(curly, inside) => [Opener(curly)] + (Flat(inside) + [Closer(curly)])
  }

  function Flat(ps: seq<Piece>): string
    decreases ps, 0
  {
    if ps == [] then "" else PieceText(ps[0]) + Flat(ps[1..])
  }

  /** `x` stands in `t` at position `i`. */
  predicate At(t: string, i: nat, x: string) {
    i + |x| <= |t| && forall k :: 0 <= k < |x| ==> t[i + k] == x[k]
  }

  lemma AtSplit(t: string, i: nat, x: string, y: string)
    requires At(t, i, x + y)
    ensures At(t, i, x) && At(t, i + |x|, y)
  {
    assert forall k :: 0 <= k < |x| ==> (x + y)[k] == x[k];
    assert forall k :: 0 <= k < |y| ==> (x + y)[|x| + k] == y[k];
  }

  lemma AtJoin(t: string, i: nat, x: string, y: string)
    requires At(t, i, x) && At(t, i + |x|, y)
    ensures At(t, i, x + y)
  {
    forall k | 0 <= k < |x| + |y| ensures t[i + k] == (x + y)[k] {
      if k >= |x| { assert t[i + |x| + (k - |x|)] == y[k - |x|]; }
    }
  }

  lemma AtIsSlice(t: string, i: nat, x: string)
    requires At(t, i, x)
    ensures t[i..i + |x|] == x
  {
  }

  lemma AtOne(t: string, i: nat, c: char)
    ensures At(t, i, [c]) <==> i < |t| && t[i] == c
  {
    if At(t, i, [c]) { assert t[i + 0] == [c][0]; }
  }

  // ---------- Trees are scanned whole ----------

  lemma {:induction false} BodyIsSkipped(t: string, i: nat, body: seq<StrChar>, stack: seq<char>)
    requires ValidBody(body) && At(t, i, BodyText(body)) && At(t, i + |BodyText(body)|, ['"']) && |stack| > 0
    ensures Close(t, i, true, false, stack) == Close(t, i + |BodyText(body)| + 1, false, false, stack)
    decreases |body|
  {
    if body == [] {
      AtOne(t, i, '"');
    } else {
      var head, rest := CharText(body[0]), BodyText(body[1..]);
      AtSplit(t, i, head, rest);
      assert t[i + 0] == head[0] && (|head| == 2 ==> t[i + 1] == head[1]);
      BodyIsSkipped(t, i + |head|, body[1..], stack);
    }
  }

  lemma {:induction false} PiecesAreSkipped(t: string, i: nat, ps: seq<Piece>, stack: seq<char>)
    requires Valid(ps) && At(t, i, Flat(ps)) && |stack| > 0
    ensures Close(t, i, false, false, stack) == Close(t, i + |Flat(ps)|, false, false, stack)
    decreases ps, 0
  {
    if ps != [] {
      var text, rest := PieceText(ps[0]), Flat(ps[1..]);
      AtSplit(t, i, text, rest);
      assert ps[0] in ps;
      PieceIsSkipped(t, i, ps[0], stack);
      PiecesAreSkipped(t, i + |text|, ps[1..], stack);
    }
  }

  lemma {:induction false} PieceIsSkipped(t: string, i: nat, p: Piece, stack: seq<char>)
    requires ValidPiece(p) && At(t, i, PieceText(p)) && |stack| > 0
    ensures Close(t, i, false, false, stack) == Close(t, i + |PieceText(p)|, false, false, stack)
    decreases p, 0
  {
    match p
    case Other(c) => AtOne(t, i, c);
    case Quoted(body) => QuotedIsSkipped(t, i, body, stack);
    case Group(curly, inside) =>
      GroupParts(t, i, curly, inside);
      PiecesAreSkipped(t, i + 1, inside, stack + [t[i]]);
      PopAfterPush(t, i, i + 1 + |Flat(inside)|, stack);
  }

  lemma QuotedIsSkipped(t: string, i: nat, body: seq<StrChar>, stack: seq<char>)
    requires ValidBody(body) && At(t, i, PieceText(Quoted(body))) && |stack| > 0
    ensures Close(t, i, false, false, stack) == Close(t, i + |PieceText(Quoted(body))|, false, false, stack)
  {
    AtSplit(t, i, ['"'], BodyText(body) + ['"']);
    AtSplit(t, i + 1, BodyText(body), ['"']);
    AtOne(t, i, '"');
    BodyIsSkipped(t, i + 1, body, stack);
  }

  lemma PopAfterPush(t: string, i: nat, e: nat, stack: seq<char>)
    requires i < e < |t| && |stack| > 0 && Opens(t[i]) && Closes(t[e]) && OpenerOf(t[e]) == t[i]
    requires Close(t, i + 1, false, false, stack + [t[i]]) == Close(t, e, false, false, stack + [t[i]])
    ensures Close(t, i, false, false, stack) == Close(t, e + 1, false, false, stack)
  {
    assert (stack + [t[i]])[..|stack|] == stack;
  }

  lemma GroupParts(t: string, i: nat, curly: bool, inside: seq<Piece>)
    requires At(t, i, PieceText(Group(curly, inside)))
    ensures i + 1 + |Flat(inside)| < |t| && t[i] == Opener(curly) && t[i + 1 + |Flat(inside)|] == Closer(curly)
    ensures At(t, i + 1, Flat(inside)) && |PieceText(Group(curly, inside))| == |Flat(inside)| + 2
  {
    AtSplit(t, i, [Opener(curly)], Flat(inside) + [Closer(curly)]);
    AtSplit(t, i + 1, Flat(inside), [Closer(curly)]);
    AtOne(t, i, Opener(curly));
    AtOne(t, i + 1 + |Flat(inside)|, Closer(curly));
  }

  lemma GroupCloses(t: string, i: nat, curly: bool, inside: seq<Piece>)
    requires Valid(inside) && At(t, i, PieceText(Group(curly, inside)))
    ensures i < |t| && Opens(t[i])
    ensures Close(t, i + 1, false, false, [t[i]]) == Balanced(i + 1 + |Flat(inside)|)
  {
    GroupParts(t, i, curly, inside);
    PiecesAreSkipped(t, i + 1, inside, [t[i]]);
  }

  // ---------- And only trees are returned ----------

  lemma StringCharFound(t: string, i: nat, stack: seq<char>) returns (head: StrChar)
    requires i < |t| && |stack| > 0 && Close(t, i, true, false, stack).Balanced? && t[i] != '"'
    ensures ValidBody([head]) && At(t, i, CharText(head))
    ensures Close(t, i, true, false, stack) == Close(t, i + |CharText(head)|, true, false, stack)
  {
    if t[i] == '\\' {
      assert Close(t, i, true, false, stack) == Close(t, i + 1, true, true, stack);
      head := Escaped(t[i + 1]);
    } else {
      head := Plain(t[i]);
      AtOne(t, i, t[i]);
    }
  }

  lemma BodyCons(head: StrChar, rest: seq<StrChar>)
    ensures BodyText([head] + rest) == CharText(head) + BodyText(rest)
    ensures ValidBody([head]) && ValidBody(rest) ==> ValidBody([head] + rest)
  {
    assert head in [head];
  }

  lemma {:induction false} BodyFound(t: string, i: nat, stack: seq<char>) returns (body: seq<StrChar>)
    requires i <= |t| && |stack| > 0 && Close(t, i, true, false, stack).Balanced?
    ensures ValidBody(body) && At(t, i, BodyText(body)) && At(t, i + |BodyText(body)|, ['"'])
    ensures Close(t, i, true, false, stack) == Close(t, i + |BodyText(body)| + 1, false, false, stack)
    decreases |t| - i
  {
    if t[i] == '"' {
      body := [];
      AtOne(t, i, '"');
    } else {
      var head := StringCharFound(t, i, stack);
      var n := i + |CharText(head)|;
      var rest := BodyFound(t, n, stack);
      AtJoin(t, i, CharText(head), BodyText(rest));
      BodyCons(head, rest);
      body := [head] + rest;
    }
  }

  /** What the scanner passes before the innermost open bracket closes is a list of pieces. */
  lemma {:induction false} PiecesFound(t: string, i: nat, stack: seq<char>) returns (ps: seq<Piece>)
    requires i <= |t| && |stack| > 0 && Close(t, i, false, false, stack).Balanced?
    ensures Valid(ps) && At(t, i, Flat(ps)) && i + |Flat(ps)| < |t|
    ensures Closes(t[i + |Flat(ps)|]) && OpenerOf(t[i + |Flat(ps)|]) == stack[|stack| - 1]
    ensures Close(t, i, false, false, stack) == Close(t, i + |Flat(ps)|, false, false, stack)
    decreases |t| - i, 1
  {
    if Closes(t[i]) {
      ps := [];
    } else {
      var head := PieceFound(t, i, stack);
      var rest := PiecesFound(t, i + |PieceText(head)|, stack);
      AtJoin(t, i, PieceText(head), Flat(rest));
      ps := [head] + rest;
    }
  }

  lemma {:induction false} PieceFound(t: string, i: nat, stack: seq<char>) returns (p: Piece)
    requires i < |t| && |stack| > 0 && Close(t, i, false, false, stack).Balanced? && !Closes(t[i])
    ensures ValidPiece(p) && At(t, i, PieceText(p)) && |PieceText(p)| > 0
    ensures Close(t, i, false, false, stack) == Close(t, i + |PieceText(p)|, false, false, stack)
    decreases |t| - i, 0
  {
    if t[i] == '"' {
      p := QuotedFound(t, i, stack);
    } else if Opens(t[i]) {
      var inside := PiecesFound(t, i + 1, stack + [t[i]]);
      assert (stack + [t[i]])[|stack|] == t[i];
      p := GroupJoin(t, i, inside);
      PopAfterPush(t, i, i + 1 + |Flat(inside)|, stack);
    } else {
      p := Other(t[i]);
      AtOne(t, i, t[i]);
    }
  }

  lemma QuotedFound(t: string, i: nat, stack: seq<char>) returns (p: Piece)
    requires i < |t| && |stack| > 0 && Close(t, i, false, false, stack).Balanced? && t[i] == '"'
    ensures ValidPiece(p) && At(t, i, PieceText(p)) && |PieceText(p)| > 0
    ensures Close(t, i, false, false, stack) == Close(t, i + |PieceText(p)|, false, false, stack)
  {
    AtOne(t, i, '"');
    var body := BodyFound(t, i + 1, stack);
    AtJoin(t, i + 1, BodyText(body), ['"']);
    AtJoin(t, i, ['"'], BodyText(body) + ['"']);
    p := Quoted(body);
  }

  lemma GroupJoin(t: string, i: nat, inside: seq<Piece>) returns (p: Piece)
    requires i < |t| && Opens(t[i]) && At(t, i + 1, Flat(inside)) && i + 1 + |Flat(inside)| < |t| && Valid(inside)
    requires Closes(t[i + 1 + |Flat(inside)|]) && OpenerOf(t[i + 1 + |Flat(inside)|]) == t[i]
    ensures p == Group(t[i] == '{', inside) && ValidPiece(p) && At(t, i, PieceText(p))
    ensures |PieceText(p)| == |Flat(inside)| + 2
  {
    p := Group(t[i] == '{', inside);
    var c := t[i + 1 + |Flat(inside)|];
    AtOne(t, i, t[i]);
    AtOne(t, i + 1 + |Flat(inside)|, c);
    AtJoin(t, i + 1, Flat(inside), [c]);
    AtJoin(t, i, [t[i]], Flat(inside) + [c]);
  }

  ghost predicate IsGroupText(s: string) {
    exists g: Piece :: g.Group? && ValidPiece(g) && PieceText(g) == s
  }

  lemma BalancedSliceIsGroup(t: string, i: nat)
    requires i < |t| && Opens(t[i]) && Close(t, i + 1, false, false, [t[i]]).Balanced?
    ensures IsGroupText(t[i..Close(t, i + 1, false, false, [t[i]]).at + 1])
  {
    var inside := PiecesFound(t, i + 1, [t[i]]);
    var p := GroupJoin(t, i, inside);
    AtIsSlice(t, i, PieceText(p));
  }

  /** Sound on every text: each returned slice is one well-nested object or array. */
  lemma {:induction false} SlicesAreGroups(t: string, i: nat)
    requires i <= |t|
    ensures forall s :: s in Slices(t, i) ==> IsGroupText(s)
    decreases |t| - i
  {
    if i < |t| {
      if !Opens(t[i]) {
        SlicesAreGroups(t, i + 1);
      } else {
        var end := Close(t, i + 1, false, false, [t[i]]);
        if !end.Unfinished? { SlicesAreGroups(t, end.at + 1); }
        if end.Balanced? { BalancedSliceIsGroup(t, i); }
      }
    }
  }

  // ---------- Round trip ----------

  predicate Gap(s: string) {
    forall c :: c in s ==> !Opens(c)
  }

  /** Documents separated by text free of opening brackets. */
  function Interleave(gaps: seq<string>, docs: seq<Piece>): string
    requires |gaps| == |docs| + 1
  {
    if docs == [] then gaps[0] else gaps[0] + (PieceText(docs[0]) + Interleave(gaps[1..], docs[1..]))
  }

  function Texts(docs: seq<Piece>): seq<string> {
    if docs == [] then [] else [PieceText(docs[0])] + Texts(docs[1..])
  }

  lemma {:induction false} GapIsSkipped(t: string, i: nat, gap: string)
    requires Gap(gap) && At(t, i, gap)
    ensures Slices(t, i) == Slices(t, i + |gap|)
    decreases |gap|
  {
    if gap != "" {
      assert gap == [gap[0]] + gap[1..];
      AtSplit(t, i, [gap[0]], gap[1..]);
      AtOne(t, i, gap[0]);
      assert gap[0] in gap;
      GapIsSkipped(t, i + 1, gap[1..]);
    }
  }

  predicate Groupings(docs: seq<Piece>) {
    forall d :: d in docs ==> d.Group? && ValidPiece(d)
  }

  lemma {:induction false} InterleavedSlices(t: string, i: nat, gaps: seq<string>, docs: seq<Piece>)
    requires |gaps| == |docs| + 1 && (forall g :: g in gaps ==> Gap(g)) && Groupings(docs)
    requires At(t, i, Interleave(gaps, docs)) && i + |Interleave(gaps, docs)| == |t|
    ensures Slices(t, i) == Texts(docs)
    decreases |docs|
  {
    var gap := gaps[0];
    assert gap in gaps;
    if docs == [] {
      GapIsSkipped(t, i, gap);
    } else {
      var d, rest := docs[0], Interleave(gaps[1..], docs[1..]);
      assert d in docs;
      AtSplit(t, i, gap, PieceText(d) + rest);
      GapIsSkipped(t, i, gap);
      AtSplit(t, i + |gap|, PieceText(d), rest);
      DocumentIsSliced(t, i + |gap|, d);
      InterleavedSlices(t, i + |gap| + |PieceText(d)|, gaps[1..], docs[1..]);
    }
  }

  lemma DocumentIsSliced(t: string, i: nat, d: Piece)
    requires d.Group? && ValidPiece(d) && At(t, i, PieceText(d))
    ensures Slices(t, i) == [PieceText(d)] + Slices(t, i + |PieceText(d)|)
  {
    GroupCloses(t, i, d.curly, d.inside);
    GroupParts(t, i, d.curly, d.inside);
    AtIsSlice(t, i, PieceText(d));
  }

  /** Every embedded document is found, in order, and nothing else is. */
  lemma EmbeddedDocumentsAreFound<T>(gaps: seq<string>, docs: seq<Piece>, parse: string -> Option<T>)
    requires |gaps| == |docs| + 1 && (forall g :: g in gaps ==> Gap(g)) && Groupings(docs)
    requires |Interleave(gaps, docs)| <= 2_000_000
    ensures Documents(Interleave(gaps, docs), parse) == Parsed(Texts(docs), parse)
  {
    var t := Interleave(gaps, docs);
    assert t[0..|t|] == t;
    InterleavedSlices(t, 0, gaps, docs);
  }

  // ---------- What is given up ----------

  /** A group closed by the wrong bracket is skipped up to and including that bracket. */
  lemma BrokenGroupIsSkipped(t: string, i: nat, curly: bool, inside: seq<Piece>)
    requires Valid(inside) && At(t, i, [Opener(curly)] + (Flat(inside) + [Closer(!curly)]))
    ensures Slices(t, i) == Slices(t, i + 2 + |Flat(inside)|)
  {
    AtSplit(t, i, [Opener(curly)], Flat(inside) + [Closer(!curly)]);
    AtSplit(t, i + 1, Flat(inside), [Closer(!curly)]);
    AtOne(t, i, Opener(curly));
    AtOne(t, i + 1 + |Flat(inside)|, Closer(!curly));
    PiecesAreSkipped(t, i + 1, inside, [t[i]]);
  }

  /** After a bracket that is never closed nothing is found. */
  lemma UnclosedGroupHidesTheRest(t: string, i: nat, curly: bool, inside: seq<Piece>)
    requires Valid(inside) && At(t, i, [Opener(curly)] + Flat(inside)) && i + 1 + |Flat(inside)| == |t|
    ensures Slices(t, i) == []
  {
    AtSplit(t, i, [Opener(curly)], Flat(inside));
    AtOne(t, i, Opener(curly));
    PiecesAreSkipped(t, i + 1, inside, [t[i]]);
  }

  /** A text of more than two million characters is not looked at. */
  lemma OverlongTextHasNone<T>(text: string, parse: string -> Option<T>)
    requires |text| > 2_000_000
    ensures Documents(text, parse) == []
  {
  }

  /** A slice that the parser rejects is left out, the others keep their order. */
  lemma {:induction false} ParsedMeans<T>(slices: seq<string>, parse: string -> Option<T>)
    ensures forall v :: v in Parsed(slices, parse) <==> exists s :: s in slices && parse(s) == Some(v)
    ensures forall i :: 0 <= i <= |slices| ==>
              Parsed(slices, parse) == Parsed(slices[..i], parse) + Parsed(slices[i..], parse)
  {
    forall i | 0 <= i <= |slices|
      ensures Parsed(slices, parse) == Parsed(slices[..i], parse) + Parsed(slices[i..], parse)
    {
      ParsedInParts(slices, i, parse);
    }
    ParsedElements(slices, parse);
  }

  lemma {:induction false} ParsedInParts<T>(slices: seq<string>, i: nat, parse: string -> Option<T>)
    requires i <= |slices|
    ensures Parsed(slices, parse) == Parsed(slices[..i], parse) + Parsed(slices[i..], parse)
  {
    if i > 0 {
      ParsedInParts(slices[1..], i - 1, parse);
      assert slices[..i][1..] == slices[1..][..i - 1] && slices[1..][i - 1..] == slices[i..];
    }
  }

  lemma {:induction false} ParsedElements<T>(slices: seq<string>, parse: string -> Option<T>)
    ensures forall v :: v in Parsed(slices, parse) <==> exists s :: s in slices && parse(s) == Some(v)
  {
    if slices != [] {
      ParsedElements(slices[1..], parse);
      assert slices == [slices[0]] + slices[1..];
    }
  }

  // ---------- JSON values ----------

  datatype Json =
    | Literal(text: string)
    | Str(chars: seq<StrChar>)
    | Arr(items: seq<Json>)
    | Obj(members: seq<Member>)

  datatype Member = Member(key: seq<StrChar>, value: Json)

  /** RFC 8259, sections 3 and 7: literals and numbers carry no quote or bracket, strings escape `"` and `\`. */
  predicate Legal(j: Json)
    decreases j
  {
    match j
    case Literal(text) => forall c :: c in text ==> c != '"' && !Opens(c) && !Closes(c)
    case Str(chars) => ValidBody(chars)
    case Arr(items) => forall x :: x in items ==> Legal(x)
    case Obj(members) => forall m :: m in members ==> ValidBody(m.key) && Legal(m.value)
  }

  function Others(s: string): seq<Piece> {
    if s == "" then [] else [Other(s[0])] + Others(s[1..])
  }

  lemma {:induction false} OthersAreValid(s: string)
    requires forall c :: c in s ==> c != '"' && !Opens(c) && !Closes(c)
    ensures Valid(Others(s))
  {
    if s != "" {
      assert s[0] in s;
      OthersAreValid(s[1..]);
    }
  }

  /** A printer that puts the whitespace `ws` around every structural character. */
  function Print(j: Json, ws: string): seq<Piece>
    decreases j, 1
  {
    match j
    case Literal(text) => Others(text)
    case Str(chars) => [Quoted(chars)]
    case Arr(_) => [PrintGroup(j, ws)]
    case Obj(_) => [PrintGroup(j, ws)]
  }

  function PrintGroup(j: Json, ws: string): Piece
    requires j.Arr? || j.Obj?
    decreases j, 0
  {
    if j.Arr? then Group(false, Others(ws) + PrintItems(j.items, ws))
    else Group(true, Others(ws) + PrintMembers(j.members, ws))
  }

  function Separator(last: bool, ws: string): seq<Piece> {
    if last then Others(ws) else Others(ws) + [Other(',')] + Others(ws)
  }

  function PrintItems(items: seq<Json>, ws: string): seq<Piece>
    decreases items
  {
    if items == [] then []
    else Print(items[0], ws) + Separator(|items| == 1, ws) + PrintItems(items[1..], ws)
  }

  function PrintMembers(members: seq<Member>, ws: string): seq<Piece>
    decreases members
  {
    if members == [] then []
    else [Quoted(members[0].key)] + Others(ws) + [Other(':')] + Others(ws) + Print(members[0].value, ws)
         + Separator(|members| == 1, ws) + PrintMembers(members[1..], ws)
  }

  predicate White(ws: string) {
    forall c :: c in ws ==> c == ' ' || c == '\t' || c == '\r' || c == '\n'
  }

  lemma {:induction false} PrintIsValid(j: Json, ws: string)
    requires Legal(j) && White(ws)
    ensures Valid(Print(j, ws))
    decreases j, 0
  {
    OthersAreValid(ws);
    match j
    case Literal(text) => OthersAreValid(text);
    case Str(chars) =>
    case Arr(items) => PrintItemsValid(items, ws);
    case Obj(members) => PrintMembersValid(members, ws);
  }

  lemma {:induction false} PrintItemsValid(items: seq<Json>, ws: string)
    requires (forall x :: x in items ==> Legal(x)) && White(ws)
    ensures Valid(PrintItems(items, ws))
    decreases items
  {
    if items != [] {
      OthersAreValid(ws);
      PrintIsValid(items[0], ws);
      PrintItemsValid(items[1..], ws);
    }
  }

  lemma {:induction false} PrintMembersValid(members: seq<Member>, ws: string)
    requires (forall m :: m in members ==> ValidBody(m.key) && Legal(m.value)) && White(ws)
    ensures Valid(PrintMembers(members, ws))
    decreases members
  {
    if members != [] {
      OthersAreValid(ws);
      assert members[0] in members;
      PrintIsValid(members[0].value, ws);
      PrintMembersValid(members[1..], ws);
    }
  }

  function Groups(docs: seq<Json>, ws: string): (r: seq<Piece>)
    requires forall d :: d in docs ==> d.Arr? || d.Obj?
    ensures |r| == |docs|
    ensures forall i :: 0 <= i < |docs| ==> r[i] == PrintGroup(docs[i], ws)
  {
    seq(|docs|, i requires 0 <= i < |docs| => PrintGroup(docs[i], ws))
  }

  lemma {:induction false} ParsedPrints(docs: seq<Json>, ws: string, parse: string -> Option<Json>)
    requires forall d :: d in docs ==> d.Arr? || d.Obj?
    requires forall d :: d in docs ==> parse(PieceText(PrintGroup(d, ws))) == Some(d)
    ensures Parsed(Texts(Groups(docs, ws)), parse) == docs
  {
    if docs != [] {
      assert docs[0] in docs;
      ParsedPrints(docs[1..], ws, parse);
      assert Groups(docs, ws)[1..] == Groups(docs[1..], ws);
      assert docs == [docs[0]] + docs[1..];
    }
  }

  /** Printing a list of objects and arrays into prose and scanning the prose gives the list back. */
  lemma PrintedDocumentsRoundTrip(docs: seq<Json>, gaps: seq<string>, ws: string, parse: string -> Option<Json>)
    requires forall d :: d in docs ==> (d.Arr? || d.Obj?) && Legal(d)
    requires |gaps| == |docs| + 1 && (forall g :: g in gaps ==> Gap(g)) && White(ws)
    requires forall d :: d in docs ==> parse(PieceText(PrintGroup(d, ws))) == Some(d)
    requires |Interleave(gaps, Groups(docs, ws))| <= 2_000_000
    ensures Documents(Interleave(gaps, Groups(docs, ws)), parse) == docs
  {
    var groups := Groups(docs, ws);
    forall g | g in groups ensures g.Group? && ValidPiece(g) {
      var i :| 0 <= i < |groups| && groups[i] == g;
      PrintIsValid(docs[i], ws);
      assert g in Print(docs[i], ws);
    }
    EmbeddedDocumentsAreFound(gaps, groups, parse);
    ParsedPrints(docs, ws, parse);
  }
}
