// Edit distance of two tokens: the one-row loop shared by the catalogue matcher and the inventory bridge.
module EditDistance {
  import opened Common

  function Front(s: string): (r: string)
    requires s != ""
    ensures |r| == |s| - 1 && s == r + [s[|s| - 1]]
  {
    s[..|s| - 1]
  }

  function Mismatch(a: string, b: string): nat
    requires a != "" && b != ""
  {
    if a[|a| - 1] == b[|b| - 1] then 0 else 1
  }

  /** Textbook recurrence on the last characters; `DistanceIsMinimal` says what it means. */
  function Distance(a: string, b: string): nat
    decreases |a| + |b|
  {
    if a == "" then |b|
    else if b == "" then |a|
    else Min(Min(Distance(Front(a), b) + 1, Distance(a, Front(b)) + 1), Distance(Front(a), Front(b)) + Mismatch(a, b))
  }

  // ---------- What one edit is, and what a chain of edits is ----------

  predicate InsertedAt(a: string, b: string, i: nat, c: char) {
    i <= |a| && b == a[..i] + [c] + a[i..]
  }

  predicate ReplacedAt(a: string, b: string, i: nat, c: char) {
    i < |a| && b == a[i := c]
  }

  ghost predicate Inserts(a: string, b: string) {
    exists i: nat, c: char :: InsertedAt(a, b, i, c)
  }

  ghost predicate Replaces(a: string, b: string) {
    exists i: nat, c: char :: ReplacedAt(a, b, i, c)
  }

  /** One inserted, removed or replaced character. */
  ghost predicate OneEdit(a: string, b: string) {
    Inserts(a, b) || Inserts(b, a) || Replaces(a, b)
  }

  ghost predicate EditChain(path: seq<string>, a: string, b: string) {
    && |path| > 0 && path[0] == a && path[|path| - 1] == b
    && forall i :: 0 < i < |path| ==> OneEdit(path[i - 1], path[i])
  }

  // ---------- Metric laws ----------

  lemma {:induction false} Symmetric(a: string, b: string)
    ensures Distance(a, b) == Distance(b, a)
    decreases |a| + |b|
  {
    if a != "" && b != "" {
      Symmetric(Front(a), b);
      Symmetric(a, Front(b));
      Symmetric(Front(a), Front(b));
    }
  }

  lemma {:induction false} Bounds(a: string, b: string)
    ensures Max(|a|, |b|) - Min(|a|, |b|) <= Distance(a, b) <= Max(|a|, |b|)
    decreases |a| + |b|
  {
    if a != "" && b != "" {
      Bounds(Front(a), b);
      Bounds(a, Front(b));
      Bounds(Front(a), Front(b));
    }
  }

  lemma {:induction false} ZeroOnlyOnEqual(a: string, b: string)
    ensures Distance(a, b) == 0 <==> a == b
    decreases |a| + |b|
  {
    if a != "" && b != "" {
      ZeroOnlyOnEqual(Front(a), Front(b));
      Bounds(a, b);
      Bounds(Front(a), b);
      Bounds(a, Front(b));
    }
  }

  lemma {:induction false} Triangle(a: string, b: string, c: string)
    ensures Distance(a, c) <= Distance(a, b) + Distance(b, c)
    decreases |a| + |b| + |c|
  {
    if a == "" {
      Bounds(b, c);
    } else if c == "" {
      Bounds(a, b);
    } else if b == "" {
      Bounds(a, c);
    } else {
      Triangle(Front(a), b, c);
      Triangle(a, b, Front(c));
      Triangle(a, Front(b), c);
      Triangle(a, Front(b), Front(c));
      Triangle(Front(a), Front(b), c);
      Triangle(Front(a), Front(b), Front(c));
    }
  }

  // ---------- Lower bound: no chain of edits is shorter ----------

  lemma {:induction false} CommonSuffix(x: string, y: string, s: string)
    ensures Distance(x + s, y + s) <= Distance(x, y)
    decreases |s|
  {
    if s == "" {
      assert x + s == x && y + s == y;
    } else {
      CommonSuffix(x, y, Front(s));
      assert Front(x + s) == x + Front(s);
      assert Front(y + s) == y + Front(s);
    }
  }

  lemma InsertIsNear(a: string, b: string)
    requires Inserts(a, b)
    ensures Distance(a, b) <= 1
  {
    var i: nat, c: char :| InsertedAt(a, b, i, c);
    var p := a[..i];
    assert a == p + a[i..];
    ZeroOnlyOnEqual(p, p);
    assert Front(p + [c]) == p;
    assert Distance(p, p + [c]) <= 1;
    CommonSuffix(p, p + [c], a[i..]);
  }

  lemma ReplaceIsNear(a: string, b: string)
    requires Replaces(a, b)
    ensures Distance(a, b) <= 1
  {
    var i: nat, c: char :| ReplacedAt(a, b, i, c);
    var p, s := a[..i], a[i + 1..];
    assert a == p + [a[i]] + s;
    assert b == p + [c] + s;
    ZeroOnlyOnEqual(p, p);
    assert Front(p + [a[i]]) == p && Front(p + [c]) == p;
    CommonSuffix(p + [a[i]], p + [c], s);
  }

  lemma {:induction false} ChainIsNoShorter(path: seq<string>, a: string, b: string)
    requires EditChain(path, a, b)
    ensures Distance(a, b) <= |path| - 1
    decreases |path|
  {
    if |path| == 1 {
      ZeroOnlyOnEqual(a, b);
    } else {
      var n := |path| - 1;
      var m := path[n - 1];
      assert OneEdit(path[n - 1], path[n]);
      ChainIsNoShorter(path[..n], a, m);
      if Inserts(m, b) {
        InsertIsNear(m, b);
      } else if Inserts(b, m) {
        InsertIsNear(b, m);
        Symmetric(b, m);
      } else {
        ReplaceIsNear(m, b);
      }
      Triangle(a, m, b);
    }
  }

  // ---------- Upper bound: a chain of exactly that length exists ----------

  lemma AppendKeepsEdit(x: string, y: string, c: char)
    requires OneEdit(x, y)
    ensures OneEdit(x + [c], y + [c])
  {
    if Inserts(x, y) {
      AppendKeepsInsert(x, y, c);
    } else if Inserts(y, x) {
      AppendKeepsInsert(y, x, c);
    } else {
      var i: nat, d: char :| ReplacedAt(x, y, i, d);
      assert ReplacedAt(x + [c], y + [c], i, d);
    }
  }

  lemma AppendKeepsInsert(x: string, y: string, c: char)
    requires Inserts(x, y)
    ensures Inserts(x + [c], y + [c])
  {
    var i: nat, d: char :| InsertedAt(x, y, i, d);
    assert (x + [c])[..i] == x[..i] && (x + [c])[i..] == x[i..] + [c];
    assert InsertedAt(x + [c], y + [c], i, d);
  }

  lemma FrontIsOneEdit(a: string)
    requires a != ""
    ensures OneEdit(a, Front(a)) && OneEdit(Front(a), a)
  {
    var i, c := |a| - 1, a[|a| - 1];
    assert InsertedAt(Front(a), a, i, c);
  }

  lemma PrependEdit(a: string, m: string, b: string, rest: seq<string>)
    requires OneEdit(a, m) && EditChain(rest, m, b)
    ensures EditChain([a] + rest, a, b)
  {
  }

  lemma AppendEdit(a: string, m: string, b: string, rest: seq<string>)
    requires EditChain(rest, a, m) && OneEdit(m, b)
    ensures EditChain(rest + [b], a, b)
  {
  }

  lemma LiftChain(a: string, b: string, rest: seq<string>, c: char) returns (lifted: seq<string>)
    requires EditChain(rest, a, b)
    ensures EditChain(lifted, a + [c], b + [c]) && |lifted| == |rest|
  {
    lifted := seq(|rest|, i requires 0 <= i < |rest| => rest[i] + [c]);
    forall i | 0 < i < |lifted| ensures OneEdit(lifted[i - 1], lifted[i]) {
      assert OneEdit(rest[i - 1], rest[i]);
      AppendKeepsEdit(rest[i - 1], rest[i], c);
    }
  }

  lemma {:induction false} ShortestChain(a: string, b: string) returns (path: seq<string>)
    ensures EditChain(path, a, b) && |path| == Distance(a, b) + 1
    decreases |a| + |b|
  {
    if a == "" && b == "" {
      path := [a];
    } else if a == "" || (b != "" && Distance(a, b) == Distance(a, Front(b)) + 1) {
      var rest := ShortestChain(a, Front(b));
      FrontIsOneEdit(b);
      AppendEdit(a, Front(b), b, rest);
      path := rest + [b];
    } else if b == "" || Distance(a, b) == Distance(Front(a), b) + 1 {
      var rest := ShortestChain(Front(a), b);
      FrontIsOneEdit(a);
      PrependEdit(a, Front(a), b, rest);
      path := [a] + rest;
    } else {
      path := DiagonalChain(a, b);
    }
  }

  lemma {:induction false} DiagonalChain(a: string, b: string) returns (path: seq<string>)
    requires a != "" && b != ""
    ensures EditChain(path, a, b) && |path| == Distance(Front(a), Front(b)) + Mismatch(a, b) + 1
    decreases |a| + |b|, 0
  {
    var c := a[|a| - 1];
    var rest := ShortestChain(Front(a), Front(b));
    path := LiftChain(Front(a), Front(b), rest, c);
    if Mismatch(a, b) == 1 {
      var m := Front(b) + [c];
      assert ReplacedAt(m, b, |m| - 1, b[|b| - 1]);
      AppendEdit(a, m, b, path);
      path := path + [b];
    }
  }

  /** The recurrence is the least number of single-character edits leading from `a` to `b`. */
  lemma DistanceIsMinimal(a: string, b: string)
    ensures exists path :: EditChain(path, a, b) && |path| == Distance(a, b) + 1
    ensures forall path :: EditChain(path, a, b) ==> |path| >= Distance(a, b) + 1
  {
    var best := ShortestChain(a, b);
    forall path | EditChain(path, a, b) ensures |path| >= Distance(a, b) + 1 {
      ChainIsNoShorter(path, a, b);
    }
  }

  // ---------- The loop ----------

  /** The matrix entry for the first `i` characters of `a` and the first `j` of `b`. */
  ghost function Cell(a: string, b: string, i: nat, j: nat): nat
    requires i <= |a| && j <= |b|
  {
    Distance(a[..i], b[..j])
  }

  lemma CellStep(a: string, b: string, i: nat, j: nat)
    requires 0 < i <= |a| && 0 < j <= |b|
    ensures Cell(a, b, i, j) == Min(Min(Cell(a, b, i - 1, j) + 1, Cell(a, b, i, j - 1) + 1),
                                    Cell(a, b, i - 1, j - 1) + if a[i - 1] == b[j - 1] then 0 else 1)
  {
    assert Front(a[..i]) == a[..i - 1];
    assert Front(b[..j]) == b[..j - 1];
  }

  ghost predicate RowHolds(row: seq<nat>, a: string, b: string, i: nat, lo: nat, hi: nat)
    requires i <= |a| && hi <= |row| == |b| + 1
  {
    forall k :: lo <= k < hi ==> row[k] == Cell(a, b, i, k)
  }

  /** One row of the matrix, overwritten in place. */
  method Levenshtein(left: string, right: string) returns (d: nat)
    ensures d == Distance(left, right)
  {
    var prev := new nat[|right| + 1](index => index);
    for i := 1 to |left| + 1
      invariant RowHolds(prev[..], left, right, i - 1, 0, |right| + 1)
    {
      NextRow(left, right, prev, i);
    }
    assert left[..|left|] == left && right[..|right|] == right;
    d := prev[|right|];
  }

  /** The inner loop: `prev` holds row `i - 1` on entry and row `i` on exit. */
  method NextRow(left: string, right: string, prev: array<nat>, i: nat)
    requires 0 < i <= |left| && prev.Length == |right| + 1
    requires RowHolds(prev[..], left, right, i - 1, 0, |right| + 1)
    modifies prev
    ensures RowHolds(prev[..], left, right, i, 0, |right| + 1)
  {
    var diagonal := prev[0];
    prev[0] := i;
    for j := 1 to |right| + 1
      invariant RowHolds(prev[..], left, right, i, 0, j)
      invariant RowHolds(prev[..], left, right, i - 1, j, |right| + 1)
      invariant diagonal == Cell(left, right, i - 1, j - 1)
    {
      CellStep(left, right, i, j);
      var above := prev[j];
      var cost := if left[i - 1] == right[j - 1] then 0 else 1;
      prev[j] := Min(Min(prev[j] + 1, prev[j - 1] + 1), diagonal + cost);
      diagonal := above;
    }
  }
}
