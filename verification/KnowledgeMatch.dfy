// When an owner-taught row may overrule a catalogue miss: token similarity and the authoritative match.
module KnowledgeMatch {
  import opened Common
  import opened EditDistance

  /** One minus the edit distance over the longer length; two empty tokens are alike. */
  function Similarity(left: string, right: string): real {
    if left == "" && right == "" then 1.0
    else 1.0 - Distance(left, right) as real / Max(|left|, |right|) as real
  }

  lemma {:induction false} SuffixDistance(a: string, s: string)
    ensures Distance(a, a + s) == |s|
    decreases |s|
  {
    Bounds(a, a + s);
    if s == "" {
      ZeroOnlyOnEqual(a, a);
      assert a + s == a;
    } else {
      SuffixDistance(a, Front(s));
      assert Front(a + s) == a + Front(s);
    }
  }

  lemma PrefixDistance(a: string, b: string)
    requires a <= b
    ensures Distance(a, b) == Distance(b, a) == |b| - |a|
  {
    assert b == a + b[|a|..];
    SuffixDistance(a, b[|a|..]);
    Symmetric(a, b);
  }

  lemma Cancel(x: real, m: real)
    requires m != 0.0 && x * m == 0.0
    ensures x == 0.0
  {
  }

  lemma RatioComplement(d: nat, m: nat)
    requires d <= m && m > 0
    ensures (m - d) as real / m as real == 1.0 - d as real / m as real
  {
    var q := d as real / m as real;
    var p := (m - d) as real / m as real;
    Cancel(p - (1.0 - q), m as real);
  }

  lemma ShortcutAgrees(left: string, right: string)
    requires left != "" && right != ""
    requires right <= left || left <= right
    ensures Min(|left|, |right|) as real / Max(|left|, |right|) as real == Similarity(left, right)
  {
    if right <= left { PrefixDistance(right, left); } else { PrefixDistance(left, right); }
    RatioComplement(Distance(left, right), Max(|left|, |right|));
  }

  lemma ExtremesAgree(left: string, right: string)
    ensures left == right ==> Similarity(left, right) == 1.0
    ensures left != right && (left == "" || right == "") ==> Similarity(left, right) == 0.0
  {
    ZeroOnlyOnEqual(left, right);
    Bounds(left, right);
    if left != right && (left == "" || right == "") {
      RatioComplement(Distance(left, right), Max(|left|, |right|));
    }
  }

  /** The three shortcuts never change the value: the answer is always the general formula. */
  method TokenSimilarity(left: string, right: string) returns (r: real)
    ensures r == Similarity(left, right)
  {
    ExtremesAgree(left, right);
    if left == right { return 1.0; }
    if left == "" || right == "" { return 0.0; }
    if |left| >= 4 && |right| >= 4 && (right <= left || left <= right) {
      ShortcutAgrees(left, right);
      return Min(|left|, |right|) as real / Max(|left|, |right|) as real;
    }
    var distance := Levenshtein(left, right);
    return 1.0 - distance as real / Max(|left|, |right|) as real;
  }

  const THRESHOLD := 0.84

  predicate HasDigit(token: string) {
    exists i :: 0 <= i < |token| && '0' <= token[i] <= '9'
  }

  /** Numeric, model and storage tokens are compared exactly, words fuzzily. */
  predicate TokenSatisfied(token: string, candidates: seq<string>) {
    if HasDigit(token) then token in candidates
    else exists c :: c in candidates && Similarity(token, c) >= THRESHOLD
  }

  /** A normalised text is its list of tokens. */
  type Text = seq<string>

  const INTENT_STOPWORDS: set<string> := {
    "bormi", "bor", "mavjud", "narx", "narxi", "qancha", "nech", "pul", "kerak", "kere", "olaman", "bering",
    "price", "stock", "available", "availability", "order", "buy", "есть", "цена", "сколько", "наличии", "товар" }

  /** The query token is neither an intent word nor part of the family name. */
  predicate Specific(token: string, family: Text) {
    token !in INTENT_STOPWORDS && token !in family
  }

  /** `candidates` are the saved name, the aliases and the attribute text, empty ones dropped. */
  predicate AuthoritativeMatch(candidates: seq<Text>, family: Text, query: Text) {
    query != [] && (
      || query in candidates
      || ((exists t :: t in query && Specific(t, family))
          && exists c :: c in candidates && forall t :: t in query && Specific(t, family) ==> TokenSatisfied(t, c)))
  }

  lemma ScaledLess(a: real, b: real, m: real)
    requires m > 0.0
    ensures a <= b <==> a * m <= b * m
  {
    var d := b - a;
    assert d * m == b * m - a * m;
    PositiveFactor(d, m);
  }

  lemma PositiveFactor(d: real, m: real)
    requires m > 0.0
    ensures d >= 0.0 <==> d * m >= 0.0
  {
  }

  lemma RatioBound(d: nat, m: nat)
    requires m > 0
    ensures 1.0 - d as real / m as real >= THRESHOLD <==> 25 * d <= 4 * m
  {
    var q := d as real / m as real;
    assert q * m as real == d as real;
    ScaledLess(q, 0.16, m as real);
  }

  /** The acceptance threshold is a bound on the edit distance, with no division. */
  lemma ThresholdIsDistance(a: string, b: string)
    ensures Similarity(a, b) >= THRESHOLD <==> 25 * Distance(a, b) <= 4 * Max(|a|, |b|)
  {
    if a != "" || b != "" {
      RatioBound(Distance(a, b), Max(|a|, |b|));
    } else {
      ZeroOnlyOnEqual(a, b);
    }
  }

  /** Up to six characters, "fuzzy" means equal: a one-letter slip is already below the threshold. */
  lemma ShortWordsAreExact(a: string, b: string)
    requires |a| <= 6 && |b| <= 6
    ensures Similarity(a, b) >= THRESHOLD <==> a == b
  {
    ThresholdIsDistance(a, b);
    ZeroOnlyOnEqual(a, b);
  }

  /** A word and its fuzzy partner differ in length by less than a fifth of the shorter one. */
  lemma FuzzyPartnersAreClose(a: string, b: string)
    requires Similarity(a, b) >= THRESHOLD
    ensures 21 * Max(|a|, |b|) <= 25 * Min(|a|, |b|)
  {
    ThresholdIsDistance(a, b);
    Bounds(a, b);
  }

  /**
   * A row whose texts all lack a numeric token of the query, and none of which is the query itself,
   * never authorises it: "iPhone 13 Pro" cannot stand in for "iPhone 16 Pro".
   */
  lemma OtherModelNeverAuthorises(candidates: seq<Text>, family: Text, query: Text, number: string)
    requires number in query && HasDigit(number) && number !in family && number !in INTENT_STOPWORDS
    requires forall c :: c in candidates ==> number !in c
    ensures !AuthoritativeMatch(candidates, family, query)
  {
    assert Specific(number, family);
    forall c | c in candidates ensures !TokenSatisfied(number, c) {
    }
  }

  /** Token `t` of the query is found in a row's text: to the letter if it holds a digit, else up to a few edits. */
  predicate Found(t: string, row: Text) {
    if exists d :: d in t && d in "0123456789" then t in row
    else exists c :: c in row && 25 * Distance(t, c) <= 4 * Max(|t|, |c|)
  }

  lemma HasDigitIff(t: string)
    ensures HasDigit(t) <==> exists d :: d in t && d in "0123456789"
  {
    assert forall c: char :: '0' <= c <= '9' <==> c in "0123456789";
    if i :| 0 <= i < |t| && '0' <= t[i] <= '9' { assert t[i] in t; }
  }

  lemma FoundIff(t: string, row: Text)
    ensures TokenSatisfied(t, row) <==> Found(t, row)
  {
    HasDigitIff(t);
    forall c | c in row ensures Similarity(t, c) >= THRESHOLD <==> 25 * Distance(t, c) <= 4 * Max(|t|, |c|) {
      ThresholdIsDistance(t, c);
    }
  }

  /** Neither an intent word nor part of the family name. */
  predicate Counts(t: string, family: Text) {
    t !in INTENT_STOPWORDS && t !in family
  }

  /**
   * A row authorises a query exactly when one of its texts is the query, or when some token of the query counts and one
   * and the same text of the row holds every token that does.
   */
  lemma AuthorisesIff(candidates: seq<Text>, family: Text, query: Text)
    ensures AuthoritativeMatch(candidates, family, query) <==>
              query != [] && (query in candidates
                              || ((exists t :: t in query && Counts(t, family))
                                  && exists row :: row in candidates
                                                   && forall t :: t in query && Counts(t, family) ==> Found(t, row)))
  {
    forall t, row ensures TokenSatisfied(t, row) <==> Found(t, row) { FoundIff(t, row); }
    assert forall t :: Specific(t, family) <==> Counts(t, family);
    if row :| row in candidates && forall t :: t in query && Counts(t, family) ==> Found(t, row) {
      assert forall t :: t in query && Specific(t, family) ==> TokenSatisfied(t, row);
    }
    if row :| row in candidates && forall t :: t in query && Specific(t, family) ==> TokenSatisfied(t, row) {
      assert forall t :: t in query && Counts(t, family) ==> Found(t, row);
    }
  }
}
