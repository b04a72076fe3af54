// Spelling whole numbers as Uzbek words, and reading the text back from left to right.
module UzbekNumerals {
  import opened Decimals

  datatype Word =
    | Unit(d: nat)         // 0 to 9
    | Ten                  // the word for ten, also in eleven to nineteen
    | Tens(d: nat)         // 2 to 9
    | Hundred | Thousand | Million
    | Digits(n: nat)       // a number left in digits

  predicate Wellformed(w: Word) {
    match w
    case Unit(d) => d < 10
    case Tens(d) => 2 <= d < 10
    case _ => true
  }

  function Text(w: Word): string
    requires Wellformed(w)
  {
    match w
    case Unit(d) => (match d
      case 0 => "nol" case 1 => "bir" case 2 => "ikki" case 3 => "uch" case 4 => "to‘rt" case 5 => "besh"
      case 6 => "olti" case 7 => "yetti" case 8 => "sakkiz" case _ => "to‘qqiz")
    case Ten => "o‘n"
    case Tens(d) => (match d
      case 2 => "yigirma" case 3 => "o‘ttiz" case 4 => "qirq" case 5 => "ellik" case 6 => "oltmish"
      case 7 => "yetmish" case 8 => "sakson" case _ => "to‘qson")
    case Hundred => "yuz"
    case Thousand => "ming"
    case Million => "million"
    case Digits(n) => Decimal(n)
  }

  /** What follows a multiplying word: nothing for zero. */
  function Remainder(n: nat): seq<Word>
    decreases n, 1
  {
    if n != 0 then SpelledWords(n) else []
  }

  /** The words `uzbekInteger` writes with a blank between any two. */
  function SpelledWords(n: nat): seq<Word>
    decreases n, 0
  {
    if n < 10 then [Unit(n)]
    else if n < 20 then if n == 10 then [Ten] else [Ten, Unit(n - 10)]
    else if n < 100 then [Tens(n / 10)] + if n % 10 != 0 then [Unit(n % 10)] else []
    else if n < 1000 then [Unit(n / 100), Hundred] + Remainder(n % 100)
    else if n < 1_000_000 then SpelledWords(n / 1000) + [Thousand] + Remainder(n % 1000)
    else if n < 1_000_000_000 then SpelledWords(n / 1_000_000) + [Million] + Remainder(n % 1_000_000)
    else [Digits(n)]
  }

  predicate AllWellformed(ws: seq<Word>) {
    forall i :: 0 <= i < |ws| ==> Wellformed(ws[i])
  }

  /** One after the other with single blanks between them. */
  function Spaced(texts: seq<string>): string
    requires texts != []
  {
    if |texts| == 1 then texts[0] else texts[0] + " " + Spaced(texts[1..])
  }

  function Texts(ws: seq<Word>): seq<string>
    requires AllWellformed(ws)
  {
    seq(|ws|, i requires 0 <= i < |ws| => Text(ws[i]))
  }

  /** `uzbekInteger`. */
  function UzbekInteger(n: nat): string {
    SpelledIsWellformed(n);
    Spaced(Texts(SpelledWords(n)))
  }

  lemma {:induction false} SpelledIsWellformed(n: nat)
    ensures SpelledWords(n) != [] && AllWellformed(SpelledWords(n))
  {
    if 100 <= n < 1000 {
      SpelledIsWellformed(n % 100);
    } else if 1000 <= n < 1_000_000 {
      SpelledIsWellformed(n / 1000);
      SpelledIsWellformed(n % 1000);
    } else if 1_000_000 <= n < 1_000_000_000 {
      SpelledIsWellformed(n / 1_000_000);
      SpelledIsWellformed(n % 1_000_000);
    }
  }

  // ---------- What words mean, heard from left to right ----------

  /** `total` holds the finished groups, `group` the one being heard. */
  datatype Sum = Sum(total: nat, group: nat)

  function Hear(s: Sum, w: Word): Sum {
    match w
    case Unit(d) => s.(group := s.group + d)
    case Ten => s.(group := s.group + 10)
    case Tens(d) => s.(group := s.group + 10 * d)
    case Hundred => s.(group := s.group * 100)
    case Thousand => Sum(s.total + s.group * 1000, 0)
    case Million => Sum(s.total + s.group * 1_000_000, 0)
    case Digits(n) => s.(group := s.group + n)
  }

  function HearAll(s: Sum, ws: seq<Word>): Sum
    decreases |ws|
  {
    if ws == [] then s else HearAll(Hear(s, ws[0]), ws[1..])
  }

  lemma {:induction false} HearConcat(s: Sum, a: seq<Word>, b: seq<Word>)
    ensures HearAll(s, a + b) == HearAll(HearAll(s, a), b)
    decreases |a|
  {
    if a == [] {
      assert a + b == b;
    } else {
      assert (a + b)[0] == a[0] && (a + b)[1..] == a[1..] + b;
      HearConcat(Hear(s, a[0]), a[1..], b);
    }
  }

  /** A group, the word that multiplies it, and the rest. */
  lemma HearMultiple(s: Sum, a: seq<Word>, w: Word, b: seq<Word>)
    ensures HearAll(s, a + [w] + b) == HearAll(Hear(HearAll(s, a), w), b)
  {
    HearConcat(s, a + [w], b);
    HearConcat(s, a, [w]);
    assert HearAll(HearAll(s, a), [w]) == Hear(HearAll(s, a), w);
  }

  lemma HearOne(s: Sum, w: Word)
    ensures HearAll(s, [w]) == Hear(s, w)
  {
  }

  lemma HearTwo(s: Sum, v: Word, w: Word)
    ensures HearAll(s, [v, w]) == Hear(Hear(s, v), w)
  {
    HearOne(Hear(s, v), w);
    assert [v, w][1..] == [w];
  }

  lemma HearTenAnd(s: Sum, ten: Word, d: nat)
    requires ten == Ten || ten.Tens?
    ensures var heard := Hear(s, ten);
            HearAll(s, [ten] + if d != 0 then [Unit(d)] else []) == heard.(group := heard.group + d)
  {
    if d == 0 {
      assert [ten] + [] == [ten];
      HearOne(s, ten);
    } else {
      assert [ten] + [Unit(d)] == [ten, Unit(d)];
      HearTwo(s, ten, Unit(d));
    }
  }

  lemma HearTens(s: Sum, n: nat)
    requires n < 100
    ensures HearAll(s, SpelledWords(n)) == s.(group := s.group + n)
  {
    if n < 10 {
      HearOne(s, Unit(n));
    } else if n < 20 {
      HearOne(s, Ten);
      HearTwo(s, Ten, Unit(n - 10));
    } else {
      HearTenAnd(s, Tens(n / 10), n % 10);
    }
  }

  lemma HearTensAfter(s: Sum, n: nat)
    requires n < 100
    ensures HearAll(s, Remainder(n)) == s.(group := s.group + n)
  {
    if n != 0 { HearTens(s, n); }
  }

  lemma HearHundreds(s: Sum, n: nat)
    requires n < 1000 && s.group == 0
    ensures HearAll(s, SpelledWords(n)) == s.(group := n)
    ensures HearAll(s, Remainder(n)) == s.(group := n)
  {
    if n < 100 {
      HearTens(s, n);
    } else {
      var head := [Unit(n / 100)];
      HearMultiple(s, head, Hundred, Remainder(n % 100));
      assert head + [Hundred] == [Unit(n / 100), Hundred];
      HearTensAfter(s.(group := n / 100 * 100), n % 100);
    }
  }

  function Heard(s: Sum): nat { s.total + s.group }

  /** Thousands are closed into the total, what follows them stays in the group. */
  lemma HearThousands(s: Sum, n: nat)
    requires n < 1_000_000 && s.group == 0
    ensures Heard(HearAll(s, SpelledWords(n))) == s.total + n
    ensures Heard(HearAll(s, Remainder(n))) == s.total + n
  {
    if n < 1000 {
      HearHundreds(s, n);
    } else {
      HearHundreds(s, n / 1000);
      HearMultiple(s, SpelledWords(n / 1000), Thousand, Remainder(n % 1000));
      HearHundreds(Sum(s.total + n / 1000 * 1000, 0), n % 1000);
    }
  }

  /** Left to right, the words of a number add up to it. */
  lemma WordsAddUp(n: nat)
    ensures Heard(HearAll(Sum(0, 0), SpelledWords(n))) == n
  {
    var s := Sum(0, 0);
    if n < 1_000_000 {
      HearThousands(s, n);
    } else if n < 1_000_000_000 {
      HearHundreds(s, n / 1_000_000);
      HearMultiple(s, SpelledWords(n / 1_000_000), Million, Remainder(n % 1_000_000));
      HearThousands(Sum(n / 1_000_000 * 1_000_000, 0), n % 1_000_000);
    }
  }

  // ---------- From text back to words ----------

  /** The word written as `text`. */
  function Recognise(text: string): Word {
    if text == "nol" then Unit(0)
    else if text == "bir" then Unit(1)
    else if text == "ikki" then Unit(2)
    else if text == "uch" then Unit(3)
    else if text == "to‘rt" then Unit(4)
    else if text == "besh" then Unit(5)
    else if text == "olti" then Unit(6)
    else if text == "yetti" then Unit(7)
    else if text == "sakkiz" then Unit(8)
    else if text == "to‘qqiz" then Unit(9)
    else if text == "o‘n" then Ten
    else if text == "yigirma" then Tens(2)
    else if text == "o‘ttiz" then Tens(3)
    else if text == "qirq" then Tens(4)
    else if text == "ellik" then Tens(5)
    else if text == "oltmish" then Tens(6)
    else if text == "yetmish" then Tens(7)
    else if text == "sakson" then Tens(8)
    else if text == "to‘qson" then Tens(9)
    else if text == "yuz" then Hundred
    else if text == "ming" then Thousand
    else if text == "million" then Million
    else Digits(NumberOf(text))
  }

  predicate OneWord(text: string) {
    forall i :: 0 <= i < |text| ==> text[i] != ' '
  }

  lemma UnitIsRecognised(d: nat)
    requires d < 10
    ensures Recognise(Text(Unit(d))) == Unit(d) && OneWord(Text(Unit(d)))
  {
  }

  lemma TensAreRecognised(d: nat)
    requires 2 <= d < 10
    ensures Recognise(Text(Tens(d))) == Tens(d) && OneWord(Text(Tens(d)))
  {
  }

  lemma DigitsAreRecognised(n: nat)
    ensures Recognise(Text(Digits(n))) == Digits(n) && OneWord(Text(Digits(n)))
  {
    assert IsDigit(Decimal(n)[0]);
  }

  lemma WordIsRecognised(w: Word)
    requires Wellformed(w)
    ensures Recognise(Text(w)) == w && OneWord(Text(w))
  {
    match w
    case Unit(d) => UnitIsRecognised(d);
    case Tens(d) => TensAreRecognised(d);
    case Digits(n) => DigitsAreRecognised(n);
    case _ =>
  }

  function FirstBlank(text: string): (k: nat)
    ensures k <= |text| && OneWord(text[..k]) && (k < |text| ==> text[k] == ' ')
  {
    if text == "" || text[0] == ' ' then 0 else 1 + FirstBlank(text[1..])
  }

  lemma {:induction false} FirstBlankOf(word: string, rest: string)
    requires OneWord(word) && (rest == "" || rest[0] == ' ')
    ensures FirstBlank(word + rest) == |word|
  {
    if word == "" {
      assert word + rest == rest;
    } else {
      assert (word + rest)[1..] == word[1..] + rest;
      FirstBlankOf(word[1..], rest);
    }
  }

  /** The text cut at its blanks. */
  function Split(text: string): seq<string>
    decreases |text|
  {
    var k := FirstBlank(text);
    [text[..k]] + if k < |text| then Split(text[k + 1..]) else []
  }

  lemma SplitLast(word: string)
    requires OneWord(word)
    ensures Split(word) == [word]
  {
    FirstBlankOf(word, "");
    assert word + "" == word && word[..|word|] == word;
  }

  lemma SplitFirst(word: string, rest: string)
    requires OneWord(word)
    ensures Split(word + " " + rest) == [word] + Split(rest)
  {
    var text := word + " " + rest;
    FirstBlankOf(word, " " + rest);
    assert word + (" " + rest) == text;
    assert text[..|word|] == word && text[|word| + 1..] == rest;
  }

  lemma {:induction false} SpacedIsSplit(texts: seq<string>)
    requires texts != [] && forall i :: 0 <= i < |texts| ==> OneWord(texts[i])
    ensures Split(Spaced(texts)) == texts
    decreases |texts|
  {
    if |texts| == 1 {
      SplitLast(texts[0]);
    } else {
      SpacedIsSplit(texts[1..]);
      SplitFirst(texts[0], Spaced(texts[1..]));
    }
  }

  function Parse(text: string): seq<Word> {
    var texts := Split(text);
    seq(|texts|, i requires 0 <= i < |texts| => Recognise(texts[i]))
  }

  lemma ParseSpelled(ws: seq<Word>)
    requires ws != [] && AllWellformed(ws)
    ensures Parse(Spaced(Texts(ws))) == ws
  {
    forall i | 0 <= i < |ws| ensures OneWord(Texts(ws)[i]) && Recognise(Texts(ws)[i]) == ws[i] {
      WordIsRecognised(ws[i]);
    }
    SpacedIsSplit(Texts(ws));
  }

  function ReadNumeral(text: string): nat {
    Heard(HearAll(Sum(0, 0), Parse(text)))
  }

  /** Reading the spoken text back gives the number, for every whole number. */
  lemma SpelledNumbersAreReadBack(n: nat)
    ensures ReadNumeral(UzbekInteger(n)) == n
  {
    SpelledIsWellformed(n);
    ParseSpelled(SpelledWords(n));
    WordsAddUp(n);
  }

  lemma SpellingIsInjective(m: nat, n: nat)
    requires UzbekInteger(m) == UzbekInteger(n)
    ensures m == n
  {
    SpelledNumbersAreReadBack(m);
    SpelledNumbersAreReadBack(n);
  }
}
