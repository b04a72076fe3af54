// Money amounts as people write them, turned into plain decimal numerals without rounding.
module AmountNormalizer {
  import opened Common
  import opened Decimals

  /** `toLowerCase`; nothing is assumed of it except that it leaves digits and points alone. */
  type Lowering = string -> string

  predicate PlainText(s: string) {
    forall i :: 0 <= i < |s| ==> IsDigit(s[i]) || s[i] == '.'
  }

  ghost predicate KeepsPlainText(lower: Lowering) {
    forall s :: PlainText(s) ==> lower(s) == s
  }

  predicate EndsWith(s: string, suffix: string) {
    |suffix| <= |s| && s[|s| - |suffix|..] == suffix
  }

  /** Drops the name of the currency, in one of its spellings, from the end. */
  function DropCurrency(s: string): string {
    if EndsWith(s, "uzs") || EndsWith(s, "som") || EndsWith(s, "сум") then s[..|s| - 3]
    else if EndsWith(s, "so‘m") || EndsWith(s, "so’m") || EndsWith(s, "so'm") || EndsWith(s, "soʻm") then s[..|s| - 4]
    else s
  }

  function Cleaned(value: string, lower: Lowering): string {
    Trim(DropCurrency(lower(Trim(value))))
  }

  /** The words for half a million. */
  predicate IsHalfMillion(text: string) {
    "yarim" <= text && (TrimStart(text[5..]) == "mln" || TrimStart(text[5..]) == "million")
  }

  // ---------- The numeral and its unit ----------

  function LeadingDigits(s: string): (k: nat)
    ensures k <= |s| && AllDigits(s[..k]) && (k < |s| ==> !IsDigit(s[k]))
  {
    if s == "" || !IsDigit(s[0]) then 0 else 1 + LeadingDigits(s[1..])
  }

  /** Length of the longest `[0-9]+(?:[ ,.][0-9]+)*` at the start; zero if there is none. */
  function NumeralLength(s: string): (k: nat)
    ensures k <= |s|
    decreases |s|
  {
    var d := LeadingDigits(s);
    if d == 0 || d == |s| || s[d] !in " ,." then d
    else
      var more := NumeralLength(s[d + 1..]);
      if more == 0 then d else d + 1 + more
  }

  /** The power of ten a unit stands for. */
  function Scale(unit: string): Option<nat> {
    if unit == "" then Some(0)
    else if unit == "k" || unit == "min" || unit == "ming" then Some(3)
    else if unit == "mln" || unit == "million" then Some(6)
    else None
  }

  function Without(s: string, c: char): string {
    if s == "" then "" else (if s[0] == c then "" else [s[0]]) + Without(s[1..], c)
  }

  /** The first comma, and only that one, becomes a point. */
  function CommaToPoint(s: string): string {
    if s == "" then "" else if s[0] == ',' then "." + s[1..] else [s[0]] + CommaToPoint(s[1..])
  }

  /** Groups of a comma and three digits, at least one. */
  predicate Thousands(s: string)
    decreases |s|
  {
    |s| >= 4 && s[0] == ',' && AllDigits(s[1..4]) && (|s| == 4 || Thousands(s[4..]))
  }

  /** One to three digits, then groups of three: the commas only group thousands. */
  predicate Grouped(number: string) {
    1 <= LeadingDigits(number) <= 3 && Thousands(number[LeadingDigits(number)..])
  }

  /** Digits, with a point and more digits if there are any, split at the point. */
  function SplitAtPoint(number: string): (r: Option<(string, string)>)
    ensures r.Some? ==> r.value.0 != "" && AllDigits(r.value.0) && AllDigits(r.value.1)
    ensures r.Some? ==> number == Joined(r.value.0, r.value.1)
  {
    var d := LeadingDigits(number);
    if d == 0 then None
    else if d == |number| then Some((number, ""))
    else if number[d] == '.' && d + 1 < |number| && AllDigits(number[d + 1..]) then Some((number[..d], number[d + 1..]))
    else None
  }

  function Joined(whole: string, fraction: string): string {
    if fraction == "" then whole else whole + "." + fraction
  }

  function Ungrouped(numeral: string): string {
    var number := Without(numeral, ' ');
    if Grouped(number) then Without(number, ',') else CommaToPoint(number)
  }

  datatype Amount = Amount(whole: string, fraction: string, scale: nat)

  /** What is read from cleaned text: the numeral as written and the amount. */
  function ReadAmount(text: string): (r: Option<(string, Amount)>)
    ensures r.Some? ==> var a := r.value.1; a.whole != "" && AllDigits(a.whole) && AllDigits(a.fraction)
  {
    var k := NumeralLength(text);
    var scale := Scale(TrimStart(text[k..]));
    if k == 0 || scale.None? then None
    else
      match SplitAtPoint(Ungrouped(text[..k]))
      case None => None
      case Some((whole, fraction)) => Some((text[..k], Amount(whole, fraction, scale.value)))
  }

  // ---------- Writing ----------

  /** Leading zeros go, but never the last digit. */
  function StripZeros(s: string): (r: string)
    requires AllDigits(s)
    ensures AllDigits(r) && (s != "" ==> r != "") && |r| <= |s|
    ensures |r| > 1 ==> r[0] != '0'
  {
    if |s| > 1 && s[0] == '0' then StripZeros(s[1..]) else s
  }

  /** Zeros in front, up to the width. */
  function PadStart(s: string, width: nat): (r: string)
    ensures |r| == Max(|s|, width)
    ensures AllDigits(s) ==> AllDigits(r)
  {
    if |s| >= width then s else Zeros(width - |s|) + s
  }

  function WriteAmount(a: Amount): string
    requires a.whole != "" && AllDigits(a.whole) && AllDigits(a.fraction)
  {
    var digits := StripZeros(a.whole + a.fraction);
    var places := |a.fraction| - a.scale;
    if places <= 0 then digits + Zeros(-places)
    else
      var padded := PadStart(digits, places + 1);
      padded[..|padded| - places] + "." + padded[|padded| - places..]
  }

  /** `normalizeAmount` on text; text it does not understand is returned as it is. */
  function NormalizeAmount(value: string, lower: Lowering): string {
    var text := Cleaned(value, lower);
    if IsHalfMillion(text) then "500000"
    else
      match ReadAmount(text)
      case None => value
      case Some((_, a)) => WriteAmount(a)
  }

  // ---------- What a numeral means ----------

  /** The number `n / 10^places`; `marked` once the decimal mark has been passed. */
  datatype Fixed = Fixed(n: nat, places: nat, marked: bool)

  function ReadChar(f: Fixed, c: char, grouping: bool): Fixed {
    if IsDigit(c) then Fixed(10 * f.n + DigitValue(c), f.places + (if f.marked then 1 else 0), f.marked)
    else if c == '.' || (c == ',' && !grouping) then f.(marked := true)
    else f
  }

  /** A numeral read character by character; blanks, and commas that group thousands, mean nothing. */
  function Meaning(f: Fixed, numeral: string, grouping: bool): Fixed
    decreases |numeral|
  {
    if numeral == "" then f else Meaning(ReadChar(f, numeral[0], grouping), numeral[1..], grouping)
  }

  const NOTHING := Fixed(0, 0, false)

  lemma {:induction false} MeaningOfWithout(f: Fixed, s: string, c: char, grouping: bool)
    requires c == ' ' || (c == ',' && grouping)
    ensures Meaning(f, Without(s, c), grouping) == Meaning(f, s, grouping)
    decreases |s|
  {
    if s != "" {
      MeaningOfWithout(ReadChar(f, s[0], grouping), s[1..], c, grouping);
      if s[0] == c {
        assert Without(s, c) == Without(s[1..], c);
      } else {
        assert Without(s, c)[0] == s[0] && Without(s, c)[1..] == Without(s[1..], c);
      }
    }
  }

  lemma {:induction false} MeaningOfCommaToPoint(f: Fixed, s: string)
    ensures Meaning(f, CommaToPoint(s), false) == Meaning(f, s, false)
    decreases |s|
  {
    if s != "" {
      if s[0] == ',' {
        assert CommaToPoint(s)[0] == '.' && CommaToPoint(s)[1..] == s[1..];
      } else {
        assert CommaToPoint(s)[0] == s[0] && CommaToPoint(s)[1..] == CommaToPoint(s[1..]);
        MeaningOfCommaToPoint(ReadChar(f, s[0], false), s[1..]);
      }
    }
  }

  lemma {:induction false} MeaningOfDigits(f: Fixed, s: string, rest: string, grouping: bool)
    requires AllDigits(s)
    ensures Meaning(f, s + rest, grouping)
            == Meaning(Fixed(f.n * Pow10(|s|) + NumberOf(s), f.places + (if f.marked then |s| else 0), f.marked), rest,
                grouping)
    decreases |s|
  {
    if s == "" {
      assert s + rest == rest;
    } else {
      assert (s + rest)[0] == s[0] && (s + rest)[1..] == s[1..] + rest;
      MeaningOfDigits(ReadChar(f, s[0], grouping), s[1..], rest, grouping);
      assert s == [s[0]] + s[1..];
      NumberOfConcat([s[0]], s[1..]);
      assert NumberOf([s[0]]) == DigitValue(s[0]);
      ShiftIn(f.n, DigitValue(s[0]), Pow10(|s| - 1), NumberOf(s[1..]));
    }
  }

  lemma ShiftIn(n: nat, d: nat, power: nat, low: nat)
    ensures (10 * n + d) * power + low == n * (10 * power) + (d * power + low)
  {
  }

  lemma MeaningOfPoint(f: Fixed, rest: string, grouping: bool)
    ensures Meaning(f, "." + rest, grouping) == Meaning(f.(marked := true), rest, grouping)
  {
    assert ("." + rest)[0] == '.' && ("." + rest)[1..] == rest;
  }

  lemma MeaningOfLastDigits(f: Fixed, s: string, grouping: bool)
    requires AllDigits(s)
    ensures Meaning(f, s, grouping)
            == Fixed(f.n * Pow10(|s|) + NumberOf(s), f.places + (if f.marked then |s| else 0), f.marked)
  {
    MeaningOfDigits(f, s, "", grouping);
    assert s + "" == s;
  }

  lemma MeaningOfJoined(whole: string, fraction: string, grouping: bool)
    requires AllDigits(whole) && AllDigits(fraction)
    ensures Meaning(NOTHING, Joined(whole, fraction), grouping)
            == Fixed(NumberOf(whole + fraction), |fraction|, fraction != "")
  {
    NumberOfConcat(whole, fraction);
    if fraction == "" {
      MeaningOfLastDigits(NOTHING, whole, grouping);
      assert whole + "" == whole;
    } else {
      MeaningOfDigits(NOTHING, whole, "." + fraction, grouping);
      assert whole + ("." + fraction) == whole + "." + fraction;
      MeaningOfPoint(Fixed(NumberOf(whole), 0, false), fraction, grouping);
      MeaningOfLastDigits(Fixed(NumberOf(whole), 0, true), fraction, grouping);
    }
  }

  /** The digits read are those of the numeral as written. */
  lemma ReadingIsExact(text: string)
    requires ReadAmount(text).Some?
    ensures var (numeral, a) := ReadAmount(text).value;
            var m := Meaning(NOTHING, numeral, Grouped(Without(numeral, ' ')));
            m.n == NumberOf(a.whole + a.fraction) && m.places == |a.fraction|
  {
    var (numeral, a) := ReadAmount(text).value;
    var number := Without(numeral, ' ');
    var grouping := Grouped(number);
    MeaningOfWithout(NOTHING, numeral, ' ', grouping);
    if grouping { MeaningOfWithout(NOTHING, number, ',', true); } else { MeaningOfCommaToPoint(NOTHING, number); }
    MeaningOfJoined(a.whole, a.fraction, grouping);
  }

  // ---------- Nothing is rounded ----------

  /** The two sides of the point in the numeral written for `a`. */
  function Written(a: Amount): (r: (string, string))
    requires a.whole != "" && AllDigits(a.whole) && AllDigits(a.fraction)
    ensures r.0 != "" && AllDigits(r.0) && AllDigits(r.1)
  {
    var digits := StripZeros(a.whole + a.fraction);
    if |a.fraction| <= a.scale then (digits + Zeros(a.scale - |a.fraction|), "")
    else
      var places := |a.fraction| - a.scale;
      var padded := PadStart(digits, places + 1);
      (padded[..|padded| - places], padded[|padded| - places..])
  }

  lemma WrittenIsJoined(a: Amount)
    requires a.whole != "" && AllDigits(a.whole) && AllDigits(a.fraction)
    ensures WriteAmount(a) == Joined(Written(a).0, Written(a).1)
  {
  }

  lemma PaddingIsNothing(s: string, width: nat)
    ensures NumberOf(PadStart(s, width)) == NumberOf(s)
  {
    if |s| < width {
      NumberOfConcat(Zeros(width - |s|), s);
      ZerosAreNothing(width - |s|);
    }
  }

  lemma StrippedZerosAreNothing(s: string)
    requires AllDigits(s)
    ensures NumberOf(StripZeros(s)) == NumberOf(s)
    ensures s == Zeros(|s| - |StripZeros(s)|) + StripZeros(s)
  {
    ZerosAreStripped(s);
    var k := |s| - |StripZeros(s)|;
    NumberOfConcat(Zeros(k), StripZeros(s));
    ZerosAreNothing(k);
  }

  lemma {:induction false} ZerosAreStripped(s: string)
    requires AllDigits(s)
    ensures s == Zeros(|s| - |StripZeros(s)|) + StripZeros(s)
  {
    var r := StripZeros(s);
    if |s| > 1 && s[0] == '0' {
      ZerosAreStripped(s[1..]);
      assert Zeros(|s| - |r|) == "0" + Zeros(|s| - 1 - |r|) && s == "0" + s[1..];
    } else {
      assert Zeros(0) + s == s;
    }
  }

  lemma WholeIsExact(a: Amount)
    requires a.whole != "" && AllDigits(a.whole) && AllDigits(a.fraction) && |a.fraction| <= a.scale
    ensures Written(a).1 == ""
    ensures NumberOf(Written(a).0) == NumberOf(a.whole + a.fraction) * Pow10(a.scale - |a.fraction|)
  {
    var digits, k := StripZeros(a.whole + a.fraction), a.scale - |a.fraction|;
    StrippedZerosAreNothing(a.whole + a.fraction);
    NumberOfConcat(digits, Zeros(k));
    ZerosAreNothing(k);
  }

  lemma {:induction false} FractionIsExact(a: Amount)
    requires a.whole != "" && AllDigits(a.whole) && AllDigits(a.fraction) && |a.fraction| > a.scale
    ensures |Written(a).1| == |a.fraction| - a.scale
    ensures NumberOf(Written(a).0 + Written(a).1) == NumberOf(a.whole + a.fraction)
  {
    var digits, places := StripZeros(a.whole + a.fraction), |a.fraction| - a.scale;
    StrippedZerosAreNothing(a.whole + a.fraction);
    PaddingIsNothing(digits, places + 1);
    HalvesJoin(PadStart(digits, places + 1), places);
  }

  lemma HalvesJoin(s: string, k: nat)
    requires k <= |s|
    ensures s[..|s| - k] + s[|s| - k..] == s
  {
  }

  /** The numeral written is the amount read times its unit: `n / 10^p * 10^scale == m / 10^q`. */
  lemma WritingIsExact(a: Amount)
    requires a.whole != "" && AllDigits(a.whole) && AllDigits(a.fraction)
    ensures var m := Meaning(NOTHING, WriteAmount(a), false);
            m.n * Pow10(|a.fraction|) == NumberOf(a.whole + a.fraction) * Pow10(a.scale) * Pow10(m.places)
  {
    WrittenIsJoined(a);
    MeaningOfJoined(Written(a).0, Written(a).1, false);
    WrittenIsExact(a);
  }

  lemma WrittenIsExact(a: Amount)
    requires a.whole != "" && AllDigits(a.whole) && AllDigits(a.fraction)
    ensures NumberOf(Written(a).0 + Written(a).1) * Pow10(|a.fraction|)
            == NumberOf(a.whole + a.fraction) * Pow10(a.scale) * Pow10(|Written(a).1|)
  {
    var n := NumberOf(a.whole + a.fraction);
    if |a.fraction| <= a.scale {
      WholeIsExact(a);
      assert Written(a).0 + "" == Written(a).0;
      SplitScale(n, a.scale - |a.fraction|, |a.fraction|);
    } else {
      FractionIsExact(a);
      SplitScale(n, a.scale, |a.fraction| - a.scale);
    }
  }

  lemma SplitScale(n: nat, j: nat, k: nat)
    ensures n * Pow10(j + k) == n * Pow10(j) * Pow10(k)
  {
    PowersMultiply(j, k);
    Regroup(n, Pow10(j), Pow10(k));
  }

  lemma Regroup(n: nat, p: nat, q: nat)
    ensures n * p * q == n * (p * q) == n * (q * p)
  {
  }

  /** Every amount understood comes out as exactly the numeral written, times 1, 1 000 or 1 000 000. */
  lemma AmountIsExact(value: string, lower: Lowering)
    requires ReadAmount(Cleaned(value, lower)).Some?
    ensures var (numeral, a) := ReadAmount(Cleaned(value, lower)).value;
            var m := Meaning(NOTHING, numeral, Grouped(Without(numeral, ' ')));
            var r := Meaning(NOTHING, NormalizeAmount(value, lower), false);
            r.n * Pow10(m.places) == m.n * Pow10(a.scale) * Pow10(r.places)
  {
    var (numeral, a) := ReadAmount(Cleaned(value, lower)).value;
    NoHalfNumeral(Cleaned(value, lower));
    ReadingIsExact(Cleaned(value, lower));
    WritingIsExact(a);
  }

  lemma NoHalfNumeral(text: string)
    requires ReadAmount(text).Some?
    ensures !IsHalfMillion(text)
  {
    assert IsDigit(text[0]);
  }

  // ---------- Normalising twice ----------

  lemma {:induction false} DigitsLead(s: string, rest: string)
    requires AllDigits(s) && (rest == "" || !IsDigit(rest[0]))
    ensures LeadingDigits(s + rest) == |s|
  {
    if s == "" {
      assert s + rest == rest;
    } else {
      assert (s + rest)[1..] == s[1..] + rest;
      DigitsLead(s[1..], rest);
    }
  }

  lemma {:induction false} NothingToRemove(s: string, c: char)
    requires c !in s
    ensures Without(s, c) == s
  {
    if s != "" { NothingToRemove(s[1..], c); }
  }

  lemma {:induction false} NoCommaToChange(s: string)
    requires ',' !in s
    ensures CommaToPoint(s) == s
  {
    if s != "" { NoCommaToChange(s[1..]); }
  }

  lemma NumeralIsWhole(whole: string, fraction: string)
    requires whole != "" && AllDigits(whole) && AllDigits(fraction)
    ensures NumeralLength(Joined(whole, fraction)) == |Joined(whole, fraction)|
    ensures SplitAtPoint(Joined(whole, fraction)) == Some((whole, fraction))
  {
    var s := Joined(whole, fraction);
    if fraction == "" {
      DigitsLead(whole, "");
      assert whole + "" == whole;
    } else {
      DigitsLead(whole, "." + fraction);
      assert whole + ("." + fraction) == s;
      assert s[..|whole|] == whole && s[|whole| + 1..] == fraction;
      DigitsLead(fraction, "");
      assert fraction + "" == fraction;
    }
  }

  lemma LastOf(s: string, suffix: string)
    requires suffix != ""
    ensures EndsWith(s, suffix) ==> s != "" && s[|s| - 1] == suffix[|suffix| - 1]
  {
    if EndsWith(s, suffix) { assert s[|s| - |suffix|..][|suffix| - 1] == s[|s| - 1]; }
  }

  lemma NoCurrency(s: string)
    requires s != "" && IsDigit(s[|s| - 1])
    ensures DropCurrency(s) == s
  {
    LastOf(s, "uzs"); LastOf(s, "som"); LastOf(s, "сум");
    LastOf(s, "so‘m"); LastOf(s, "so’m"); LastOf(s, "so'm"); LastOf(s, "soʻm");
  }

  lemma PlainIsCleaned(s: string, lower: Lowering)
    requires KeepsPlainText(lower) && PlainText(s) && s != "" && IsDigit(s[0]) && IsDigit(s[|s| - 1])
    ensures Cleaned(s, lower) == s && !IsHalfMillion(s)
  {
    assert TrimStart(s) == s && TrimEnd(s) == s;
    NoCurrency(s);
  }

  lemma PlainIsUngrouped(s: string)
    requires PlainText(s)
    ensures Ungrouped(s) == s
  {
    NothingToRemove(s, ' ');
    NoCommaToChange(s);
    assert !Grouped(s);
  }

  /** A plain numeral is read as it stands. */
  lemma PlainIsRead(whole: string, fraction: string)
    requires whole != "" && AllDigits(whole) && AllDigits(fraction)
    ensures ReadAmount(Joined(whole, fraction)) == Some((Joined(whole, fraction), Amount(whole, fraction, 0)))
  {
    var s := Joined(whole, fraction);
    NumeralIsWhole(whole, fraction);
    PlainIsUngrouped(s);
    assert s[..|s|] == s && s[|s|..] == "" && TrimStart("") == "";
  }

  /** The numerals that are written back as they stand. */
  lemma PlainIsRewrittenIff(whole: string, fraction: string)
    requires whole != "" && AllDigits(whole) && AllDigits(fraction)
    ensures WriteAmount(Amount(whole, fraction, 0)) == Joined(whole, fraction) <==> |whole| == 1 || whole[0] != '0'
  {
    var a := Amount(whole, fraction, 0);
    var (whole', fraction') := Written(a);
    WrittenIsJoined(a);
    if |whole| == 1 || whole[0] != '0' {
      StrippedZerosComeBack(whole, fraction);
    } else {
      NumeralIsWhole(whole, fraction);
      NumeralIsWhole(whole', fraction');
      LeadingZerosGo(whole, fraction);
    }
  }

  lemma StrippedZerosComeBack(whole: string, fraction: string)
    requires whole != "" && AllDigits(whole) && AllDigits(fraction) && (|whole| == 1 || whole[0] != '0')
    ensures Written(Amount(whole, fraction, 0)) == (whole, fraction)
  {
    var s := whole + fraction;
    StrippedZerosAreNothing(s);
    if fraction == "" {
      assert s == whole && StripZeros(s) + Zeros(0) == StripZeros(s);
    } else {
      assert PadStart(StripZeros(s), |fraction| + 1) == s;
    }
  }

  lemma LeadingZerosGo(whole: string, fraction: string)
    requires |whole| > 1 && AllDigits(whole) && AllDigits(fraction) && whole[0] == '0'
    ensures Written(Amount(whole, fraction, 0)).0 != whole
  {
    var s := whole + fraction;
    assert |StripZeros(s)| < |s|;
  }

  lemma {:induction false} NonzeroLead(s: string)
    requires s != "" && AllDigits(s) && s[0] != '0'
    ensures NumberOf(s) > 0
  {
    if |s| > 1 { NonzeroLead(s[..|s| - 1]); }
  }

  /** Only zero scaled up by its unit is written with leading zeros. */
  lemma WrittenLeadsWithZeroIff(a: Amount)
    requires a.whole != "" && AllDigits(a.whole) && AllDigits(a.fraction)
    ensures |Written(a).0| == 1 || Written(a).0[0] != '0'
            <==> !(NumberOf(a.whole + a.fraction) == 0 && |a.fraction| < a.scale)
  {
    var digits := StripZeros(a.whole + a.fraction);
    StrippedZerosAreNothing(a.whole + a.fraction);
    if digits[0] != '0' {
      NonzeroLead(digits);
    } else {
      assert digits == "0" && NumberOf("0") == 0;
      if |a.fraction| > a.scale { assert |PadStart(digits, |a.fraction| - a.scale + 1)| == |a.fraction| - a.scale + 1; }
    }
  }

  /**
   * Normalising again changes nothing, unless the amount is zero with a unit and fewer decimals than the unit has
   * zeros: "0 mln" is written "0000000", which a second pass turns into "0".
   */
  lemma TwiceIsOnceIff(value: string, lower: Lowering)
    requires KeepsPlainText(lower)
    ensures var once := NormalizeAmount(value, lower);
            var read := ReadAmount(Cleaned(value, lower));
            NormalizeAmount(once, lower) == once
            <==> !(read.Some? && NumberOf(read.value.1.whole + read.value.1.fraction) == 0
                   && |read.value.1.fraction| < read.value.1.scale)
  {
    var text := Cleaned(value, lower);
    if ReadAmount(text).Some? {
      NoHalfNumeral(text);
      var a := ReadAmount(text).value.1;
      WrittenIsJoined(a);
      WrittenLeadsWithZeroIff(a);
      PlainIsNormalized(Written(a).0, Written(a).1, lower);
      PlainIsRewrittenIff(Written(a).0, Written(a).1);
    } else if IsHalfMillion(text) {
      PlainIsNormalized("500000", "", lower);
      PlainIsRewrittenIff("500000", "");
    }
  }

  lemma PlainIsNormalized(whole: string, fraction: string, lower: Lowering)
    requires KeepsPlainText(lower) && whole != "" && AllDigits(whole) && AllDigits(fraction)
    ensures NormalizeAmount(Joined(whole, fraction), lower) == WriteAmount(Amount(whole, fraction, 0))
  {
    var s := Joined(whole, fraction);
    PlainIsCleaned(s, lower);
    PlainIsRead(whole, fraction);
  }

  const ZERO_MILLION: string := "0 mln"

  lemma ZeroMillionIsCleaned(lower: Lowering)
    requires lower(ZERO_MILLION) == ZERO_MILLION
    ensures Cleaned(ZERO_MILLION, lower) == ZERO_MILLION && !IsHalfMillion(ZERO_MILLION)
  {
    var s := ZERO_MILLION;
    assert s[0] == '0' && s[|s| - 1] == 'n';
    assert TrimStart(s) == s && TrimEnd(s) == s;
    LastOf(s, "uzs"); LastOf(s, "som"); LastOf(s, "сум");
    LastOf(s, "so‘m"); LastOf(s, "so’m"); LastOf(s, "so'm"); LastOf(s, "soʻm");
  }

  lemma ZeroMillionIsRead()
    ensures ReadAmount(ZERO_MILLION) == Some(("0", Amount("0", "", 6)))
  {
    var s := ZERO_MILLION;
    assert s == "0" + " mln" && s[2..] == "mln";
    DigitsLead("0", " mln");
    DigitsLead("", "mln");
    assert "" + "mln" == "mln" && NumeralLength("mln") == 0 && NumeralLength(s) == 1;
    assert s[..1] == "0" && s[1..] == " mln" && " mln"[1..] == "mln" && TrimStart(s[1..]) == "mln";
    DigitsLead("0", "");
    assert "0" + "" == "0" && LeadingDigits("0") == 1;
    NothingToRemove("0", ' ');
    NoCommaToChange("0");
  }

  /** The exception at work: "0 mln" comes out as seven zeros, and seven zeros as one. */
  lemma ZeroMillionShrinks(lower: Lowering)
    requires KeepsPlainText(lower) && lower(ZERO_MILLION) == ZERO_MILLION
    ensures NormalizeAmount(ZERO_MILLION, lower) == Zeros(7)
    ensures NormalizeAmount(Zeros(7), lower) == "0"
  {
    ZeroMillionIsCleaned(lower);
    ZeroMillionIsRead();
    ZeroMillionIsWritten();
    PlainIsNormalized(Zeros(7), "", lower);
  }

  lemma ZeroMillionIsWritten()
    ensures WriteAmount(Amount("0", "", 6)) == Zeros(7)
    ensures WriteAmount(Amount(Zeros(7), "", 0)) == "0"
  {
    StripAllZeros(7);
    assert "0" + "" == "0" && "0" + Zeros(6) == Zeros(7);
    assert Zeros(7) + "" == Zeros(7) && "0" + Zeros(0) == "0";
  }

  lemma {:induction false} StripAllZeros(k: nat)
    requires k > 0
    ensures StripZeros(Zeros(k)) == "0"
  {
    if k > 1 {
      assert Zeros(k)[1..] == Zeros(k - 1);
      StripAllZeros(k - 1);
    }
  }

  // ---------- Grouping ----------

  predicate Three(groups: seq<string>) {
    forall g :: g in groups ==> |g| == 3 && AllDigits(g)
  }

  /** The groups with a comma before each. */
  function Commas(groups: seq<string>): string {
    if groups == [] then "" else "," + groups[0] + Commas(groups[1..])
  }

  function Digits(groups: seq<string>): string {
    if groups == [] then "" else groups[0] + Digits(groups[1..])
  }

  lemma {:induction false} CommasAreThousands(groups: seq<string>)
    requires Three(groups) && groups != []
    ensures Thousands(Commas(groups)) && Commas(groups)[0] == ','
    ensures Without(Commas(groups), ',') == Digits(groups)
  {
    var g, rest := groups[0], groups[1..];
    var s := Commas(groups);
    assert g in groups && s == "," + g + Commas(rest);
    assert s[1..4] == g && s[4..] == Commas(rest);
    if rest != [] { CommasAreThousands(rest); }
    assert s[1..] == g + Commas(rest);
    WithoutBehindDigits(g, Commas(rest));
  }

  lemma {:induction false} WithoutBehindDigits(digits: string, rest: string)
    requires AllDigits(digits)
    ensures Without(digits + rest, ',') == digits + Without(rest, ',')
  {
    if digits == "" {
      assert digits + rest == rest;
    } else {
      assert (digits + rest)[0] == digits[0] && (digits + rest)[1..] == digits[1..] + rest;
      WithoutBehindDigits(digits[1..], rest);
    }
  }

  lemma {:induction false} ThousandsAreCommas(s: string) returns (groups: seq<string>)
    requires Thousands(s)
    ensures groups != [] && Three(groups) && s == Commas(groups)
    decreases |s|
  {
    var rest := [];
    if |s| > 4 { rest := ThousandsAreCommas(s[4..]); }
    groups := [s[1..4]] + rest;
    assert groups[1..] == rest && s == "," + s[1..4] + s[4..];
  }

  /** One to three digits and then groups of three, each behind a comma, mean the digits without the commas. */
  lemma GroupsAreJoined(head: string, groups: seq<string>)
    requires 1 <= |head| <= 3 && AllDigits(head) && groups != [] && Three(groups)
    ensures Grouped(head + Commas(groups)) && Ungrouped(head + Commas(groups)) == head + Digits(groups)
  {
    var s := head + Commas(groups);
    CommasAreThousands(groups);
    DigitsLead(head, Commas(groups));
    assert s[|head|..] == Commas(groups);
    WithoutBehindDigits(head, Commas(groups));
    NoBlanks(groups);
    NothingToRemove(s, ' ');
  }

  lemma {:induction false} NoBlanks(groups: seq<string>)
    requires Three(groups)
    ensures ' ' !in Commas(groups)
  {
    if groups != [] {
      assert groups[0] in groups;
      NoBlanks(groups[1..]);
    }
  }

  /** Nothing else is grouped. */
  lemma GroupedIsInGroups(number: string) returns (head: string, groups: seq<string>)
    requires Grouped(number)
    ensures 1 <= |head| <= 3 && AllDigits(head) && groups != [] && Three(groups) && number == head + Commas(groups)
  {
    var d := LeadingDigits(number);
    head := number[..d];
    groups := ThousandsAreCommas(number[d..]);
  }

  // ---------- Which amounts are understood ----------

  /** What a unit word multiplies by. */
  function Factor(unit: string): Option<nat> {
    if unit == "" then Some(1)
    else if unit in {"k", "min", "ming"} then Some(1_000)
    else if unit in {"mln", "million"} then Some(1_000_000)
    else None
  }

  lemma ScaleIsFactor(unit: string)
    ensures Scale(unit).Some? <==> Factor(unit).Some?
    ensures Scale(unit).Some? ==> Pow10(Scale(unit).value) == Factor(unit).value
  {
    assert Pow10(0) == 1 && Pow10(1) == 10 && Pow10(2) == 100 && Pow10(3) == 1_000;
    assert Pow10(4) == 10_000 && Pow10(5) == 100_000 && Pow10(6) == 1_000_000;
  }

  /**
   * Text is understood exactly if it starts with a numeral, what follows is blank or a unit, and the numeral without
   * blanks is grouped in thousands or has one decimal mark at most; its amount then is the numeral times the unit.
   */
  lemma UnderstoodIff(text: string)
    ensures var k := NumeralLength(text);
            var number := Without(text[..k], ' ');
            var unit := TrimStart(text[k..]);
            && (ReadAmount(text).Some? <==>
                  k > 0 && Factor(unit).Some?
                  && SplitAtPoint(if Grouped(number) then Without(number, ',') else CommaToPoint(number)).Some?)
            && (ReadAmount(text).Some? ==>
                  ReadAmount(text).value.0 == text[..k] && Pow10(ReadAmount(text).value.1.scale) == Factor(unit).value)
  {
    ScaleIsFactor(TrimStart(text[NumeralLength(text)..]));
  }

  lemma {:induction false} UnitEndsNumeral(whole: string, fraction: string, rest: string)
    requires whole != "" && AllDigits(whole) && AllDigits(fraction) && NoNumeralFollows(rest)
    ensures NumeralLength(Joined(whole, fraction) + rest) == |Joined(whole, fraction)|
  {
    if fraction == "" {
      DigitsEndNumeral(whole, rest);
    } else {
      var tail := fraction + rest;
      DigitsEndNumeral(fraction, rest);
      PointContinuesNumeral(whole, tail);
      assert Joined(whole, fraction) + rest == whole + "." + tail;
    }
  }

  lemma {:induction false} PointContinuesNumeral(whole: string, tail: string)
    requires whole != "" && AllDigits(whole) && NumeralLength(tail) > 0
    ensures NumeralLength(whole + "." + tail) == |whole| + 1 + NumeralLength(tail)
  {
    var s := whole + "." + tail;
    DigitsLead(whole, "." + tail);
    assert s == whole + ("." + tail);
    assert s[|whole|] == '.' && s[|whole| + 1..] == tail;
  }

  /** The rest starts with no digit, nor with a separator before one. */
  predicate NoNumeralFollows(rest: string) {
    rest == "" || (!IsDigit(rest[0]) && (rest[0] in " ,." ==> |rest| == 1 || !IsDigit(rest[1])))
  }

  lemma {:induction false} DigitsEndNumeral(digits: string, rest: string)
    requires digits != "" && AllDigits(digits) && NoNumeralFollows(rest)
    ensures NumeralLength(digits + rest) == |digits|
  {
    DigitsLead(digits, rest);
    if rest != "" {
      assert (digits + rest)[|digits|] == rest[0] && (digits + rest)[|digits| + 1..] == rest[1..];
      if |rest| > 1 { assert LeadingDigits(rest[1..]) == 0 <==> !IsDigit(rest[1]); }
    }
  }

  /** A plain numeral with a unit, a blank between them or not, is read with that unit. */
  lemma {:induction false} PlainWithUnitIsRead(whole: string, fraction: string, blank: bool, unit: string)
    requires whole != "" && AllDigits(whole) && AllDigits(fraction)
    requires unit in {"k", "min", "ming", "mln", "million"}
    ensures ReadAmount(Joined(whole, fraction) + (if blank then " " + unit else unit))
            == Some((Joined(whole, fraction), Amount(whole, fraction, Scale(unit).value)))
  {
    var s, rest := Joined(whole, fraction), if blank then " " + unit else unit;
    UnitFollows(blank, unit);
    UnitEndsNumeral(whole, fraction, rest);
    assert (s + rest)[..|s|] == s && (s + rest)[|s|..] == rest;
    NumeralIsWhole(whole, fraction);
    PlainIsUngrouped(s);
  }

  lemma UnitFollows(blank: bool, unit: string)
    requires unit in {"k", "min", "ming", "mln", "million"}
    ensures var rest := if blank then " " + unit else unit; NoNumeralFollows(rest) && TrimStart(rest) == unit
  {
    assert !IsDigit(unit[0]) && unit[0] !in " ,." && !IsSpace(unit[0]);
    if blank { assert (" " + unit)[1..] == unit && (" " + unit)[1] == unit[0]; }
  }

  /** A decimal comma is read as a point. */
  lemma DecimalCommaIsRead(whole: string, fraction: string)
    requires whole != "" && fraction != "" && AllDigits(whole) && AllDigits(fraction)
    ensures !Grouped(whole + "," + fraction) ==> Ungrouped(whole + "," + fraction) == Joined(whole, fraction)
  {
    var s := whole + "," + fraction;
    NothingToRemove(s, ' ');
    CommaBecomesPoint(whole, fraction);
  }

  lemma {:induction false} CommaBecomesPoint(whole: string, rest: string)
    requires AllDigits(whole)
    ensures CommaToPoint(whole + "," + rest) == whole + "." + rest
  {
    var s := whole + "," + rest;
    if whole == "" {
      assert s[0] == ',' && s[1..] == rest;
    } else {
      assert s[0] == whole[0] && s[1..] == whole[1..] + "," + rest;
      CommaBecomesPoint(whole[1..], rest);
    }
  }

  /** The spellings of the currency. */
  const CURRENCIES: set<string> := {"uzs", "som", "сум", "so‘m", "so’m", "so'm", "soʻm"}

  /** A plain amount is understood the same with the currency behind it. */
  lemma CurrencyIsDropped(s: string, currency: string)
    requires currency in CURRENCIES && s != "" && IsDigit(s[|s| - 1])
    ensures DropCurrency(s + " " + currency) == s + " " && Trim(s + " ") == Trim(s)
  {
    CurrencyIsCut(s + " ", currency);
    TrimBlankBehind(s);
  }

  lemma CurrencyIsCut(p: string, currency: string)
    requires currency in CURRENCIES
    ensures DropCurrency(p + currency) == p
  {
    assert (p + currency)[..|p|] == p;
    if |currency| == 3 { ShortIsCut(p, currency); } else { LongIsCut(p, currency); }
  }

  lemma ShortIsCut(p: string, currency: string)
    requires currency == "uzs" || currency == "som" || currency == "сум"
    ensures DropCurrency(p + currency) == (p + currency)[..|p|]
  {
    EndsBehind(p, currency, currency);
  }

  lemma LongIsCut(p: string, currency: string)
    requires currency == "so‘m" || currency == "so’m" || currency == "so'm" || currency == "soʻm"
    ensures DropCurrency(p + currency) == (p + currency)[..|p|]
  {
    assert currency[1] == 'o';
    EndsBehind(p, currency, "uzs"); EndsBehind(p, currency, "som"); EndsBehind(p, currency, "сум");
    EndsBehind(p, currency, currency);
  }

  lemma EndsBehind(p: string, word: string, suffix: string)
    requires 0 < |suffix| <= |word|
    ensures EndsWith(p + word, suffix) <==> word[|word| - |suffix|..] == suffix
    ensures EndsWith(p + word, suffix) ==> word[|word| - |suffix|] == suffix[0]
  {
    var t := p + word;
    assert t[|t| - |suffix|..] == word[|word| - |suffix|..];
  }

  lemma {:induction false} TrimBlankBehind(s: string)
    requires s != "" && !IsSpace(s[|s| - 1])
    ensures Trim(s + " ") == Trim(s)
    decreases |s|
  {
    if IsSpace(s[0]) {
      assert (s + " ")[1..] == s[1..] + " ";
      TrimBlankBehind(s[1..]);
    } else {
      assert TrimStart(s + " ") == s + " " && TrimStart(s) == s && (s + " ")[..|s|] == s;
      assert TrimEnd(s) == s && TrimEnd(s + " ") == TrimEnd(s);
    }
  }

  /** Half a million, in its two spellings. */
  lemma HalfAMillion(value: string, lower: Lowering, word: string)
    requires Cleaned(value, lower) == "yarim" + " " + word && (word == "mln" || word == "million")
    ensures NormalizeAmount(value, lower) == "500000"
  {
    HalfOf(word);
    assert IsHalfMillion(Cleaned(value, lower));
  }

  lemma HalfOf(word: string)
    requires word == "mln" || word == "million"
    ensures IsHalfMillion("yarim" + " " + word)
  {
    var text := "yarim" + " " + word;
    assert text[..5] == "yarim" && text[5..] == " " + word && (" " + word)[1..] == word;
    assert TrimStart(" " + word) == word;
  }

  /** Text that is not understood is returned as it is. */
  lemma OtherTextIsKept(value: string, lower: Lowering)
    requires ReadAmount(Cleaned(value, lower)).None? && !IsHalfMillion(Cleaned(value, lower))
    ensures NormalizeAmount(value, lower) == value
  {
  }
}
