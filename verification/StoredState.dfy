// How a stored conversation is read back, what a turn takes from its understanding, and how money is rounded.
module StoredState {
  import opened Common
  import opened SalesState
  import opened SalesRuns
  import opened SalesFacts

  // ---------- Text ----------

  predicate HasText(s: string) {
    exists c :: c in s && !IsSpace(c)
  }

  lemma {:induction false} StartHasText(s: string)
    ensures TrimStart(s) != "" <==> HasText(s)
  {
    if s != "" {
      if IsSpace(s[0]) {
        StartHasText(s[1..]);
        assert s == [s[0]] + s[1..];
      } else {
        assert s[0] in s;
      }
    }
  }

  lemma {:induction false} EndHasText(s: string)
    ensures TrimEnd(s) != "" <==> HasText(s)
  {
    if s != "" {
      var n := |s| - 1;
      if IsSpace(s[n]) {
        EndHasText(s[..n]);
        assert s == s[..n] + [s[n]];
      } else {
        assert s[n] in s;
      }
    }
  }

  lemma {:induction false} StartKeepsText(s: string)
    ensures HasText(TrimStart(s)) <==> HasText(s)
  {
    if s != "" && IsSpace(s[0]) {
      StartKeepsText(s[1..]);
      assert s == [s[0]] + s[1..];
    }
  }

  lemma TrimHasText(s: string)
    ensures Trim(s) != "" <==> HasText(s)
  {
    StartKeepsText(s);
    EndHasText(TrimStart(s));
  }

  lemma {:induction false} CollapseHasText(s: string)
    ensures HasText(Collapse(s)) <==> HasText(s)
  {
    if s != "" {
      CollapseHasText(s[1..]);
      assert s == [s[0]] + s[1..];
      if !IsSpace(s[0]) { assert s[0] in s && s[0] in Collapse(s); }
      assert forall c :: c in Collapse(s) ==> c in Collapse(s[1..]) || c == s[0] || c == ' ';
      assert forall c :: c in Collapse(s[1..]) ==> c in Collapse(s);
    }
  }

  // ---------- The stored state ----------

  /** A text is kept, without white space around it, if it holds more than that; at most three hundred characters. */
  function Reread(text: string): Option<string> {
    if HasText(text) then Some(Prefix(Trim(text), 300)) else None
  }

  lemma KeptIsReread(text: string)
    ensures Reread(text) == if Trim(text) != "" then Some(Kept(text)) else None
    ensures Reread(text) == if Kept(text) != "" then Some(Kept(text)) else None
  {
    TrimHasText(text);
  }

  /** Slots, facts and the accepted name keep their texts, facts with status and source; the intent stays. */
  lemma TextsAreReread(s: State, k: Key)
    ensures SlotAt(Coerce(s), k) == if k in s.slots then Reread(s.slots[k]) else None
    ensures FactOf(Coerce(s), k)
            == if k in s.facts && HasText(s.facts[k].value)
               then Some(Fact(Prefix(Trim(s.facts[k].value), 300), s.facts[k].status, s.facts[k].source)) else None
    ensures Coerce(s).acceptedOffer == if s.acceptedOffer.Some? then Reread(s.acceptedOffer.value) else None
    ensures Coerce(s).intent == s.intent
  {
    if k in s.slots { KeptIsReread(s.slots[k]); }
    if k in s.facts { KeptIsReread(s.facts[k].value); }
    if s.acceptedOffer.Some? { KeptIsReread(s.acceptedOffer.value); }
  }

  /** Prices below zero and quantities not above it are dropped; a quantity is at most a million. */
  lemma NumbersAreReread(s: State)
    ensures var t := Coerce(s);
            && t.quantity == (if s.quantity.None? || s.quantity.value <= 0.0 then None
                              else if s.quantity.value > 1_000_000.0 then Some(1_000_000.0) else s.quantity)
            && t.unitPrice == (if s.unitPrice == None || s.unitPrice.value < 0.0 then None else s.unitPrice)
            && t.totalPrice == (if s.totalPrice == None || s.totalPrice.value < 0.0 then None else s.totalPrice)
            && t.quotedPrice == (if s.quotedPrice == None || s.quotedPrice.value < 0.0 then None else s.quotedPrice)
            && t.previousQuote
               == (if s.previousQuote == None || s.previousQuote.value < 0.0 then None else s.previousQuote)
  {
  }

  /** An offer is read back exactly if its name holds text; its slots, price and stock are read like the state's. */
  lemma OfferIsReread(o: Offer, k: Key)
    ensures CoerceOffer(o).Some? <==> HasText(o.name)
    ensures HasText(o.name) ==>
              var t := CoerceOffer(o).value;
              && Some(t.name) == Reread(o.name)
              && (if k in t.slots then Some(t.slots[k]) else None)
                 == (if k in o.slots then Reread(o.slots[k]) else None)
              && t.unitPrice == (if o.unitPrice == None || o.unitPrice.value < 0.0 then None else o.unitPrice)
              && t.stock == (if o.stock == None || o.stock.value < 0.0 then None else o.stock)
  {
    KeptIsReread(o.name);
    if k in o.slots { KeptIsReread(o.slots[k]); }
  }

  /** The offers that can be read back, in order. */
  lemma {:induction false} OffersInParts(a: seq<Offer>, b: seq<Offer>)
    ensures CoerceOffers(a + b) == CoerceOffers(a) + CoerceOffers(b)
    ensures forall o :: CoerceOffers([o]) == if CoerceOffer(o).Some? then [CoerceOffer(o).value] else []
  {
    if a == [] {
      assert a + b == b;
    } else {
      assert (a + b)[0] == a[0] && (a + b)[1..] == a[1..] + b;
      OffersInParts(a[1..], b);
    }
  }

  /** The names that hold text, in order. */
  lemma {:induction false} NamesInParts(a: seq<string>, b: seq<string>)
    ensures CoerceNames(a + b) == CoerceNames(a) + CoerceNames(b)
    ensures forall x :: CoerceNames([x]) == if Reread(x).Some? then [Reread(x).value] else []
  {
    forall x ensures CoerceNames([x]) == if Reread(x).Some? then [Reread(x).value] else [] {
      KeptIsReread(x);
      assert [x][1..] == [];
    }
    if a == [] {
      assert a + b == b;
    } else {
      assert (a + b)[0] == a[0] && (a + b)[1..] == a[1..] + b;
      NamesInParts(a[1..], b);
    }
  }

  /**
   * The first five offers that can be read and the first ten names are kept. The single offer is the stored one, else
   * the first of the list; without a list it makes up the list.
   */
  lemma OffersAreReread(s: State)
    ensures var t, list, names := Coerce(s), CoerceOffers(s.offers), CoerceNames(s.offered);
            var single := if s.offer.Some? then CoerceOffer(s.offer.value) else None;
            && t.offered <= names && |t.offered| == Min(10, |names|)
            && if s.offers != [] then
                 && t.offers <= list && |t.offers| == Min(5, |list|)
                 && t.offer == if single.Some? then single else if list != [] then Some(list[0]) else None
               else
                 t.offer == single && t.offers == if single.Some? then [single.value] else []
  {
  }

  // ---------- The understanding of a turn ----------

  /** A slot is named exactly if its text is not blank; it is cut at five hundred characters. */
  lemma NamedIff(u: Understanding, k: Key)
    ensures k in NextSlots(u) <==> k in u.slots && HasText(u.slots[k])
    ensures k in NextSlots(u) ==> NextSlots(u)[k] == Prefix(Squeeze(u.slots[k]), 500)
  {
    if k in u.slots {
      CollapseHasText(u.slots[k]);
      TrimHasText(Collapse(u.slots[k]));
    }
  }

  lemma AcceptingKeepsOffers(lex: Lexicon, s: State, u: Understanding, o: Offer)
    requires !u.topicSwitch && OfferList(s) != []
    ensures var t := Opening(lex, s, u, Some(o)); t.offer == Some(o) && t.offers == OfferList(s)
  {
    var c := ClearUnavailable(lex, s);
    assert OfferList(c) == OfferList(s);
  }

  lemma ChosenKeepsOffers(lex: Lexicon, before: State, u: Understanding, text: string)
    requires Accepted(lex, before, u, text).Some?
    ensures var chosen := Selecting(lex, before, u, text).0;
            chosen.offer == Accepted(lex, before, u, text) && chosen.offers == OfferList(before)
  {
    var accepted, next := Accepted(lex, before, u, text), NextSlots(u);
    var start := Opening(lex, before, u, accepted);
    AcceptingKeepsOffers(lex, before, u, accepted.value);
    ProductKeepsOffers(lex, start, next, Selecting(lex, before, u, text).1, u.topicSwitch);
  }

  /** The list offers are chosen from: the last ones made, or the single one. */
  lemma OfferListIs(s: State)
    ensures s.offers != [] ==> OfferList(s) == s.offers
    ensures s.offers == [] && s.offer.Some? ==> OfferList(s) == [s.offer.value]
    ensures s.offers == [] && s.offer.None? ==> OfferList(s) == []
  {
  }

  lemma SelectedKeepsOffers(lex: Lexicon, previous: State, u: Understanding, text: string)
    ensures var result, chosen := Turn(lex, previous, u, text), Selecting(lex, Coerce(previous), u, text).0;
            result.offer == chosen.offer && result.offers == chosen.offers
  {
    TurnInStages(lex, previous, u, text);
    SelectedAside(lex, Coerce(previous), u, text);
  }

  /** Accepting an offer keeps the list it was chosen from, whatever else is named, and makes it the single one. */
  lemma OffersAfterAcceptance(lex: Lexicon, previous: State, u: Understanding, text: string)
    requires Accepted(lex, Coerce(previous), u, text).Some?
    ensures var before, result := Coerce(previous), Turn(lex, previous, u, text);
            && result.offer == Accepted(lex, before, u, text)
            && result.offers == OfferList(before)
  {
    SelectedKeepsOffers(lex, previous, u, text);
    ChosenKeepsOffers(lex, Coerce(previous), u, text);
  }

  // ---------- Money ----------

  /** One part in 2^52, which the code adds before rounding. */
  const EPSILON := 1.0 / 4503599627370496.0

  lemma FloorIff(x: real, n: int)
    ensures x.Floor as real / 100.0 == n as real / 100.0 <==> n as real <= x < n as real + 1.0
  {
    assert x.Floor == n <==> x.Floor as real == n as real;
  }

  lemma RoundMoneyIsFloor(v: real)
    ensures RoundMoney(v) == ((v + EPSILON) * 100.0 + 0.5).Floor as real / 100.0
  {
  }

  /** Money is rounded to the nearest hundredth, halves upwards. */
  lemma RoundedIff(v: real, hundredths: int)
    ensures RoundMoney(v) == hundredths as real / 100.0
            <==> hundredths as real - 0.5 <= (v + EPSILON) * 100.0 < hundredths as real + 0.5
  {
    var x := (v + EPSILON) * 100.0;
    RoundMoneyIsFloor(v);
    FloorIff(x + 0.5, hundredths);
  }

  /** Whole hundredths stay, and half a hundredth more goes up. */
  lemma HundredthsStay(hundredths: int)
    ensures RoundMoney(hundredths as real / 100.0) == hundredths as real / 100.0
    ensures RoundMoney(hundredths as real / 100.0 + 0.005) == (hundredths + 1) as real / 100.0
  {
    RoundedIff(hundredths as real / 100.0, hundredths);
    RoundedIff(hundredths as real / 100.0 + 0.005, hundredths + 1);
  }
}
