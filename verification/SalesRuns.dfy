// What every conversation guarantees, whatever the language rules extract and whatever the catalogue reports.
module SalesRuns {
  import opened Common
  import opened SalesState

  // ---------- Runs ----------

  datatype Event =
    | Customer(understanding: Understanding, text: string)
    | Catalogue(snapshot: Option<Snapshot>, scope: Scope)

  function After(lex: Lexicon, s: State, e: Event): State {
    match e
    case Customer(u, text) => Turn(lex, s, u, text)
    case Catalogue(snapshot, scope) => Read(lex, s, snapshot, scope)
  }

  /** The state after a conversation that started from nothing. */
  function Conversation(lex: Lexicon, events: seq<Event>): State {
    if events == [] then FRESH
    else After(lex, Conversation(lex, events[..|events| - 1]), events[|events| - 1])
  }

  function RowPrices(items: seq<Item>): set<real> {
    set i | i in items && i.price.Some? && i.price.value >= 0.0 :: i.price.value
  }

  function EventPrices(e: Event): set<real> {
    if e.Catalogue? && e.snapshot.Some?
    then RowPrices(e.snapshot.value.items) + RowPrices(e.snapshot.value.alternatives)
    else {}
  }

  /** Every price some catalogue row has carried so far. */
  function PricesSeen(events: seq<Event>): set<real> {
    if events == [] then {} else PricesSeen(events[..|events| - 1]) + EventPrices(events[|events| - 1])
  }

  // ---------- The ledger invariant ----------

  predicate Known(p: Option<real>, seen: set<real>) {
    p.Some? ==> p.value in seen && p.value >= 0.0
  }

  /** A total exists exactly beside a unit price and a quantity, and is their rounded product. */
  predicate Agrees(unitPrice: Option<real>, quantity: Option<real>, total: Option<real>) {
    && (total.Some? <==> unitPrice.Some? && quantity.Some?)
    && (total.Some? ==> total.value == LineTotal(unitPrice.value, quantity.value))
  }

  predicate TotalAgrees(s: State) { Agrees(s.unitPrice, s.quantity, s.totalPrice) }

  predicate OffersKnown(s: State, seen: set<real>) {
    && (forall o :: o in s.offers ==> Known(o.unitPrice, seen))
    && (s.offer.Some? ==> Known(s.offer.value.unitPrice, seen))
  }

  /** Proposals come from the customer, verdicts from the catalogue. */
  predicate FactsSourced(s: State) {
    forall k :: k in s.facts ==> (s.facts[k].status == Proposed <==> s.facts[k].source == FactSource.Customer)
  }

  predicate Sourced(s: State, seen: set<real>) {
    && FactsSourced(s) && OffersKnown(s, seen)
    && Known(s.unitPrice, seen) && Known(s.quotedPrice, seen) && Known(s.previousQuote, seen)
    && (s.quantity.Some? ==> 0.0 < s.quantity.value <= MAX_QUANTITY)
  }

  predicate Ledger(s: State, seen: set<real>) {
    TotalAgrees(s) && Sourced(s, seen)
  }

  // ---------- Edits that only keep or drop ----------

  predicate NoPrice(s: State) { s.unitPrice.None? && s.totalPrice.None? }

  predicate SamePrice(s: State, t: State) {
    t.unitPrice == s.unitPrice && t.totalPrice == s.totalPrice && t.quantity == s.quantity
  }

  predicate SameOrNone<T(==)>(a: Option<T>, b: Option<T>) { b == a || b.None? }

  /** Prices, quotes and offers are kept or dropped, never made up; facts stay sourced. */
  predicate Tame(s: State, t: State) {
    && (SamePrice(s, t) || NoPrice(t))
    && SameOrNone(s.quantity, t.quantity) && SameOrNone(s.quotedPrice, t.quotedPrice)
      && SameOrNone(s.previousQuote, t.previousQuote)
    && SameOrNone(s.offer, t.offer) && (t.offers == s.offers || t.offers == [])
    && (FactsSourced(s) ==> FactsSourced(t))
  }

  lemma TameTransitive(a: State, b: State, c: State)
    requires Tame(a, b) && Tame(b, c)
    ensures Tame(a, c)
  {
  }

  lemma TameKeepsSourced(s: State, t: State, seen: set<real>)
    requires Tame(s, t) && Sourced(s, seen)
    ensures Sourced(t, seen)
  {
  }

  lemma ProposeIsTame(s: State, k: Key, v: string, slots: map<Key, string>, changed: bool)
    ensures Tame(s, ProposeIf(s.(slots := slots), k, v, changed))
    ensures ProposeIf(s.(slots := slots), k, v, changed).slots == slots
  {
  }

  lemma ClearSelectionIsTame(s: State)
    ensures Tame(s, ClearSelection(s)) && NoPrice(ClearSelection(s)) && ClearSelection(s).quantity.None?
  {
  }

  lemma ClearUnavailableIsTame(lex: Lexicon, s: State)
    ensures Tame(s, ClearUnavailable(lex, s)) && (ClearUnavailable(lex, s) == s || NoPrice(ClearUnavailable(lex, s)))
  {
  }

  function WithFamily(s: State, v: string, changed: bool): State {
    ProposeIf(s.(slots := s.slots[Family := v]), Family, v, changed)
  }

  lemma FamilyIsTame(s: State, family: Option<string>, changed: bool)
    ensures Tame(s, if family.Some? then WithFamily(s, family.value, changed) else s.(slots := s.slots - {Family}))
  {
    if family.Some? { ProposeIsTame(s, Family, family.value, s.slots[Family := family.value], changed); }
  }

  lemma NamedProductIsTame(lex: Lexicon, s: State, next: map<Key, string>, topicSwitch: bool)
    requires Product in next || Family in next
    ensures Tame(s, NamedProduct(lex, s, next, topicSwitch))
  {
    ClearSelectionIsTame(s);
    var c := Cleared(lex, s, next, topicSwitch);
    var product := NamedIn(next);
    var newProduct := Product !in c.slots || Differs(lex, c, Product, product);
    ProposeIsTame(c, Product, product, c.slots[Product := product], newProduct);
    var named := ProposeIf(c.(slots := c.slots[Product := product]), Product, product, newProduct);
    TameTransitive(s, c, named);
    var family := ResolvedFamily(lex, c, next);
    var newFamily := family.Some? && (Family !in c.slots || Differs(lex, c, Family, family.value));
    FamilyIsTame(named, family, newFamily);
    TameTransitive(s, named, NamedProduct(lex, s, next, topicSwitch));
  }

  lemma ExtractedProductIsTame(lex: Lexicon, s: State, found: State)
    requires Product in found.slots
    ensures Tame(s, ExtractedProduct(lex, s, found))
  {
  }

  lemma SelectModelIsTame(lex: Lexicon, s: State, next: map<Key, string>)
    ensures Tame(s, SelectModel(lex, s, next))
  {
    if Model in next {
      var model := next[Model];
      var changed := Model !in s.slots || Differs(lex, s, Model, model);
      ProposeIsTame(s, Model, model, s.slots[Model := model], changed);
      var named := ProposeIf(s.(slots := s.slots[Model := model]), Model, model, changed);
      ProposeIsTame(named, Variant, model, named.slots[Variant := model], changed);
    }
  }

  lemma SelectAttributeIsTame(lex: Lexicon, s: State, next: map<Key, string>, k: Key)
    ensures Tame(s, SelectAttribute(lex, s, next, k))
  {
    if k in next {
      ProposeIsTame(s, k, next[k], s.slots[k := next[k]], k !in s.slots || Differs(lex, s, k, next[k]));
    }
  }

  lemma FourSteps(a: State, b: State, c: State, d: State, e: State)
    requires Tame(a, b) && Tame(b, c) && Tame(c, d) && Tame(d, e)
    ensures Tame(a, e)
  {
    TameTransitive(a, b, c);
    TameTransitive(a, c, d);
    TameTransitive(a, d, e);
  }

  lemma SelectNamedIsTame(lex: Lexicon, s: State, next: map<Key, string>)
    ensures Tame(s, SelectNamed(lex, s, next))
  {
    var m := SelectModel(lex, s, next);
    var st := SelectAttribute(lex, m, next, Storage);
    var v := SelectAttribute(lex, st, next, Variant);
    var c := SelectAttribute(lex, v, next, Color);
    SelectModelIsTame(lex, s, next);
    SelectAttributeIsTame(lex, m, next, Storage);
    SelectAttributeIsTame(lex, st, next, Variant);
    SelectAttributeIsTame(lex, v, next, Color);
    SelectAttributeIsTame(lex, c, next, Size);
    FourSteps(s, m, st, v, c);
    TameTransitive(s, c, SelectAttribute(lex, c, next, Size));
  }

  lemma SelectExtractedIsTame(s: State, next: map<Key, string>, found: State, before: State, k: Key, allowed: bool)
    ensures Tame(s, SelectExtracted(s, next, found, before, k, allowed))
  {
  }

  lemma SelectLiteralsIsTame(s: State, next: map<Key, string>, found: State, before: State, allowed: bool)
    ensures Tame(s, SelectLiterals(s, next, found, before, allowed))
  {
    var v := SelectExtracted(s, next, found, before, Variant, allowed && Product in s.slots);
    var st := SelectExtracted(v, next, found, before, Storage, allowed);
    var c := SelectExtracted(st, next, found, before, Color, allowed);
    SelectExtractedIsTame(s, next, found, before, Variant, allowed && Product in s.slots);
    SelectExtractedIsTame(v, next, found, before, Storage, allowed);
    SelectExtractedIsTame(st, next, found, before, Color, allowed);
    SelectExtractedIsTame(c, next, found, before, Size, allowed);
    FourSteps(s, v, st, c, SelectExtracted(c, next, found, before, Size, allowed));
  }

  lemma SelectProductIsTame(lex: Lexicon, s: State, next: map<Key, string>, found: State, topicSwitch: bool)
    ensures Tame(s, SelectProduct(lex, s, next, found, topicSwitch))
  {
    if Product in next || Family in next {
      NamedProductIsTame(lex, s, next, topicSwitch);
    } else if Product !in s.slots && Slot(found, Product).Some? {
      ExtractedProductIsTame(lex, s, found);
    }
  }

  // ---------- Turns keep the ledger ----------

  lemma {:induction false} CoercedOffersKnown(offers: seq<Offer>, seen: set<real>)
    requires forall o :: o in offers ==> Known(o.unitPrice, seen)
    ensures forall o :: o in CoerceOffers(offers) ==> Known(o.unitPrice, seen)
  {
    forall o | o in CoerceOffers(offers) ensures Known(o.unitPrice, seen) {
      var p :| p in offers && CoerceOffer(p) == Some(o);
      assert Known(p.unitPrice, seen);
    }
  }

  lemma CoerceKeepsSourced(s: State, seen: set<real>)
    requires Sourced(s, seen)
    ensures Sourced(Coerce(s), seen)
    ensures Coerce(s).unitPrice == s.unitPrice && Coerce(s).quantity == s.quantity
  {
    CoercedOffersKnown(s.offers, seen);
    assert FactsSourced(Coerce(s));
    assert OffersKnown(Coerce(s), seen);
  }

  lemma RoundedIsNonNegative(p: real, q: real)
    requires p >= 0.0 && q >= 0.0
    ensures LineTotal(p, q) >= 0.0
  {
    NonNegativeProduct(p, q);
    RoundingKeepsSign(p * q);
  }

  lemma NonNegativeProduct(p: real, q: real)
    requires p >= 0.0 && q >= 0.0
    ensures p * q >= 0.0
  {
  }

  lemma RoundingKeepsSign(v: real)
    requires v >= 0.0
    ensures RoundMoney(v) >= 0.0
  {
  }

  lemma CoerceKeepsTotal(s: State, seen: set<real>)
    requires Ledger(s, seen)
    ensures SamePrice(s, Coerce(s))
  {
    if s.totalPrice.Some? { RoundedIsNonNegative(s.unitPrice.value, s.quantity.value); }
  }

  lemma AcceptKeepsSourced(lex: Lexicon, s: State, o: Offer, seen: set<real>)
    requires Sourced(s, seen) && Known(o.unitPrice, seen)
    ensures Sourced(AcceptOffer(lex, s, o), seen)
    ensures AcceptOffer(lex, s, o).totalPrice.None? && AcceptOffer(lex, s, o).unitPrice == o.unitPrice
  {
    ClearSelectionIsTame(s);
    var c := ClearSelection(s);
    TameKeepsSourced(s, c, seen);
    assert forall x :: x in OfferList(s) ==> Known(x.unitPrice, seen);
    assert FactsSourced(AcceptOffer(lex, s, o));
  }

  lemma AcceptedIsKnown(lex: Lexicon, s: State, u: Understanding, text: string, seen: set<real>)
    requires Sourced(s, seen)
    ensures var a := Accepted(lex, s, u, text); a.Some? ==> Known(a.value.unitPrice, seen)
  {
    assert forall o :: o in OfferList(s) ==> Known(o.unitPrice, seen);
  }

  /** What the opening of a turn does to the price: keep it, drop it, or take over the accepted offer's. */
  lemma OpeningPrices(lex: Lexicon, s: State, u: Understanding, accepted: Option<Offer>)
    requires u.topicSwitch ==> accepted.None?
    ensures var t := Opening(lex, s, u, accepted);
            if accepted.Some? then t.totalPrice.None? && t.unitPrice == accepted.value.unitPrice else Tame(s, t)
  {
    ClearSelectionIsTame(s);
    ClearUnavailableIsTame(lex, s);
  }

  lemma OpeningKeepsSourced(lex: Lexicon, s: State, u: Understanding, accepted: Option<Offer>, seen: set<real>)
    requires Sourced(s, seen) && (accepted.Some? ==> Known(accepted.value.unitPrice, seen))
    requires u.topicSwitch ==> accepted.None?
    ensures Sourced(Opening(lex, s, u, accepted), seen)
  {
    if accepted.Some? {
      ClearUnavailableIsTame(lex, s);
      TameKeepsSourced(s, ClearUnavailable(lex, s), seen);
      AcceptKeepsSourced(lex, ClearUnavailable(lex, s), accepted.value, seen);
    } else {
      OpeningPrices(lex, s, u, accepted);
      TameKeepsSourced(s, Opening(lex, s, u, accepted), seen);
    }
  }

  /** The turn up to the quantity: everything that decides the selection. */
  function Selected(lex: Lexicon, before: State, u: Understanding, text: string): State {
    var chosen := Selecting(lex, before, u, text).0;
    var found := Selecting(lex, before, u, text).1;
    var next := NextSlots(u);
    ClearIfMoved(chosen,
        SelectLiterals(SelectNamed(lex, chosen, next), next, found, before, Accepted(lex, before, u, text).None?))
  }

  lemma TurnInStages(lex: Lexicon, previous: State, u: Understanding, text: string)
    ensures var before := Coerce(previous);
            Turn(lex, previous, u, text)
            == Quote(SettleQuantity(Selected(lex, before, u, text), u, Selecting(lex, before, u, text).1,
                before)).(intent := u.intent)
  {
  }

  lemma SelectingIsTame(lex: Lexicon, before: State, u: Understanding, text: string)
    ensures Tame(Opening(lex, before, u, Accepted(lex, before, u, text)), Selecting(lex, before, u, text).0)
  {
    var accepted := Accepted(lex, before, u, text);
    var start := Opening(lex, before, u, accepted);
    var next := NextSlots(u);
    var live := DropStaleOffers(lex, start, next, accepted);
    SelectProductIsTame(lex, live, next, lex.extract(start, text), u.topicSwitch);
    TameTransitive(start, live, Selecting(lex, before, u, text).0);
  }

  lemma SelectedIsTame(lex: Lexicon, before: State, u: Understanding, text: string)
    ensures Tame(Selecting(lex, before, u, text).0, Selected(lex, before, u, text))
  {
    var chosen := Selecting(lex, before, u, text).0;
    var found := Selecting(lex, before, u, text).1;
    var next := NextSlots(u);
    var named := SelectNamed(lex, chosen, next);
    var allowed := Accepted(lex, before, u, text).None?;
    SelectNamedIsTame(lex, chosen, next);
    SelectLiteralsIsTame(named, next, found, before, allowed);
    var literal := SelectLiterals(named, next, found, before, allowed);
    TameTransitive(chosen, named, literal);
    assert Tame(literal, ClearIfMoved(chosen, literal));
    TameTransitive(chosen, literal, ClearIfMoved(chosen, literal));
  }

  lemma SettlingKeepsSourced(s: State, u: Understanding, found: State, before: State, seen: set<real>)
    requires Sourced(s, seen)
    ensures var t := SettleQuantity(s, u, found, before); Sourced(Quote(t).(intent := u.intent), seen)
  {
    var t := SettleQuantity(s, u, found, before);
    SettlingFrame(s, u, found, before);
  }

  lemma SettlingFrame(s: State, u: Understanding, found: State, before: State)
    ensures var t := SettleQuantity(s, u, found, before);
            && t == s.(quantity := t.quantity, totalPrice := t.totalPrice)
            && (t.quantity == s.quantity || (t.quantity.Some? && 0.0 < t.quantity.value <= MAX_QUANTITY))
  {
  }

  lemma SettlingAgrees(s: State, u: Understanding, found: State, before: State)
    requires s.unitPrice.None? ==> s.totalPrice.None?
    ensures TotalAgrees(Quote(SettleQuantity(s, u, found, before)).(intent := u.intent))
  {
  }

  lemma TurnKeeps(lex: Lexicon, s: State, u: Understanding, text: string, seen: set<real>)
    requires Ledger(s, seen)
    ensures Ledger(Turn(lex, s, u, text), seen)
  {
    var before := Coerce(s);
    CoerceKeepsSourced(s, seen);
    CoerceKeepsTotal(s, seen);
    var accepted := Accepted(lex, before, u, text);
    AcceptedIsKnown(lex, before, u, text, seen);
    OpeningKeepsSourced(lex, before, u, accepted, seen);
    OpeningPrices(lex, before, u, accepted);
    SelectionKeeps(lex, before, u, text, seen);
    var selected := Selected(lex, before, u, text);
    var found := Selecting(lex, before, u, text).1;
    SettlingKeepsSourced(selected, u, found, before, seen);
    SettlingAgrees(selected, u, found, before);
    TurnInStages(lex, s, u, text);
  }

  lemma SelectionKeeps(lex: Lexicon, before: State, u: Understanding, text: string, seen: set<real>)
    requires var start := Opening(lex, before, u, Accepted(lex, before, u, text));
             Sourced(start, seen) && (start.unitPrice.None? ==> start.totalPrice.None?)
    ensures var t := Selected(lex, before, u, text); Sourced(t, seen) && (t.unitPrice.None? ==> t.totalPrice.None?)
  {
    var start := Opening(lex, before, u, Accepted(lex, before, u, text));
    var chosen, t := Selecting(lex, before, u, text).0, Selected(lex, before, u, text);
    SelectingIsTame(lex, before, u, text);
    SelectedIsTame(lex, before, u, text);
    TameTransitive(start, chosen, t);
    TameKeepsSourced(start, t, seen);
  }

  // ---------- Catalogue reads keep the ledger ----------

  lemma {:induction false} InsertIsPermutation(lex: Lexicon, s: State, sorted: seq<Offer>, o: Offer)
    ensures multiset(InsertRanked(lex, s, sorted, o)) == multiset(sorted) + multiset{o}
    decreases |sorted|
  {
    if sorted != [] {
      assert sorted == [sorted[0]] + sorted[1..];
      InsertIsPermutation(lex, s, sorted[1..], o);
    }
  }

  /** Ranking only reorders the offers. */
  lemma {:induction false} RankedIsPermutation(lex: Lexicon, s: State, offers: seq<Offer>)
    ensures multiset(Ranked(lex, s, offers)) == multiset(offers)
    decreases |offers|
  {
    if offers != [] {
      var n := |offers| - 1;
      assert offers == offers[..n] + [offers[n]];
      RankedIsPermutation(lex, s, offers[..n]);
      InsertIsPermutation(lex, s, Ranked(lex, s, offers[..n]), offers[n]);
    }
  }

  predicate Descending(lex: Lexicon, s: State, offers: seq<Offer>) {
    forall i, j :: 0 <= i < j < |offers| ==> lex.rank(s, offers[i]) >= lex.rank(s, offers[j])
  }

  lemma {:induction false} InsertStaysDescending(lex: Lexicon, s: State, sorted: seq<Offer>, o: Offer)
    requires Descending(lex, s, sorted)
    ensures Descending(lex, s, InsertRanked(lex, s, sorted, o))
    decreases |sorted|
  {
    if sorted != [] && lex.rank(s, o) <= lex.rank(s, sorted[0]) {
      var rest := InsertRanked(lex, s, sorted[1..], o);
      InsertStaysDescending(lex, s, sorted[1..], o);
      InsertIsPermutation(lex, s, sorted[1..], o);
      forall i | 0 <= i < |rest| ensures lex.rank(s, sorted[0]) >= lex.rank(s, rest[i]) {
        assert rest[i] in multiset(rest);
        if rest[i] != o {
          var j :| 0 <= j < |sorted[1..]| && sorted[1..][j] == rest[i];
          assert sorted[j + 1] == rest[i];
        }
      }
    }
  }

  /** And the best ranked come first, so the five kept outrank the rest. */
  lemma {:induction false} RankedIsDescending(lex: Lexicon, s: State, offers: seq<Offer>)
    ensures Descending(lex, s, Ranked(lex, s, offers))
    decreases |offers|
  {
    if offers != [] {
      var n := |offers| - 1;
      RankedIsDescending(lex, s, offers[..n]);
      InsertStaysDescending(lex, s, Ranked(lex, s, offers[..n]), offers[n]);
    }
  }

  lemma OffersOfRows(lex: Lexicon, s: State, items: seq<Item>, seen: set<real>)
    requires RowPrices(items) <= seen
    ensures var offers := Prefix(Ranked(lex, s, ToOffers(lex, Prefix(Offerable(items), 25))), 5);
            forall o :: o in offers ==> Known(o.unitPrice, seen)
  {
    var rows := Prefix(Offerable(items), 25);
    var offers := ToOffers(lex, rows);
    var ranked := Ranked(lex, s, offers);
    forall o | o in Prefix(ranked, 5) ensures Known(o.unitPrice, seen) {
      RankedIsPermutation(lex, s, offers);
      assert o in multiset(ranked) && o in multiset(offers);
      if o.unitPrice.Some? {
        var i :| i in rows && i.price == o.unitPrice && i.price.value >= 0.0;
        assert i in items && i.price.value in RowPrices(items);
      }
    }
  }

  lemma CaptureKeeps(lex: Lexicon, s: State, items: seq<Item>, seen: set<real>)
    requires Sourced(s, seen) && RowPrices(items) <= seen
    ensures Sourced(CaptureOffers(lex, s, items), seen) && SamePrice(s, CaptureOffers(lex, s, items))
  {
    OffersOfRows(lex, s, items, seen);
  }

  lemma RejectIsTame(lex: Lexicon, s: State)
    ensures Tame(s, RejectSelection(lex, s))
  {
    if Specific(s).Some? {
      assert FactsSourced(s) ==> FactsSourced(MarkUnavailable(lex, s, Specific(s).value));
    }
  }

  lemma TotalCarries(s: State, t: State)
    requires TotalAgrees(s) && (SamePrice(s, t) || NoPrice(t))
    ensures TotalAgrees(t)
  {
  }

  lemma AttachSources(s: State, price: real, seen: set<real>)
    requires Sourced(s, seen) && price in seen && price >= 0.0
    ensures Sourced(AttachPrice(s, price), seen)
  {
  }

  lemma AttachAgrees(s: State, price: real)
    requires s.quantity.None? ==> s.totalPrice.None?
    ensures TotalAgrees(AttachPrice(s, price))
  {
    assert AttachPrice(s, price).unitPrice == Some(price);
  }

  lemma VerifyIsTame(s: State, keys: set<Key>)
    ensures Tame(s, VerifyKeys(s, keys)) && SamePrice(s, VerifyKeys(s, keys))
  {
  }

  lemma FirstPriceIsSeen(items: seq<Item>, seen: set<real>)
    requires RowPrices(items) <= seen && PublicPrices(items) != []
    ensures PublicPrices(items)[0] in seen && PublicPrices(items)[0] >= 0.0
  {
    var prices := PublicPrices(items);
    assert prices[0] in prices;
    assert prices[0] in RowPrices(items);
  }

  lemma InStockSources(lex: Lexicon, s: State, items: seq<Item>, scope: Scope, seen: set<real>)
    requires Sourced(s, seen) && RowPrices(items) <= seen
    ensures Sourced(ReconcileInStock(lex, s, items, scope), seen)
  {
    var v := VerifyKeys(s, ScopeKeys(scope));
    VerifyIsTame(s, ScopeKeys(scope));
    TameKeepsSourced(s, v, seen);
    if scope == FamilyScope {
      CaptureKeeps(lex, v, items, seen);
    } else {
      PricedSources(v, items, seen);
    }
  }

  lemma PricedSources(v: State, items: seq<Item>, seen: set<real>)
    requires Sourced(v, seen) && RowPrices(items) <= seen
    ensures Sourced(ReconcilePrices(v, items), seen)
  {
    TameKeepsSourced(v, ClearPrices(v), seen);
    if PublicPrices(items) != [] {
      FirstPriceIsSeen(items, seen);
      AttachSources(v, PublicPrices(items)[0], seen);
    }
  }

  lemma InStockAgrees(lex: Lexicon, s: State, items: seq<Item>, scope: Scope)
    requires TotalAgrees(s)
    ensures TotalAgrees(ReconcileInStock(lex, s, items, scope))
  {
    var v := VerifyKeys(s, ScopeKeys(scope));
    VerifyIsTame(s, ScopeKeys(scope));
    TotalCarries(s, v);
    if scope == FamilyScope {
      TotalCarries(v, CaptureOffers(lex, v, items));
    } else {
      TotalCarries(v, ClearPrices(v));
      if PublicPrices(items) != [] { AttachAgrees(v, PublicPrices(items)[0]); }
    }
  }

  lemma OutOfStockIsTame(lex: Lexicon, s: State, items: seq<Item>) returns (r: State)
    ensures Tame(s, r) && ReconcileOutOfStock(lex, s, items) == CaptureOffers(lex, r, items)
  {
    var f, p := KnownFamily(s), KnownProduct(s);
    assert Tame(s, f) && Tame(f, p);
    RejectIsTame(lex, p);
    TameTransitive(s, f, p);
    TameTransitive(s, p, RejectSelection(lex, p));
    r := RejectSelection(lex, p);
  }

  lemma NotFoundIsTame(lex: Lexicon, s: State, items: seq<Item>) returns (r: State)
    ensures Tame(s, r) && ReconcileNotFound(lex, s, items) == CaptureOffers(lex, r, items)
  {
    RejectIsTame(lex, s);
    r := Rejected(lex, s);
  }

  lemma TameThenCapture(lex: Lexicon, s: State, t: State, items: seq<Item>, seen: set<real>)
    requires Ledger(s, seen) && Tame(s, t) && RowPrices(items) <= seen
    ensures Ledger(CaptureOffers(lex, t, items), seen)
  {
    TameKeepsSourced(s, t, seen);
    CaptureKeeps(lex, t, items, seen);
    TotalCarries(s, t);
    TotalCarries(t, CaptureOffers(lex, t, items));
  }

  lemma CoerceKeeps(s: State, seen: set<real>)
    requires Ledger(s, seen)
    ensures Ledger(Coerce(s), seen)
  {
    CoerceKeepsSourced(s, seen);
    CoerceKeepsTotal(s, seen);
    TotalCarries(s, Coerce(s));
  }

  lemma ReconcileKeeps(lex: Lexicon, s: State, snapshot: Option<Snapshot>, scope: Scope, seen: set<real>)
    requires Ledger(s, seen) && EventPrices(Catalogue(snapshot, scope)) <= seen
    ensures Ledger(Reconcile(lex, s, snapshot, scope), seen)
  {
    CoerceKeeps(s, seen);
    if snapshot.Some? { SnapshotKeeps(lex, Coerce(s), snapshot.value, scope, seen); }
  }

  lemma SnapshotKeeps(lex: Lexicon, c: State, snapshot: Snapshot, scope: Scope, seen: set<real>)
    requires Ledger(c, seen) && RowPrices(snapshot.items) <= seen && RowPrices(snapshot.alternatives) <= seen
    ensures Ledger(ReconcileSnapshot(lex, c, snapshot, scope), seen)
  {
    match snapshot.status
    case InStock =>
      InStockSources(lex, c, snapshot.items, scope, seen);
      InStockAgrees(lex, c, snapshot.items, scope);
    case OutOfStock =>
      var r := OutOfStockIsTame(lex, c, snapshot.alternatives);
      TameThenCapture(lex, c, r, snapshot.alternatives, seen);
    case NotFound =>
      var r := NotFoundIsTame(lex, c, snapshot.alternatives);
      TameThenCapture(lex, c, r, snapshot.alternatives, seen);
  }

  lemma MergeKeeps(s: State, r: State, seen: set<real>)
    requires Ledger(s, seen) && Ledger(r, seen) && r.quantity == s.quantity
    ensures Ledger(Merged(s, r), seen)
  {
  }

  /** A catalogue read keeps the ledger, the prices of its own rows becoming known. */
  lemma ReadKeeps(lex: Lexicon, s: State, snapshot: Option<Snapshot>, scope: Scope, seen: set<real>)
    requires Ledger(s, seen) && EventPrices(Catalogue(snapshot, scope)) <= seen
    ensures Ledger(Read(lex, s, snapshot, scope), seen)
  {
    ReconcileKeeps(lex, s, snapshot, scope, seen);
    ReadsLeaveSelection(lex, s, snapshot, scope);
    MergeKeeps(s, Reconcile(lex, s, snapshot, scope), seen);
  }

  lemma LedgerGrows(s: State, a: set<real>, b: set<real>)
    requires Ledger(s, a) && a <= b
    ensures Ledger(s, b)
  {
  }

  /**
   * After any conversation: a total exists exactly beside a unit price and a quantity and is their rounded product;
   * the unit price, the quotes and the offered prices all stood in some catalogue row; and facts the customer
   * proposed are marked so, verdicts come from the catalogue.
   */
  lemma {:induction false} EveryConversationKeepsTheLedger(lex: Lexicon, events: seq<Event>)
    ensures Ledger(Conversation(lex, events), PricesSeen(events))
    decreases |events|
  {
    if events != [] {
      var front, last := events[..|events| - 1], events[|events| - 1];
      EveryConversationKeepsTheLedger(lex, front);
      LedgerGrows(Conversation(lex, front), PricesSeen(front), PricesSeen(events));
      match last {
        case Customer(u, text) => TurnKeeps(lex, Conversation(lex, front), u, text, PricesSeen(events));
        case Catalogue(snapshot, scope) => ReadKeeps(lex, Conversation(lex, front), snapshot, scope,
            PricesSeen(events));
      }
    }
  }

  // ---------- A moved selection carries no price ----------

  predicate BarFree(parts: seq<string>) {
    forall p :: p in parts ==> p != "" && '|' !in p
  }

  lemma {:induction false} JoinStarts(parts: seq<string>)
    requires parts != [] && BarFree(parts)
    ensures parts[0] <= Join(parts, "|") && (|Join(parts, "|")| > |parts[0]| <==> |parts| > 1)
    ensures |parts| > 1 ==>
              Join(parts, "|")[|parts[0]|] == '|' && Join(parts, "|")[|parts[0]| + 1..] == Join(parts[1..], "|")
  {
  }

  lemma FirstPartsAgree(a: seq<string>, b: seq<string>)
    requires a != [] && b != [] && BarFree(a) && BarFree(b) && Join(a, "|") == Join(b, "|") && |a[0]| <= |b[0]|
    ensures a[0] == b[0] && (|a| > 1 <==> |b| > 1)
  {
    JoinStarts(a);
    JoinStarts(b);
    assert b[0] in b;
    forall i | 0 <= i < |b[0]| ensures Join(b, "|")[i] == b[0][i] && Join(b, "|")[i] != '|' { }
    assert a[0] == Join(a, "|")[..|a[0]|] && b[0] == Join(b, "|")[..|b[0]|];
  }

  lemma {:induction false} JoinIsInjective(a: seq<string>, b: seq<string>)
    requires BarFree(a) && BarFree(b) && Join(a, "|") == Join(b, "|")
    ensures a == b
    decreases |a|
  {
    if a != [] { JoinStarts(a); assert a[0] in a; }
    if b != [] { JoinStarts(b); assert b[0] in b; }
    if a != [] && b != [] {
      if |a[0]| <= |b[0]| { FirstPartsAgree(a, b); } else { FirstPartsAgree(b, a); }
      if |a| > 1 {
        TailBarFree(a);
        TailBarFree(b);
        JoinIsInjective(a[1..], b[1..]);
      }
      assert a == [a[0]] + a[1..] && b == [b[0]] + b[1..];
    }
  }

  lemma TailBarFree(a: seq<string>)
    requires a != [] && BarFree(a)
    ensures BarFree(a[1..])
  {
    forall p | p in a[1..] ensures p in a { }
  }

  /** Slots are filled, never emptied, between the two moments the selection is written down. */
  predicate Fills(a: seq<Option<string>>, b: seq<Option<string>>) {
    |a| == |b| && forall i :: 0 <= i < |a| && a[i].Some? ==> b[i].Some?
  }

  lemma {:induction false} PresentCount(a: seq<Option<string>>, b: seq<Option<string>>)
    requires Fills(a, b)
    ensures |Present(a)| <= |Present(b)|
    ensures Present(a) == Present(b) ==> a == b
    decreases |a|
  {
    if a != [] {
      PresentCount(a[1..], b[1..]);
      assert a == [a[0]] + a[1..] && b == [b[0]] + b[1..];
      if a[0].Some? {
        assert Present(a)[0] == a[0].value && Present(a)[1..] == Present(a[1..]);
        assert Present(b)[0] == b[0].value && Present(b)[1..] == Present(b[1..]);
      } else {
        assert Present(a) == Present(a[1..]);
      }
    }
  }

  lemma {:induction false} PresentBarFree(a: seq<Option<string>>)
    requires forall p :: p in a && p.Some? ==> p.value != "" && '|' !in p.value
    ensures BarFree(Present(a))
    decreases |a|
  {
    if a != [] {
      PresentBarFree(a[1..]);
      assert a[0] in a;
    }
  }

  predicate NoBars(s: State) {
    forall p :: p in Attributes(s) && p.Some? ==> '|' !in p.value
  }

  /** The same product up to spelling, and the very same attributes. */
  predicate SameSelection(lex: Lexicon, a: State, b: State) {
    && Attributes(a) == Attributes(b)
    && Product in a.slots && Product in b.slots && Alike(lex, a.slots[Product], b.slots[Product])
  }

  lemma NamedProductSelection(lex: Lexicon, s: State, next: map<Key, string>)
    requires Product in s.slots && (Product in next || Family in next)
    ensures var t := NamedProduct(lex, s, next, false); NoPrice(t) || SameSelection(lex, s, t)
  {
    var t := NamedProduct(lex, s, next, false);
    var c := Cleared(lex, s, next, false);
    if c != s || NoPrice(s) {
      ClearSelectionIsTame(s);
      NamedAfterClear(lex, s, next);
    } else {
      assert !Differs(lex, s, Product, NamedIn(next)) || NoPrice(s);
      forall k | k in ATTRIBUTES ensures Slot(t, k) == Slot(s, k) { }
    }
  }

  lemma NamedAfterClear(lex: Lexicon, s: State, next: map<Key, string>)
    requires Product in next || Family in next
    ensures NoPrice(Cleared(lex, s, next, false)) ==> NoPrice(NamedProduct(lex, s, next, false))
  {
  }

  /** The turn names another product or another family than the one selected. */
  predicate NamesAnother(lex: Lexicon, s: State, next: map<Key, string>) {
    && (Product in next || Family in next)
    && (Differs(lex, s, Product, NamedIn(next)) || (Family in next && Differs(lex, s, Family, next[Family])))
  }

  /** The three ways in which the choice of product alone drops the price. */
  predicate StartsAfresh(lex: Lexicon, before: State, u: Understanding) {
    u.topicSwitch || (u.clearUnavailable && before.facts != map[]) || NamesAnother(lex, before, NextSlots(u))
  }

  lemma NamedProductPrice(lex: Lexicon, s: State, next: map<Key, string>)
    requires Product in next || Family in next
    ensures NoPrice(s) ==> NoPrice(NamedProduct(lex, s, next, false))
    ensures if NamesAnother(lex, s, next) then NoPrice(NamedProduct(lex, s, next, false))
            else NamedProduct(lex, s, next, false).unitPrice == s.unitPrice
  {
    ClearSelectionIsTame(s);
  }

  lemma OpeningPrice(lex: Lexicon, before: State, u: Understanding)
    ensures var start := Opening(lex, before, u, None);
            if u.topicSwitch || (u.clearUnavailable && before.facts != map[]) then NoPrice(start) else start == before
  {
    ClearSelectionIsTame(before);
  }

  /** What remains of the price and of the selection once the product has been settled. */
  lemma ChoosingDropsIff(lex: Lexicon, before: State, u: Understanding, text: string)
    requires Product in before.slots && Accepted(lex, before, u, text).None?
    ensures var chosen := Selecting(lex, before, u, text).0;
            if StartsAfresh(lex, before, u) then NoPrice(chosen)
            else chosen.unitPrice == before.unitPrice && (NoPrice(chosen) || SameSelection(lex, before, chosen))
  {
    var start, next := Opening(lex, before, u, None), NextSlots(u);
    var live := DropStaleOffers(lex, start, next, None);
    OpeningPrice(lex, before, u);
    if NoPrice(start) {
      SelectingIsTame(lex, before, u, text);
    } else if Product in next || Family in next {
      NamedProductPrice(lex, live, next);
      NamedProductSelection(lex, live, next);
      SelectionFromSlots(lex, before, live, NamedProduct(lex, live, next, false));
    } else {
      SelectionFromSlots(lex, before, live, live);
    }
  }

  lemma SelectionFromSlots(lex: Lexicon, a: State, b: State, t: State)
    requires a.slots == b.slots
    ensures SameSelection(lex, b, t) ==> SameSelection(lex, a, t)
  {
    assert forall k :: Slot(a, k) == Slot(b, k);
  }

  /** `t` has every slot of `s`, the same product and the same prices. */
  predicate Covers(s: State, t: State) {
    && (forall k :: Slot(s, k).Some? ==> Slot(t, k).Some?)
    && (Product in s.slots ==> Product in t.slots && t.slots[Product] == s.slots[Product])
    && t.unitPrice == s.unitPrice && t.totalPrice == s.totalPrice
  }

  lemma ProposeCovers(s: State, k: Key, v: string, changed: bool)
    requires k != Product && v != ""
    ensures Covers(s, ProposeIf(s.(slots := s.slots[k := v]), k, v, changed))
  {
  }

  lemma CoversTransitive(a: State, b: State, c: State)
    requires Covers(a, b) && Covers(b, c)
    ensures Covers(a, c)
  {
  }

  lemma ModelCovers(lex: Lexicon, s: State, next: map<Key, string>)
    requires forall k :: k in next ==> next[k] != ""
    ensures Covers(s, SelectModel(lex, s, next))
  {
    if Model in next {
      var model := next[Model];
      var changed := Model !in s.slots || Differs(lex, s, Model, model);
      ProposeCovers(s, Model, model, changed);
      var named := ProposeIf(s.(slots := s.slots[Model := model]), Model, model, changed);
      ProposeCovers(named, Variant, model, changed);
    }
  }

  lemma AttributeCovers(lex: Lexicon, s: State, next: map<Key, string>, k: Key)
    requires k != Product && forall x :: x in next ==> next[x] != ""
    ensures Covers(s, SelectAttribute(lex, s, next, k))
  {
    if k in next { ProposeCovers(s, k, next[k], k !in s.slots || Differs(lex, s, k, next[k])); }
  }

  lemma LiteralCovers(s: State, next: map<Key, string>, found: State, before: State, k: Key, allowed: bool)
    requires k != Product
    ensures Covers(s, SelectExtracted(s, next, found, before, k, allowed))
  {
  }

  lemma NamedCovers(lex: Lexicon, s: State, next: map<Key, string>)
    requires forall k :: k in next ==> next[k] != ""
    ensures Covers(s, SelectNamed(lex, s, next))
  {
    var m := SelectModel(lex, s, next);
    var st := SelectAttribute(lex, m, next, Storage);
    var v := SelectAttribute(lex, st, next, Variant);
    var c := SelectAttribute(lex, v, next, Color);
    ModelCovers(lex, s, next);
    AttributeCovers(lex, m, next, Storage);
    AttributeCovers(lex, st, next, Variant);
    AttributeCovers(lex, v, next, Color);
    AttributeCovers(lex, c, next, Size);
    CoversTransitive(s, m, st);
    CoversTransitive(s, st, v);
    CoversTransitive(s, v, c);
    CoversTransitive(s, c, SelectAttribute(lex, c, next, Size));
  }

  lemma LiteralsCover(s: State, next: map<Key, string>, found: State, before: State, allowed: bool)
    ensures Covers(s, SelectLiterals(s, next, found, before, allowed))
  {
    var v := SelectExtracted(s, next, found, before, Variant, allowed && Product in s.slots);
    var st := SelectExtracted(v, next, found, before, Storage, allowed);
    var c := SelectExtracted(st, next, found, before, Color, allowed);
    LiteralCovers(s, next, found, before, Variant, allowed && Product in s.slots);
    LiteralCovers(v, next, found, before, Storage, allowed);
    LiteralCovers(st, next, found, before, Color, allowed);
    LiteralCovers(c, next, found, before, Size, allowed);
    CoversTransitive(s, v, st);
    CoversTransitive(s, st, c);
    CoversTransitive(s, c, SelectExtracted(c, next, found, before, Size, allowed));
  }

  lemma SettlingKeepsSelection(s: State, u: Understanding, found: State, before: State)
    ensures var t := Quote(SettleQuantity(s, u, found, before)).(intent := u.intent);
            t.slots == s.slots && t.unitPrice == s.unitPrice && (NoPrice(s) ==> NoPrice(t))
  {
  }

  /** What the turn's words, or the literals found in its text, make of one attribute. */
  function Wanted(before: State, next: map<Key, string>, found: State, k: Key): Option<string> {
    if k in next then Some(next[k])
    else if k != Model && IsNewLiteral(next, found, before, k) then Slot(found, k)
    else if k == Variant && Model in next then Some(next[Model])
    else Slot(before, k)
  }

  function WantedAttributes(before: State, next: map<Key, string>, found: State): seq<Option<string>> {
    [Wanted(before, next, found, Model), Wanted(before, next, found, Storage), Wanted(before, next, found, Variant),
     Wanted(before, next, found, Color), Wanted(before, next, found, Size)]
  }

  lemma ModelSlot(lex: Lexicon, s: State, next: map<Key, string>, x: Key)
    requires forall k :: k in next ==> next[k] != ""
    ensures Slot(SelectModel(lex, s, next), x)
            == if Model in next && (x == Model || (x == Variant && Variant !in next)) then Some(next[Model])
               else Slot(s, x)
  {
  }

  lemma AttributeSlot(lex: Lexicon, s: State, next: map<Key, string>, k: Key, x: Key)
    requires forall k :: k in next ==> next[k] != ""
    ensures Slot(SelectAttribute(lex, s, next, k), x) == if x == k && k in next then Some(next[k]) else Slot(s, x)
  {
  }

  lemma NamedSlots(lex: Lexicon, s: State, next: map<Key, string>, x: Key)
    requires forall k :: k in next ==> next[k] != ""
    ensures Slot(SelectNamed(lex, s, next), x)
            == if x in ATTRIBUTES && x in next then Some(next[x])
               else if x == Variant && Model in next then Some(next[Model]) else Slot(s, x)
  {
    var m := SelectModel(lex, s, next);
    var st := SelectAttribute(lex, m, next, Storage);
    var v := SelectAttribute(lex, st, next, Variant);
    var c := SelectAttribute(lex, v, next, Color);
    ModelSlot(lex, s, next, x);
    AttributeSlot(lex, m, next, Storage, x);
    AttributeSlot(lex, st, next, Variant, x);
    AttributeSlot(lex, v, next, Color, x);
    AttributeSlot(lex, c, next, Size, x);
  }

  /** A literal of this turn counts: the understanding named none, and it is not what was held before. */
  predicate IsNewLiteral(next: map<Key, string>, found: State, before: State, k: Key) {
    k !in next && Slot(found, k).Some? && !(k in before.slots && before.slots[k] == found.slots[k])
  }

  lemma ExtractedSlot(s: State, next: map<Key, string>, found: State, before: State, k: Key, allowed: bool, x: Key)
    ensures Slot(SelectExtracted(s, next, found, before, k, allowed), x)
            == if x == k && allowed && IsNewLiteral(next, found, before, k) then Slot(found, k) else Slot(s, x)
  {
  }

  lemma LiteralSlots(s: State, next: map<Key, string>, found: State, before: State, x: Key)
    requires Product in s.slots && x in ATTRIBUTES
    ensures Slot(SelectLiterals(s, next, found, before, true), x)
            == if x != Model && IsNewLiteral(next, found, before, x) then Slot(found, x) else Slot(s, x)
  {
    var v := SelectExtracted(s, next, found, before, Variant, true);
    var st := SelectExtracted(v, next, found, before, Storage, true);
    var c := SelectExtracted(st, next, found, before, Color, true);
    ExtractedSlot(s, next, found, before, Variant, true, x);
    ExtractedSlot(v, next, found, before, Storage, true, x);
    ExtractedSlot(st, next, found, before, Color, true, x);
    ExtractedSlot(c, next, found, before, Size, true, x);
  }

  lemma WantedIsSelected(lex: Lexicon, before: State, chosen: State, next: map<Key, string>, found: State)
    requires Product in chosen.slots && Attributes(chosen) == Attributes(before)
    requires forall x :: x in next ==> next[x] != ""
    ensures Attributes(SelectLiterals(SelectNamed(lex, chosen, next), next, found, before, true))
            == WantedAttributes(before, next, found)
  {
    var named := SelectNamed(lex, chosen, next);
    NamedCovers(lex, chosen, next);
    var a, b := Attributes(chosen), Attributes(before);
    assert a[0] == b[0] && a[1] == b[1] && a[2] == b[2] && a[3] == b[3] && a[4] == b[4];
    forall k | k in ATTRIBUTES
      ensures Slot(SelectLiterals(named, next, found, before, true), k) == Wanted(before, next, found, k) {
      NamedSlots(lex, chosen, next, k);
      LiteralSlots(named, next, found, before, k);
    }
  }

  /** What the extractor finds in the text when no offer is accepted. */
  function Found(lex: Lexicon, before: State, u: Understanding, text: string): State {
    lex.extract(Opening(lex, before, u, None), text)
  }

  /** The attributes wanted are written down differently from those held. */
  predicate WritesAnother(before: State, next: map<Key, string>, found: State) {
    Join(Present(WantedAttributes(before, next, found)), "|") != SelectionText(before)
  }

  /**
   * With a product and a price held and no offer accepted, a turn drops the price exactly when it switches topic,
   * clears an unavailable selection, names another product or family, or wants attributes that are written down
   * differently.
   */
  lemma TurnDropsPriceIff(lex: Lexicon, previous: State, u: Understanding, text: string)
    requires var before := Coerce(previous);
             Product in before.slots && before.unitPrice.Some? && Accepted(lex, before, u, text).None?
    ensures var before, result := Coerce(previous), Turn(lex, previous, u, text);
            && (result.unitPrice.None? <==>
                StartsAfresh(lex, before, u) || WritesAnother(before, NextSlots(u), Found(lex, before, u, text)))
            && (result.unitPrice.None? ==> NoPrice(result))
            && (result.unitPrice.Some? ==>
                  && result.unitPrice == before.unitPrice
                  && Attributes(result) == WantedAttributes(before, NextSlots(u), Found(lex, before, u, text)))
  {
    var before, next := Coerce(previous), NextSlots(u);
    var chosen, found := Selecting(lex, before, u, text).0, Selecting(lex, before, u, text).1;
    var literal := SelectLiterals(SelectNamed(lex, chosen, next), next, found, before, true);
    TurnInStages(lex, previous, u, text);
    SettlingKeepsSelection(Selected(lex, before, u, text), u, found, before);
    ChoosingDropsIff(lex, before, u, text);
    LiteralKeepsPrice(lex, chosen, next, found, before);
    if !StartsAfresh(lex, before, u) {
      WantedIsSelected(lex, before, chosen, next, found);
      assert SelectionText(chosen) == SelectionText(before);
      SameSlotsSameBars(literal, Turn(lex, previous, u, text));
    }
  }

  lemma LiteralKeepsPrice(lex: Lexicon, chosen: State, next: map<Key, string>, found: State, before: State)
    requires forall k :: k in next ==> next[k] != ""
    ensures Covers(chosen, SelectLiterals(SelectNamed(lex, chosen, next), next, found, before, true))
  {
    var named := SelectNamed(lex, chosen, next);
    NamedCovers(lex, chosen, next);
    LiteralsCover(named, next, found, before, true);
    CoversTransitive(chosen, named, SelectLiterals(named, next, found, before, true));
  }

  /** No bar in the attributes held, named or found. */
  predicate BarFreeTurn(before: State, next: map<Key, string>, found: State) {
    && NoBars(before) && (forall k :: k in next ==> '|' !in next[k])
    && forall k :: k in ATTRIBUTES && Slot(found, k).Some? ==> '|' !in found.slots[k]
  }

  lemma WantedIsBarFree(before: State, next: map<Key, string>, found: State, k: Key)
    requires BarFreeTurn(before, next, found) && (forall x :: x in next ==> next[x] != "") && k in ATTRIBUTES
    ensures var w := Wanted(before, next, found, k); w.Some? ==> w.value != "" && '|' !in w.value
  {
    var held := Attributes(before);
    assert held[0] in held && held[1] in held && held[2] in held && held[3] in held && held[4] in held;
    assert Slot(before, k) in held;
  }

  lemma WantedAreBarFree(before: State, next: map<Key, string>, found: State)
    requires BarFreeTurn(before, next, found) && forall x :: x in next ==> next[x] != ""
    ensures BarFree(Present(WantedAttributes(before, next, found)))
  {
    forall k | k in ATTRIBUTES
      ensures var w := Wanted(before, next, found, k); w.Some? ==> w.value != "" && '|' !in w.value {
      WantedIsBarFree(before, next, found, k);
    }
    PresentBarFree(WantedAttributes(before, next, found));
  }

  /** Attributes are overwritten, never emptied. */
  lemma WantedFills(before: State, next: map<Key, string>, found: State)
    ensures Fills(Attributes(before), WantedAttributes(before, next, found))
  {
  }

  /** Without bars the attributes are written down alike only if they are the same. */
  lemma BarFreeWriting(before: State, next: map<Key, string>, found: State)
    requires BarFreeTurn(before, next, found) && forall k :: k in next ==> next[k] != ""
    ensures WritesAnother(before, next, found) <==> WantedAttributes(before, next, found) != Attributes(before)
  {
    if !WritesAnother(before, next, found) {
      PresentBarFree(Attributes(before));
      WantedAreBarFree(before, next, found);
      WantedFills(before, next, found);
      JoinIsInjective(Present(WantedAttributes(before, next, found)), Present(Attributes(before)));
      PresentCount(Attributes(before), WantedAttributes(before, next, found));
    }
  }

  /**
   * Once a product is selected, a bar-free turn that accepts no offer either leaves the same selection (the product up
   * to spelling, the attributes to the letter) or leaves no unit price and no total; and with a price held, it leaves
   * none exactly when it starts afresh or wants other attributes.
   */
  lemma MovedSelectionDropsPrice(lex: Lexicon, previous: State, u: Understanding, text: string)
    requires Product in Coerce(previous).slots && Accepted(lex, Coerce(previous), u, text).None?
    requires BarFreeTurn(Coerce(previous), NextSlots(u), Found(lex, Coerce(previous), u, text))
    ensures NoPrice(Turn(lex, previous, u, text)) || SameSelection(lex, Coerce(previous), Turn(lex, previous, u, text))
    ensures var before, found := Coerce(previous), Found(lex, Coerce(previous), u, text);
            before.unitPrice.Some? ==>
              (NoPrice(Turn(lex, previous, u, text)) <==>
               StartsAfresh(lex, before, u) || WantedAttributes(before, NextSlots(u), found) != Attributes(before))
  {
    var before, result, next := Coerce(previous), Turn(lex, previous, u, text), NextSlots(u);
    var chosen, found := Selecting(lex, before, u, text).0, Selecting(lex, before, u, text).1;
    BarFreeWriting(before, next, found);
    if before.unitPrice.Some? { TurnDropsPriceIff(lex, previous, u, text); }
    TurnInStages(lex, previous, u, text);
    SettlingKeepsSelection(Selected(lex, before, u, text), u, found, before);
    ChoosingDropsIff(lex, before, u, text);
    SelectedIsTame(lex, before, u, text);
    if !NoPrice(chosen) {
      var literal := SelectLiterals(SelectNamed(lex, chosen, next), next, found, before, true);
      LiteralKeepsPrice(lex, chosen, next, found, before);
      WantedIsSelected(lex, before, chosen, next, found);
      SelectionThrough(lex, before, chosen, literal, result);
    }
  }

  lemma SameSlotsSameBars(a: State, b: State)
    requires a.slots == b.slots || Attributes(a) == Attributes(b)
    ensures NoBars(a) == NoBars(b) && Attributes(a) == Attributes(b)
  {
    if a.slots == b.slots { assert forall k :: Slot(a, k) == Slot(b, k); }
  }

  lemma SelectionThrough(lex: Lexicon, before: State, chosen: State, literal: State, result: State)
    requires SameSelection(lex, before, chosen) && Covers(chosen, literal) && result.slots == literal.slots
    ensures Attributes(chosen) == Attributes(literal) ==> SameSelection(lex, before, result)
  {
    SameSlotsSameBars(literal, result);
  }

  /** A turn never makes a price up: the unit price is the one before it or the accepted offer's. */
  lemma TurnNeverInventsPrice(lex: Lexicon, previous: State, u: Understanding, text: string)
    ensures var result, accepted := Turn(lex, previous, u, text), Accepted(lex, Coerce(previous), u, text);
            result.unitPrice.Some? ==>
              if accepted.Some? then result.unitPrice == accepted.value.unitPrice
              else result.unitPrice == Coerce(previous).unitPrice
  {
    var before := Coerce(previous);
    var accepted := Accepted(lex, before, u, text);
    OpeningPrices(lex, before, u, accepted);
    SelectingIsTame(lex, before, u, text);
    SelectedIsTame(lex, before, u, text);
    TameTransitive(Opening(lex, before, u, accepted), Selecting(lex, before, u, text).0,
        Selected(lex, before, u, text));
    TurnInStages(lex, previous, u, text);
    SettlingKeepsSelection(Selected(lex, before, u, text), u, Selecting(lex, before, u, text).1, before);
  }

  // ---------- The bar in a value defeats the comparison ----------

  lemma BarJoins(a: string, b: string, rest: seq<string>)
    ensures Join([a + "|" + b] + rest, "|") == Join([a, b] + rest, "|")
  {
    assert ([a, b] + rest)[1..] == [b] + rest;
    assert ([b] + rest)[1..] == rest && ([a + "|" + b] + rest)[1..] == rest;
    if rest == [] {
      assert Join([b] + rest, "|") == b;
    } else {
      assert Join([b] + rest, "|") == b + "|" + Join(rest, "|");
      assert a + "|" + (b + "|" + Join(rest, "|")) == (a + "|" + b) + "|" + Join(rest, "|");
    }
  }

  lemma PresentOf(head: Option<string>, tail: seq<Option<string>>)
    ensures Present([head] + tail) == (if head.Some? then [head.value] else []) + Present(tail)
  {
    assert ([head] + tail)[1..] == tail;
  }

  /**
   * Bars do matter: a turn that goes from model `a|b` without storage to model `a` with storage `b` moves to another
   * selection that is written down the same, and keeps the old price.
   */
  lemma BarHidesAMove(lex: Lexicon, previous: State, u: Understanding, text: string, a: string, b: string, v: string)
    requires var before := Coerce(previous);
             && Product in before.slots && before.unitPrice.Some? && Accepted(lex, before, u, text).None?
             && CrossesBar(before, NextSlots(u), a, b, v) && lex.extract(before, text) == before
    requires !u.topicSwitch && !u.clearUnavailable
    ensures Turn(lex, previous, u, text).unitPrice == Coerce(previous).unitPrice
    ensures Attributes(Turn(lex, previous, u, text)) != Attributes(Coerce(previous))
  {
    var before := Coerce(previous);
    BarHidesInWriting(before, NextSlots(u), a, b, v);
    QuietOpening(lex, before, u);
    WrittenAlikeKeepsPrice(lex, previous, u, text);
  }

  /** From model `a|b` without storage to model `a` with storage `b`, naming the variant held. */
  predicate CrossesBar(before: State, next: map<Key, string>, a: string, b: string, v: string) {
    && a != "" && b != "" && v != ""
    && Slot(before, Model) == Some(a + "|" + b) && Slot(before, Storage) == None && Slot(before, Variant) == Some(v)
    && next.Keys == {Model, Storage, Variant} && next[Model] == a && next[Storage] == b && next[Variant] == v
  }

  lemma QuietOpening(lex: Lexicon, before: State, u: Understanding)
    requires !u.topicSwitch && !u.clearUnavailable && Product !in NextSlots(u) && Family !in NextSlots(u)
    ensures Opening(lex, before, u, None) == before && !StartsAfresh(lex, before, u)
  {
  }

  lemma WrittenAlikeKeepsPrice(lex: Lexicon, previous: State, u: Understanding, text: string)
    requires var before := Coerce(previous);
             && Product in before.slots && before.unitPrice.Some? && Accepted(lex, before, u, text).None?
             && !StartsAfresh(lex, before, u) && !WritesAnother(before, NextSlots(u), Found(lex, before, u, text))
    ensures var before, result := Coerce(previous), Turn(lex, previous, u, text);
            && result.unitPrice == before.unitPrice
            && Attributes(result) == WantedAttributes(before, NextSlots(u), Found(lex, before, u, text))
  {
    TurnDropsPriceIff(lex, previous, u, text);
  }

  /** Language rules that compare to the letter, extract nothing and accept no offer. */
  const LITERAL_RULES := Lexicon(
    (v: string) => v, (v: string) => None, (s: State, text: string) => s,
    (s: State, u: Understanding, text: string) => None, (offers: seq<Offer>, next: map<Key, string>) => true,
    (name: string) => map[], (s: State, o: Offer) => 0.0)

  lemma OneLetterWord(c: char)
    requires !IsSpace(c)
    ensures Trim([c]) == [c] && Kept([c]) == [c] && Clean([c]) == [c]
  {
    assert [c][1..] == "" && Collapse([c]) == [c] + "";
  }

  function BarPrevious(): State {
    FRESH.(slots := map[Product := "p", Model := "a|b", Variant := "v"], unitPrice := Some(5.0))
  }

  function BarUnderstanding(): Understanding {
    Understanding(OtherIntent, false, false, map[Model := "a", Storage := "b", Variant := "v"], None)
  }

  lemma BarBefore()
    ensures var before := Coerce(BarPrevious());
            before.slots == map[Product := "p", Model := "a|b", Variant := "v"] && before.unitPrice == Some(5.0)
  {
    OneLetterWord('p');
    OneLetterWord('v');
    assert TrimStart("a|b") == "a|b" && TrimEnd("a|b") == "a|b";
    var slots := CoerceSlots(BarPrevious().slots);
    assert slots.Keys == {Product, Model, Variant};
  }

  lemma BarNext()
    ensures var next := NextSlots(BarUnderstanding());
            next.Keys == {Model, Storage, Variant} && next[Model] == "a" && next[Storage] == "b" && next[Variant] == "v"
  {
    OneLetterWord('a');
    OneLetterWord('b');
    OneLetterWord('v');
  }

  /** The turn that shows it: a price of 5 for model "a|b" is kept for model "a" with storage "b". */
  lemma BarWitness()
    ensures var result := Turn(LITERAL_RULES, BarPrevious(), BarUnderstanding(), "");
            result.unitPrice == Some(5.0) && Attributes(result) != Attributes(Coerce(BarPrevious()))
  {
    BarBefore();
    BarNext();
    BarCrossed(Coerce(BarPrevious()), NextSlots(BarUnderstanding()));
    BarHidesAMove(LITERAL_RULES, BarPrevious(), BarUnderstanding(), "", "a", "b", "v");
  }

  lemma BarCrossed(before: State, next: map<Key, string>)
    requires before.slots == map[Product := "p", Model := "a|b", Variant := "v"]
    requires next.Keys == {Model, Storage, Variant} && next[Model] == "a" && next[Storage] == "b"
    requires next[Variant] == "v"
    ensures CrossesBar(before, next, "a", "b", "v")
  {
    assert "a" + "|" + "b" == "a|b";
  }

  lemma BarHidesInWriting(before: State, next: map<Key, string>, a: string, b: string, v: string)
    requires CrossesBar(before, next, a, b, v)
    ensures Product !in next && Family !in next
    ensures !WritesAnother(before, next, before) && WantedAttributes(before, next, before) != Attributes(before)
  {
    var rest := [Some(v), Slot(before, Color), Slot(before, Size)];
    var held, wanted := Attributes(before), WantedAttributes(before, next, before);
    assert held == [Some(a + "|" + b), None] + rest && wanted == [Some(a), Some(b)] + rest;
    BarWriting(a, b, rest);
    assert wanted[1] != held[1];
  }

  lemma BarWriting(a: string, b: string, rest: seq<Option<string>>)
    ensures Join(Present([Some(a + "|" + b), None] + rest), "|") == Join(Present([Some(a), Some(b)] + rest), "|")
  {
    var parts := Present(rest);
    PresentOfTwo(Some(a + "|" + b), None, rest);
    PresentOfTwo(Some(a), Some(b), rest);
    assert [a + "|" + b] + [] + parts == [a + "|" + b] + parts;
    assert [a] + [b] + parts == [a, b] + parts;
    BarJoins(a, b, parts);
  }

  lemma PresentOfTwo(x: Option<string>, y: Option<string>, rest: seq<Option<string>>)
    ensures Present([x, y] + rest)
            == (if x.Some? then [x.value] else []) + (if y.Some? then [y.value] else []) + Present(rest)
  {
    assert [x, y] + rest == [x] + ([y] + rest);
    PresentOf(x, [y] + rest);
    PresentOf(y, rest);
  }

  // ---------- Reads leave the selection alone ----------

  /**
   * A catalogue read changes no slot beyond what re-reading the stored state does, nor the quantity or the
   * acceptance.
   */
  lemma ReadsLeaveSelection(lex: Lexicon, s: State, snapshot: Option<Snapshot>, scope: Scope)
    ensures var t := Reconcile(lex, s, snapshot, scope);
            t.slots == CoerceSlots(s.slots) && t.quantity == Positive(s.quantity)
              && t.acceptedOffer == Coerce(s).acceptedOffer
  {
    var c := Coerce(s);
    if snapshot.Some? {
      match snapshot.value.status
      case InStock => InStockLeaves(lex, c, snapshot.value.items, scope);
      case OutOfStock => OutOfStockLeaves(lex, c, snapshot.value.alternatives);
      case NotFound => NotFoundLeaves(lex, c, snapshot.value.alternatives);
    }
  }

  predicate LeftAlone(s: State, t: State) {
    t.slots == s.slots && t.quantity == s.quantity && t.acceptedOffer == s.acceptedOffer
  }

  lemma CaptureLeaves(lex: Lexicon, s: State, items: seq<Item>)
    ensures LeftAlone(s, CaptureOffers(lex, s, items))
  {
  }

  lemma RejectLeaves(lex: Lexicon, s: State)
    ensures LeftAlone(s, RejectSelection(lex, s))
  {
  }

  lemma PricesLeave(s: State, items: seq<Item>)
    ensures LeftAlone(s, ReconcilePrices(s, items))
  {
  }

  lemma InStockLeaves(lex: Lexicon, s: State, items: seq<Item>, scope: Scope)
    ensures LeftAlone(s, ReconcileInStock(lex, s, items, scope))
  {
    var v := VerifyKeys(s, ScopeKeys(scope));
    assert LeftAlone(s, v);
    if scope == FamilyScope {
      CaptureLeaves(lex, v, items);
    } else {
      PricesLeave(v, items);
    }
  }

  lemma OutOfStockLeaves(lex: Lexicon, s: State, items: seq<Item>)
    ensures LeftAlone(s, ReconcileOutOfStock(lex, s, items))
  {
    var p := KnownProduct(s);
    RejectLeaves(lex, p);
    CaptureLeaves(lex, RejectSelection(lex, p), items);
  }

  lemma NotFoundLeaves(lex: Lexicon, s: State, items: seq<Item>)
    ensures LeftAlone(s, ReconcileNotFound(lex, s, items))
  {
    RejectLeaves(lex, s);
    CaptureLeaves(lex, Rejected(lex, s), items);
  }

  /** So a read keeps a selection exactly when its values are trimmed and no longer than three hundred characters. */
  lemma ReadsKeepSelectionIff(lex: Lexicon, s: State, snapshot: Option<Snapshot>, scope: Scope)
    ensures Reconcile(lex, s, snapshot, scope).slots == s.slots <==>
              forall k :: k in s.slots ==> s.slots[k] != "" && Trim(s.slots[k]) == s.slots[k] && |s.slots[k]| <= 300
  {
    ReadsLeaveSelection(lex, s, snapshot, scope);
    var c := CoerceSlots(s.slots);
    if c == s.slots {
      forall k | k in s.slots ensures s.slots[k] != "" && Trim(s.slots[k]) == s.slots[k] && |s.slots[k]| <= 300 {
        assert k in c && c[k] == Kept(s.slots[k]);
        TrimShrinks(s.slots[k]);
      }
    }
  }

  // ---------- What a read does to the price ----------

  /** The price a read attaches: the one row, or the one common price, of a read that is not a family browse. */
  function AttachedPrice(snapshot: Option<Snapshot>, scope: Scope): Option<real> {
    if snapshot.Some? && snapshot.value.status == InStock && scope != FamilyScope then
      var items := snapshot.value.items;
      var prices := PublicPrices(items);
      if (|items| == 1 || |prices| == 1) && prices != [] then Some(prices[0]) else None
    else None
  }

  /** An ambiguous read, or one that rejects the selection. */
  predicate DropsPrice(s: State, snapshot: Option<Snapshot>, scope: Scope) {
    snapshot.Some? &&
    match snapshot.value.status
    case InStock => scope != FamilyScope && |snapshot.value.items| != 1 && |PublicPrices(snapshot.value.items)| > 1
    case OutOfStock => Specific(s).Some?
    case NotFound => Specific(s).Some? || Product in s.slots
  }

  lemma CaptureKeepsPrice(lex: Lexicon, s: State, items: seq<Item>)
    ensures CaptureOffers(lex, s, items).unitPrice == s.unitPrice
  {
  }

  lemma InStockPrice(lex: Lexicon, s: State, snapshot: Snapshot, scope: Scope)
    requires snapshot.status == InStock
    ensures ReconcileInStock(lex, s, snapshot.items, scope).unitPrice ==
              if AttachedPrice(Some(snapshot), scope).Some? then AttachedPrice(Some(snapshot), scope)
              else if DropsPrice(s, Some(snapshot), scope) then None else s.unitPrice
  {
    var v := VerifyKeys(s, ScopeKeys(scope));
    CaptureKeepsPrice(lex, v, snapshot.items);
  }

  lemma RejectedPrice(lex: Lexicon, s: State, t: State)
    requires t.slots == s.slots && t.unitPrice == s.unitPrice
    ensures RejectSelection(lex, t).unitPrice == if Specific(s).Some? then None else s.unitPrice
  {
    assert Specific(t) == Specific(s);
  }

  lemma OutOfStockPrice(lex: Lexicon, s: State, items: seq<Item>)
    ensures ReconcileOutOfStock(lex, s, items).unitPrice == if Specific(s).Some? then None else s.unitPrice
  {
    var p := KnownProduct(s);
    RejectedPrice(lex, s, p);
    CaptureKeepsPrice(lex, RejectSelection(lex, p), items);
  }

  lemma NotFoundPrice(lex: Lexicon, s: State, items: seq<Item>)
    ensures ReconcileNotFound(lex, s, items).unitPrice
            == if Specific(s).Some? || Product in s.slots then None else s.unitPrice
  {
    RejectedPrice(lex, s, s);
    CaptureKeepsPrice(lex, Rejected(lex, s), items);
  }

  /** The reconciled state by itself: a price attached, dropped, or re-read. */
  lemma ReconciledPrice(lex: Lexicon, s: State, snapshot: Option<Snapshot>, scope: Scope)
    ensures Reconcile(lex, s, snapshot, scope).unitPrice ==
              if AttachedPrice(snapshot, scope).Some? then AttachedPrice(snapshot, scope)
              else if DropsPrice(Coerce(s), snapshot, scope) then None else NonNegative(s.unitPrice)
  {
    if snapshot.Some? {
      match snapshot.value.status
      case InStock => InStockPrice(lex, Coerce(s), snapshot.value, scope);
      case OutOfStock => OutOfStockPrice(lex, Coerce(s), snapshot.value.alternatives);
      case NotFound => NotFoundPrice(lex, Coerce(s), snapshot.value.alternatives);
    }
  }

  /**
   * But the conversation never loses a price to a read: the merge brings back what the reconciled state dropped, so
   * after a rejected or ambiguous read the conversation has no price exactly when it had none before.
   */
  lemma ReadsNeverTakePriceAway(lex: Lexicon, s: State, snapshot: Option<Snapshot>, scope: Scope)
    ensures Read(lex, s, snapshot, scope).unitPrice == OrElse(AttachedPrice(snapshot, scope), s.unitPrice)
    ensures DropsPrice(Coerce(s), snapshot, scope) ==>
              && Reconcile(lex, s, snapshot, scope).unitPrice.None?
              && (Read(lex, s, snapshot, scope).unitPrice.None? <==> s.unitPrice.None?)
  {
    ReconciledPrice(lex, s, snapshot, scope);
  }

  lemma {:induction false} TrimShrinks(v: string)
    ensures |Trim(v)| <= |v| && (|Trim(v)| == |v| ==> Trim(v) == v)
  {
    TrimStartShrinks(v);
  }

  lemma {:induction false} TrimStartShrinks(v: string)
    ensures |TrimStart(v)| == |v| ==> TrimStart(v) == v
  {
  }

  lemma {:induction false} NothingToSqueeze(v: string)
    requires forall c :: c in v ==> !IsSpace(c)
    ensures Collapse(v) == v && Trim(v) == v
  {
    if v != "" {
      NothingToSqueeze(v[1..]);
      assert v[0] in v && v[|v| - 1] in v;
    }
  }

  lemma ChosenFromFresh(lex: Lexicon, u: Understanding, text: string, v: string)
    requires NextSlots(u) == map[Product := v]
    ensures Coerce(FRESH).slots == map[] && Accepted(lex, Coerce(FRESH), u, text).None?
    ensures var chosen := Selecting(lex, Coerce(FRESH), u, text).0;
              Product in chosen.slots && chosen.slots[Product] == v
  {
    assert OfferList(Coerce(FRESH)) == [];
  }

  lemma NamedFromFresh(lex: Lexicon, u: Understanding, text: string, v: string)
    requires NextSlots(u) == map[Product := v]
    ensures var result := Turn(lex, FRESH, u, text); Product in result.slots && result.slots[Product] == v
  {
    var before := Coerce(FRESH);
    ChosenFromFresh(lex, u, text, v);
    var chosen, found := Selecting(lex, before, u, text).0, Selecting(lex, before, u, text).1;
    LiteralKeepsPrice(lex, chosen, NextSlots(u), found, before);
    TurnInStages(lex, FRESH, u, text);
    SettlingKeepsSelection(Selected(lex, before, u, text), u, found, before);
  }

  lemma LongSlotIsCut(lex: Lexicon, s: State, k: Key, snapshot: Option<Snapshot>, scope: Scope)
    requires k in s.slots && Trim(s.slots[k]) == s.slots[k] && |s.slots[k]| > 300
    ensures var t := Read(lex, s, snapshot, scope); k in t.slots && t.slots[k] == s.slots[k][..300]
  {
    ReadsLeaveSelection(lex, s, snapshot, scope);
  }

  /** A name of 301 letters is stored by the turn and cut by the next read, whatever that read says. */
  lemma LongNameIsCut(lex: Lexicon, text: string, snapshot: Option<Snapshot>, scope: Scope)
    ensures var name := seq(301, i => 'x');
            var u := Understanding(OtherIntent, false, false, map[Product := name], None);
            var stored := Turn(lex, FRESH, u, text);
            && Product in stored.slots && stored.slots[Product] == name
            && Product in Read(lex, stored, snapshot, scope).slots
            && Read(lex, stored, snapshot, scope).slots[Product] == name[..300]
  {
    var name := seq(301, i => 'x');
    var u := Understanding(OtherIntent, false, false, map[Product := name], None);
    NothingToSqueeze(name);
    assert NextSlots(u)[Product] == name && NextSlots(u).Keys == {Product};
    assert NextSlots(u) == map[Product := name];
    NamedFromFresh(lex, u, text, name);
    LongSlotIsCut(lex, Turn(lex, FRESH, u, text), Product, snapshot, scope);
  }

  // ---------- The conversation object ----------

  class SalesConversation {
    var state: State

    constructor ()
      ensures state == FRESH
    {
      state := FRESH;
    }

    /** One customer turn, edit by edit. */
    method ApplyTurn(lex: Lexicon, u: Understanding, text: string)
      modifies this
      ensures state == Turn(lex, old(state), u, text)
    {
      state := Coerce(state);
      var before := state;
      var accepted := Accepted(lex, state, u, text);
      if u.topicSwitch {
        state := ClearSelection(state);
        state := state.(offer := None, offers := []);
      } else {
        if u.clearUnavailable || accepted.Some? { state := ClearUnavailable(lex, state); }
        if accepted.Some? { state := AcceptOffer(lex, state, accepted.value); }
      }
      var found := lex.extract(state, text);
      var next := NextSlots(u);
      if next != map[] && accepted.None? && state.offers != [] && !lex.mentionsOffers(state.offers, next) {
        state := state.(offer := None, offers := []);
      }
      state := SelectProduct(lex, state, next, found, u.topicSwitch);
      var previousSelection := SelectionText(state);
      state := SelectNamed(lex, state, next);
      state := SelectLiterals(state, next, found, before, accepted.None?);
      if previousSelection != SelectionText(state) { state := ClearPrices(state); }
      state := SettleQuantity(state, u, found, before);
      state := Quote(state);
      state := state.(intent := u.intent);
    }

    /** A catalogue read: the reconciled state assigned over the conversation's. */
    method ApplyRead(lex: Lexicon, snapshot: Option<Snapshot>, scope: Scope)
      modifies this
      ensures state == Read(lex, old(state), snapshot, scope)
    {
      var before := state;
      Reconciled(lex, snapshot, scope);
      state := Merged(before, state);
    }

    method Reconciled(lex: Lexicon, snapshot: Option<Snapshot>, scope: Scope)
      modifies this
      ensures state == Reconcile(lex, old(state), snapshot, scope)
    {
      state := Coerce(state);
      if snapshot.None? { return; }
      var alternatives := snapshot.value.alternatives;
      match snapshot.value.status {
        case InStock =>
          var items := snapshot.value.items;
          state := VerifyKeys(state, ScopeKeys(scope));
          var prices := PublicPrices(items);
          if scope == FamilyScope {
            if HasUnavailableFact(state) { state := CaptureOffers(lex, state, items); }
          } else if |items| == 1 || |prices| == 1 {
            if prices != [] { state := AttachPrice(state, prices[0]); }
          } else if |prices| > 1 {
            state := ClearPrices(state);
          }
        case OutOfStock =>
          var specific := Specific(state);
          if Family in state.slots { state := SetFact(state, Family, state.slots[Family], Verified, Bito); }
          if Product in state.slots {
            var verdict := if specific.Some? then Verified else Unavailable;
            state := SetFact(state, Product, state.slots[Product], verdict, Bito);
          }
          state := RejectSelection(lex, state);
          state := CaptureOffers(lex, state, alternatives);
        case NotFound =>
          if Specific(state).Some? {
            state := RejectSelection(lex, state);
          } else if Product in state.slots {
            state := ClearPrices(SetFact(state, Product, state.slots[Product], Unavailable, Bito));
          }
          state := CaptureOffers(lex, state, alternatives);
      }
    }
  }
}
