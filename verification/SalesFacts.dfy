// What a turn or a catalogue read leaves in the state, field by field: selection, fact statuses, offers, quantity.
module SalesFacts {
  import opened Common
  import opened SalesState
  import opened SalesRuns

  function FactOf(s: State, k: Key): Option<Fact> {
    if k in s.facts then Some(s.facts[k]) else None
  }

  // ---------- Accepting an offer ----------

  /** Slot `k` of an accepted offer: a product is always found, and a variant stands in for by the model. */
  function OfferSlot(lex: Lexicon, o: Offer, k: Key): Option<string> {
    match k
    case Product =>
      Some(if Product in o.slots then o.slots[Product] else if Family in o.slots then o.slots[Family] else o.name)
    case Family =>
      if Family in o.slots then Some(o.slots[Family])
      else lex.family(if Product in o.slots then o.slots[Product] else o.name)
    case Variant =>
      if Variant in o.slots then Some(o.slots[Variant])
      else if Model in o.slots then Some(o.slots[Model]) else None
    case _ => if k in o.slots then Some(o.slots[k]) else None
  }

  lemma OfferSlotsAre(lex: Lexicon, o: Offer, k: Key)
    ensures (k in OfferSlots(lex, o) <==> OfferSlot(lex, o, k).Some?)
            && (k in OfferSlots(lex, o) ==> Some(OfferSlots(lex, o)[k]) == OfferSlot(lex, o, k))
  {
  }

  predicate OfferSlotAgrees(lex: Lexicon, s: State, o: Offer, k: Key) {
    SlotAt(s, k) == OfferSlot(lex, o, k)
  }

  /** The state holds the offer and nothing of the selection before it. */
  ghost predicate HoldsOffer(lex: Lexicon, s: State, o: Offer) {
    && (forall k :: OfferSlotAgrees(lex, s, o, k))
    && (forall k :: FactOf(s, k)
                    == if Slot(s, k).Some? then Some(Fact(s.slots[k], Verified, Bito)) else None)
    && s.acceptedOffer == Some(o.name) && s.offer == Some(o) && s.unitPrice == o.unitPrice
  }

  lemma AcceptedSlots(lex: Lexicon, s: State, o: Offer)
    ensures AcceptOffer(lex, s, o).slots == OfferSlots(lex, o)
    ensures forall k :: FactOf(AcceptOffer(lex, s, o), k)
              == if k in OfferSlots(lex, o) && OfferSlots(lex, o)[k] != ""
                 then Some(Fact(OfferSlots(lex, o)[k], Verified, Bito)) else None
  {
    forall k: Key ensures k in SELECTION { EveryKey(k); }
    assert ClearSelection(s).facts == map[];
  }

  lemma AcceptingHolds(lex: Lexicon, s: State, o: Offer)
    ensures HoldsOffer(lex, AcceptOffer(lex, s, o), o)
    ensures var t := AcceptOffer(lex, s, o);
            && t.quantity.None? && t.totalPrice.None? && t.quotedPrice.None? && t.previousQuote.None?
            && t.offers == OfferList(s) && t.offered == if s.offered != [] then s.offered else Names(OfferList(s))
  {
    AcceptedSlots(lex, s, o);
    forall k ensures OfferSlotAgrees(lex, AcceptOffer(lex, s, o), o, k) { OfferSlotsAre(lex, o, k); }
  }

  /**
   * A turn that accepts an offer and names nothing selects exactly the offer, whatever literals its text holds: each of
   * its values is verified by the catalogue, and no slot, fact, price or quantity of the selection before survives.
   */
  lemma AcceptedOfferIsSelected(lex: Lexicon, previous: State, u: Understanding, text: string)
    requires Accepted(lex, Coerce(previous), u, text).Some? && NextSlots(u) == map[]
    ensures var o, result := Accepted(lex, Coerce(previous), u, text).value, Turn(lex, previous, u, text);
            HoldsOffer(lex, result, o) && (result.totalPrice.Some? ==> result.unitPrice.Some? && result.quantity.Some?)
  {
    var before := Coerce(previous);
    var o := Accepted(lex, before, u, text).value;
    var chosen, found := Selecting(lex, before, u, text).0, Selecting(lex, before, u, text).1;
    AcceptedIsChosen(lex, before, u, text);
    NothingNamed(lex, chosen, found, before);
    TurnInStages(lex, previous, u, text);
    SettlingTouches(chosen, u, found, before);
    SettledHoldsOffer(lex, chosen, Turn(lex, previous, u, text), o);
  }

  lemma SettledHoldsOffer(lex: Lexicon, s: State, t: State, o: Offer)
    requires HoldsOffer(lex, s, o) && t.slots == s.slots && t.facts == s.facts && t.unitPrice == s.unitPrice
    requires t.offer == s.offer && t.acceptedOffer == s.acceptedOffer
    ensures HoldsOffer(lex, t, o)
  {
    forall k ensures FactOf(t, k) == FactOf(s, k) && Slot(t, k) == Slot(s, k) && OfferSlotAgrees(lex, t, o, k) {
      assert OfferSlotAgrees(lex, s, o, k);
    }
  }

  lemma AcceptedIsChosen(lex: Lexicon, before: State, u: Understanding, text: string)
    requires Accepted(lex, before, u, text).Some? && NextSlots(u) == map[]
    ensures var o, chosen := Accepted(lex, before, u, text).value, Selecting(lex, before, u, text).0;
            && HoldsOffer(lex, chosen, o) && chosen.totalPrice.None?
            && chosen == AcceptOffer(lex, ClearUnavailable(lex, before), o)
  {
    var o := Accepted(lex, before, u, text).value;
    AcceptingHolds(lex, ClearUnavailable(lex, before), o);
  }

  lemma NothingNamed(lex: Lexicon, s: State, found: State, before: State)
    ensures SelectLiterals(SelectNamed(lex, s, map[]), map[], found, before, false) == s
    ensures ClearIfMoved(s, s) == s
  {
  }

  /** Settling the quantity and quoting touch nothing of the selection. */
  lemma SettlingTouches(s: State, u: Understanding, found: State, before: State)
    ensures var t := Quote(SettleQuantity(s, u, found, before)).(intent := u.intent);
            && t.slots == s.slots && t.facts == s.facts && t.unitPrice == s.unitPrice && t.offer == s.offer
            && t.offers == s.offers && t.offered == s.offered && t.acceptedOffer == s.acceptedOffer
            && t.intent == u.intent
            && (s.totalPrice.None? && t.totalPrice.Some? ==> t.unitPrice.Some? && t.quantity.Some?)
  {
  }

  // ---------- What a turn starts from ----------

  /** Slot `k` once the turn has been opened: forgotten, taken over from the offer, rejected, or kept. */
  function OpenedSlot(lex: Lexicon, s: State, u: Understanding, accepted: Option<Offer>, k: Key): Option<string> {
    if u.topicSwitch then None
    else if accepted.Some? then OfferSlot(lex, accepted.value, k)
    else if k !in s.slots then None
    else if u.clearUnavailable && k in ATTRIBUTES && k in s.facts && s.facts[k].status == Unavailable
            && lex.canonical(s.slots[k]) == lex.canonical(s.facts[k].value) then None
    else Some(s.slots[k])
  }

  function SlotAt(s: State, k: Key): Option<string> {
    if k in s.slots then Some(s.slots[k]) else None
  }

  lemma OpenedSlots(lex: Lexicon, s: State, u: Understanding, accepted: Option<Offer>, k: Key)
    requires u.topicSwitch ==> accepted.None?
    ensures SlotAt(Opening(lex, s, u, accepted), k) == OpenedSlot(lex, s, u, accepted, k)
  {
    if accepted.Some? { OfferSlotsAre(lex, accepted.value, k); }
  }

  lemma EveryKey(k: Key)
    ensures k in SELECTION
  {
  }

  /** A topic switch forgets selection, facts, prices, quotes, quantity, acceptance and offers. */
  lemma TopicSwitchForgets(lex: Lexicon, s: State, u: Understanding)
    requires u.topicSwitch
    ensures Opening(lex, s, u, None) == FRESH.(intent := s.intent)
  {
    var t := Opening(lex, s, u, None);
    forall k: Key ensures k in SELECTION { EveryKey(k); }
    assert t.slots == map[] && t.facts == map[];
  }

  /** Clearing an unavailable selection drops those facts, the slots they speak of, and the price; nothing else. */
  lemma UnavailableIsCleared(lex: Lexicon, s: State, u: Understanding, k: Key)
    requires !u.topicSwitch && u.clearUnavailable
    ensures var t := Opening(lex, s, u, None);
            && FactOf(t, k) == (if k in ATTRIBUTES && FactOf(s, k).Some? && FactOf(s, k).value.status == Unavailable
                                then None else FactOf(s, k))
            && (s.facts != map[] ==> NoPrice(t))
            && t.quantity == s.quantity && t.offers == s.offers && t.offer == s.offer
  {
  }

  // ---------- The product and the attributes after a turn ----------

  /** The product named, or else the family named. */
  function Named(next: map<Key, string>): Option<string> {
    if Product in next then Some(next[Product]) else if Family in next then Some(next[Family]) else None
  }

  /** The selection made so far is left behind for another product or family. */
  predicate LeavesSelection(lex: Lexicon, start: State, u: Understanding) {
    !u.topicSwitch && NamesAnother(lex, start, NextSlots(u))
  }

  lemma ChosenProduct(lex: Lexicon, before: State, u: Understanding, text: string)
    ensures var start := Opening(lex, before, u, Accepted(lex, before, u, text));
            var (chosen, found) := Selecting(lex, before, u, text);
            SlotAt(chosen, Product) ==
              if Named(NextSlots(u)).Some? then Named(NextSlots(u))
              else if SlotAt(start, Product).Some? then SlotAt(start, Product) else Slot(found, Product)
  {
    var start, next := Opening(lex, before, u, Accepted(lex, before, u, text)), NextSlots(u);
    var live := DropStaleOffers(lex, start, next, Accepted(lex, before, u, text));
    SelectedProduct(lex, live, next, lex.extract(start, text), u.topicSwitch);
  }

  lemma SelectedProduct(lex: Lexicon, s: State, next: map<Key, string>, found: State, topicSwitch: bool)
    ensures SlotAt(SelectProduct(lex, s, next, found, topicSwitch), Product) ==
              if Named(next).Some? then Named(next)
              else if SlotAt(s, Product).Some? then SlotAt(s, Product) else Slot(found, Product)
  {
    if Product in next || Family in next { NamedSlotsOf(lex, s, next, topicSwitch); }
  }

  /** A named product with its family: the one named, known for the product, or held; the attributes stay or go. */
  lemma NamedSlotsOf(lex: Lexicon, s: State, next: map<Key, string>, topicSwitch: bool)
    requires Product in next || Family in next
    ensures var t, c := NamedProduct(lex, s, next, topicSwitch), Cleared(lex, s, next, topicSwitch);
            && SlotAt(t, Product) == Named(next) && SlotAt(t, Family) == ResolvedFamily(lex, c, next)
            && forall k :: k in ATTRIBUTES ==> SlotAt(t, k) == SlotAt(c, k)
  {
  }

  lemma ClearedSlots(lex: Lexicon, s: State, next: map<Key, string>, topicSwitch: bool, k: Key)
    requires Product in next || Family in next
    ensures SlotAt(Cleared(lex, s, next, topicSwitch), k)
            == if !topicSwitch && NamesAnother(lex, s, next) then None else SlotAt(s, k)
  {
    EveryKey(k);
  }

  lemma ChosenAttribute(lex: Lexicon, before: State, u: Understanding, text: string, k: Key)
    requires k in ATTRIBUTES
    ensures var start := Opening(lex, before, u, Accepted(lex, before, u, text));
            SlotAt(Selecting(lex, before, u, text).0, k) ==
              if LeavesSelection(lex, start, u) then None else SlotAt(start, k)
  {
    var start, next := Opening(lex, before, u, Accepted(lex, before, u, text)), NextSlots(u);
    var live := DropStaleOffers(lex, start, next, Accepted(lex, before, u, text));
    ProductKeepsAttributes(lex, live, next, lex.extract(start, text), u.topicSwitch, k);
  }

  lemma ProductKeepsAttributes(lex: Lexicon, s: State, next: map<Key, string>, found: State, topicSwitch: bool, k: Key)
    requires k in ATTRIBUTES
    ensures SlotAt(SelectProduct(lex, s, next, found, topicSwitch), k)
            == if !topicSwitch && NamesAnother(lex, s, next) then None else SlotAt(s, k)
  {
    if Product in next || Family in next {
      NamedSlotsOf(lex, s, next, topicSwitch);
      ClearedSlots(lex, s, next, topicSwitch, k);
    }
  }

  /** The family: the one named, known for the product, or held, unless the turn leaves no product. */
  function FamilyAfter(lex: Lexicon, start: State, found: State, u: Understanding): Option<string> {
    var next := NextSlots(u);
    var held := if LeavesSelection(lex, start, u) then None else SlotAt(start, Family);
    if Family in next then Some(next[Family])
    else if Product in next then
      if lex.family(next[Product]).Some? then lex.family(next[Product]) else held
    else if SlotAt(start, Product).None? && Slot(found, Product).Some? then
      if Family in found.slots then Some(found.slots[Family]) else lex.family(found.slots[Product])
    else held
  }

  lemma ChosenFamily(lex: Lexicon, before: State, u: Understanding, text: string)
    ensures var start := Opening(lex, before, u, Accepted(lex, before, u, text));
            var (chosen, found) := Selecting(lex, before, u, text);
            SlotAt(chosen, Family) == FamilyAfter(lex, start, found, u)
  {
    var start := Opening(lex, before, u, Accepted(lex, before, u, text));
    var live := DropStaleOffers(lex, start, NextSlots(u), Accepted(lex, before, u, text));
    SelectedFamily(lex, live, u, lex.extract(start, text));
    SameSlotsSameFamily(lex, start, live, lex.extract(start, text), u);
  }

  lemma SameSlotsSameFamily(lex: Lexicon, s: State, t: State, found: State, u: Understanding)
    requires t.slots == s.slots
    ensures FamilyAfter(lex, t, found, u) == FamilyAfter(lex, s, found, u)
  {
  }

  lemma SelectedFamily(lex: Lexicon, s: State, u: Understanding, found: State)
    ensures SlotAt(SelectProduct(lex, s, NextSlots(u), found, u.topicSwitch), Family) == FamilyAfter(lex, s, found, u)
  {
    var next := NextSlots(u);
    if Product in next || Family in next {
      NamedSlotsOf(lex, s, next, u.topicSwitch);
      ClearedSlots(lex, s, next, u.topicSwitch, Family);
    }
  }

  /** What is named wins over a literal of the text, that over the model, and that over what was chosen. */
  function AttributeAfter(before: State, chosen: State, found: State, next: map<Key, string>, literals: bool, k: Key)
    : Option<string>
  {
    if k in next then Some(next[k])
    else if literals && k != Model && (k == Variant ==> Product in chosen.slots) && IsNewLiteral(next, found, before, k)
    then Slot(found, k)
    else if k == Variant && Model in next then Some(next[Model])
    else Slot(chosen, k)
  }

  lemma LiteralsChoose(s: State, next: map<Key, string>, found: State, before: State, allowed: bool, x: Key)
    requires x in ATTRIBUTES
    ensures Slot(SelectLiterals(s, next, found, before, allowed), x)
            == if allowed && x != Model && (x == Variant ==> Product in s.slots) && IsNewLiteral(next, found, before, x)
               then Slot(found, x) else Slot(s, x)
  {
    var v := SelectExtracted(s, next, found, before, Variant, allowed && Product in s.slots);
    var st := SelectExtracted(v, next, found, before, Storage, allowed);
    var c := SelectExtracted(st, next, found, before, Color, allowed);
    ExtractedSlot(s, next, found, before, Variant, allowed && Product in s.slots, x);
    ExtractedSlot(v, next, found, before, Storage, allowed, x);
    ExtractedSlot(st, next, found, before, Color, allowed, x);
    ExtractedSlot(c, next, found, before, Size, allowed, x);
  }

  /** `t` has the product and family, quantity, quotes, offers and acceptance of `s`. */
  predicate Aside(s: State, t: State) {
    && SlotAt(t, Product) == SlotAt(s, Product) && SlotAt(t, Family) == SlotAt(s, Family)
    && t.quantity == s.quantity && t.quotedPrice == s.quotedPrice && t.previousQuote == s.previousQuote
    && t.offers == s.offers && t.offer == s.offer && t.offered == s.offered && t.acceptedOffer == s.acceptedOffer
  }

  lemma AsideTransitive(a: State, b: State, c: State)
    requires Aside(a, b) && Aside(b, c)
    ensures Aside(a, c)
  {
  }

  lemma ModelAside(lex: Lexicon, s: State, next: map<Key, string>)
    ensures Aside(s, SelectModel(lex, s, next))
  {
  }

  lemma AttributeAside(lex: Lexicon, s: State, next: map<Key, string>, k: Key)
    requires k in ATTRIBUTES
    ensures Aside(s, SelectAttribute(lex, s, next, k))
  {
  }

  lemma LiteralAside(s: State, next: map<Key, string>, found: State, before: State, k: Key, allowed: bool)
    requires k in ATTRIBUTES
    ensures Aside(s, SelectExtracted(s, next, found, before, k, allowed))
  {
  }

  lemma NamedAside(lex: Lexicon, s: State, next: map<Key, string>)
    ensures Aside(s, SelectNamed(lex, s, next))
  {
    var m := SelectModel(lex, s, next);
    var st := SelectAttribute(lex, m, next, Storage);
    var v := SelectAttribute(lex, st, next, Variant);
    var c := SelectAttribute(lex, v, next, Color);
    ModelAside(lex, s, next);
    AttributeAside(lex, m, next, Storage);
    AttributeAside(lex, st, next, Variant);
    AttributeAside(lex, v, next, Color);
    AttributeAside(lex, c, next, Size);
    AsideTransitive(s, m, st);
    AsideTransitive(s, st, v);
    AsideTransitive(s, v, c);
    AsideTransitive(s, c, SelectNamed(lex, s, next));
  }

  lemma LiteralsAside(s: State, next: map<Key, string>, found: State, before: State, allowed: bool)
    ensures Aside(s, SelectLiterals(s, next, found, before, allowed))
  {
    var v := SelectExtracted(s, next, found, before, Variant, allowed && Product in s.slots);
    var st := SelectExtracted(v, next, found, before, Storage, allowed);
    var c := SelectExtracted(st, next, found, before, Color, allowed);
    LiteralAside(s, next, found, before, Variant, allowed && Product in s.slots);
    LiteralAside(v, next, found, before, Storage, allowed);
    LiteralAside(st, next, found, before, Color, allowed);
    LiteralAside(c, next, found, before, Size, allowed);
    AsideTransitive(s, v, st);
    AsideTransitive(s, st, c);
    AsideTransitive(s, c, SelectLiterals(s, next, found, before, allowed));
  }

  /** Choosing attributes touches nothing else, apart from the price. */
  lemma SelectedAside(lex: Lexicon, before: State, u: Understanding, text: string)
    ensures Aside(Selecting(lex, before, u, text).0, Selected(lex, before, u, text))
  {
    var (chosen, found) := Selecting(lex, before, u, text);
    var next, allowed := NextSlots(u), Accepted(lex, before, u, text).None?;
    var named := SelectNamed(lex, chosen, next);
    var literal := SelectLiterals(named, next, found, before, allowed);
    NamedAside(lex, chosen, next);
    LiteralsAside(named, next, found, before, allowed);
    AsideTransitive(chosen, named, literal);
    AsideTransitive(chosen, literal, ClearIfMoved(chosen, literal));
  }

  /** Attribute `k` after the turn, from what was chosen, and what was chosen from what the turn was opened with. */
  predicate AttributeSettles(lex: Lexicon, previous: State, u: Understanding, text: string, k: Key) {
    var before, result, next := Coerce(previous), Turn(lex, previous, u, text), NextSlots(u);
    var accepted := Accepted(lex, before, u, text);
    var start := Opening(lex, before, u, accepted);
    var (chosen, found) := Selecting(lex, before, u, text);
    && Slot(result, k) == AttributeAfter(before, chosen, found, next, accepted.None?, k)
    && SlotAt(chosen, k) == (if LeavesSelection(lex, start, u) then None else SlotAt(start, k))
  }

  /** The whole selection after any turn, offer accepted or not. */
  lemma SelectionAfterTurn(lex: Lexicon, previous: State, u: Understanding, text: string)
    ensures var before, result, next := Coerce(previous), Turn(lex, previous, u, text), NextSlots(u);
            var accepted := Accepted(lex, before, u, text);
            var start := Opening(lex, before, u, accepted);
            var (chosen, found) := Selecting(lex, before, u, text);
            && SlotAt(result, Product) == (if Named(next).Some? then Named(next)
                                           else if SlotAt(start, Product).Some? then SlotAt(start, Product)
                                           else Slot(found, Product))
            && SlotAt(result, Family) == FamilyAfter(lex, start, found, u)
            && forall k :: k in ATTRIBUTES ==> AttributeSettles(lex, previous, u, text, k)
  {
    var before := Coerce(previous);
    TurnKeepsProduct(lex, previous, u, text);
    ChosenProduct(lex, before, u, text);
    ChosenFamily(lex, before, u, text);
    forall k | k in ATTRIBUTES ensures AttributeSettles(lex, previous, u, text, k) {
      TurnAttribute(lex, previous, u, text, k);
      ChosenAttribute(lex, before, u, text, k);
    }
  }

  lemma TurnKeepsProduct(lex: Lexicon, previous: State, u: Understanding, text: string)
    ensures var result, chosen := Turn(lex, previous, u, text), Selecting(lex, Coerce(previous), u, text).0;
            SlotAt(result, Product) == SlotAt(chosen, Product) && SlotAt(result, Family) == SlotAt(chosen, Family)
  {
    var before := Coerce(previous);
    TurnInStages(lex, previous, u, text);
    SelectedAside(lex, before, u, text);
    SettlingTouches(Selected(lex, before, u, text), u, Selecting(lex, before, u, text).1, before);
  }

  lemma TurnAttribute(lex: Lexicon, previous: State, u: Understanding, text: string, k: Key)
    requires k in ATTRIBUTES
    ensures var before, next := Coerce(previous), NextSlots(u);
            var (chosen, found) := Selecting(lex, before, u, text);
            Slot(Turn(lex, previous, u, text), k)
            == AttributeAfter(before, chosen, found, next, Accepted(lex, before, u, text).None?, k)
  {
    var before, next := Coerce(previous), NextSlots(u);
    var (chosen, found) := Selecting(lex, before, u, text);
    var literals := Accepted(lex, before, u, text).None?;
    var named := SelectNamed(lex, chosen, next);
    TurnInStages(lex, previous, u, text);
    SettlingTouches(Selected(lex, before, u, text), u, found, before);
    SlotOfSelected(lex, before, u, text, k);
    NamedAside(lex, chosen, next);
    NamedSlots(lex, chosen, next, k);
    LiteralsChoose(named, next, found, before, literals, k);
  }

  lemma SlotOfSelected(lex: Lexicon, before: State, u: Understanding, text: string, k: Key)
    ensures var next, literals := NextSlots(u), Accepted(lex, before, u, text).None?;
            var (chosen, found) := Selecting(lex, before, u, text);
            Slot(Selected(lex, before, u, text), k)
            == Slot(SelectLiterals(SelectNamed(lex, chosen, next), next, found, before, literals), k)
  {
  }

  // ---------- Quantity and quotes after a turn ----------

  /** The quantity understood, else a new one found in the text, both capped at a million, else the one held. */
  lemma QuantityAfterTurn(lex: Lexicon, previous: State, u: Understanding, text: string)
    ensures var before, result := Coerce(previous), Turn(lex, previous, u, text);
            var (chosen, found) := Selecting(lex, before, u, text);
            var given := if u.quantity.Some? && u.quantity.value > 0.0 then u.quantity
                         else if found.quantity != before.quantity && found.quantity.Some? && found.quantity.value > 0.0
                         then found.quantity else None;
            result.quantity == if given.None? then chosen.quantity
                               else if given.value <= 1_000_000.0 then given else Some(1_000_000.0)
  {
    var before, next := Coerce(previous), NextSlots(u);
    var (chosen, found) := Selecting(lex, before, u, text);
    TurnInStages(lex, previous, u, text);
    SelectedAside(lex, before, u, text);
  }

  /** A price held after a turn is the quoted one; another price quoted before becomes the previous quote. */
  lemma QuotesAfterTurn(lex: Lexicon, previous: State, u: Understanding, text: string)
    ensures var before, result := Coerce(previous), Turn(lex, previous, u, text);
            var chosen := Selecting(lex, before, u, text).0;
            if result.unitPrice.None? then
              result.quotedPrice == chosen.quotedPrice && result.previousQuote == chosen.previousQuote
            else
              && result.quotedPrice == result.unitPrice
              && result.previousQuote == if chosen.quotedPrice.Some? && chosen.quotedPrice != result.unitPrice
                                         then chosen.quotedPrice else chosen.previousQuote
  {
    var before, next := Coerce(previous), NextSlots(u);
    var (chosen, found) := Selecting(lex, before, u, text);
    TurnInStages(lex, previous, u, text);
    SelectedAside(lex, before, u, text);
  }

  /** Offers survive a turn, unless it switches topic or names something that none of them matches. */
  lemma OffersAfterTurn(lex: Lexicon, previous: State, u: Understanding, text: string)
    requires Accepted(lex, Coerce(previous), u, text).None?
    ensures var before, result, next := Coerce(previous), Turn(lex, previous, u, text), NextSlots(u);
            if u.topicSwitch || (next != map[] && before.offers != [] && !lex.mentionsOffers(before.offers, next))
            then result.offers == [] && result.offer.None?
            else result.offers == before.offers && result.offer == before.offer
  {
    var before, next := Coerce(previous), NextSlots(u);
    var (chosen, found) := Selecting(lex, before, u, text);
    TurnInStages(lex, previous, u, text);
    SelectedAside(lex, before, u, text);
    var live := DropStaleOffers(lex, Opening(lex, before, u, None), next, None);
    ProductKeepsOffers(lex, live, next, found, u.topicSwitch);
  }

  lemma ProductKeepsOffers(lex: Lexicon, s: State, next: map<Key, string>, found: State, topicSwitch: bool)
    ensures var t := SelectProduct(lex, s, next, found, topicSwitch); t.offers == s.offers && t.offer == s.offer
  {
  }

  // ---------- Facts after a turn ----------

  /** A value named anew is a customer's proposal; the same value keeps the fact about it, if there is one. */
  function Proposal(lex: Lexicon, s: State, k: Key, value: string): Fact {
    if k in s.slots && lex.canonical(s.slots[k]) == lex.canonical(value) && k in s.facts then s.facts[k]
    else Fact(value, Proposed, FactSource.Customer)
  }

  lemma ModelFacts(lex: Lexicon, s: State, next: map<Key, string>, k: Key)
    ensures FactOf(SelectModel(lex, s, next), k)
            == if Model in next && k == Model then Some(Proposal(lex, s, Model, next[Model]))
               else if Model in next && k == Variant && Variant !in next then
                 Some(if Model in s.slots && lex.canonical(s.slots[Model]) == lex.canonical(next[Model])
                         && Variant in s.facts
                      then s.facts[Variant] else Fact(next[Model], Proposed, FactSource.Customer))
               else FactOf(s, k)
  {
  }

  lemma AttributeFacts(lex: Lexicon, s: State, next: map<Key, string>, k: Key, x: Key)
    ensures FactOf(SelectAttribute(lex, s, next, k), x)
            == if x == k && k in next then Some(Proposal(lex, s, k, next[k])) else FactOf(s, x)
  {
  }

  lemma ExtractedFacts(s: State, next: map<Key, string>, found: State, before: State, k: Key, allowed: bool, x: Key)
    ensures FactOf(SelectExtracted(s, next, found, before, k, allowed), x)
            == if x == k && allowed && IsNewLiteral(next, found, before, k)
               then Some(Fact(found.slots[k], Proposed, FactSource.Customer))
               else FactOf(s, x)
  {
  }

  lemma NamedFacts(lex: Lexicon, s: State, next: map<Key, string>, x: Key)
    requires x in {Storage, Color, Size}
    ensures FactOf(SelectNamed(lex, s, next), x)
            == if x in next then Some(Proposal(lex, s, x, next[x])) else FactOf(s, x)
  {
    var m := SelectModel(lex, s, next);
    var st := SelectAttribute(lex, m, next, Storage);
    var v := SelectAttribute(lex, st, next, Variant);
    var c := SelectAttribute(lex, v, next, Color);
    ModelFacts(lex, s, next, x);
    AttributeFacts(lex, m, next, Storage, x);
    AttributeFacts(lex, st, next, Variant, x);
    AttributeFacts(lex, v, next, Color, x);
    AttributeFacts(lex, c, next, Size, x);
    SlotsBefore(lex, s, next, x);
  }

  /** Each attribute is compared with the value held before the turn named anything. */
  lemma SlotsBefore(lex: Lexicon, s: State, next: map<Key, string>, x: Key)
    requires x in {Storage, Color, Size}
    ensures var m := SelectModel(lex, s, next);
            var st := SelectAttribute(lex, m, next, Storage);
            var v := SelectAttribute(lex, st, next, Variant);
            var c := SelectAttribute(lex, v, next, Color);
            && SlotAt(m, x) == SlotAt(s, x) && (x != Storage ==> SlotAt(v, x) == SlotAt(s, x))
            && (x == Size ==> SlotAt(c, x) == SlotAt(s, x))
  {
    var m := SelectModel(lex, s, next);
    var st := SelectAttribute(lex, m, next, Storage);
    var v := SelectAttribute(lex, st, next, Variant);
    SlotsElsewhere(lex, s, next, Storage, x);
    SlotsElsewhere(lex, m, next, Storage, x);
    SlotsElsewhere(lex, st, next, Variant, x);
    SlotsElsewhere(lex, v, next, Color, x);
  }

  lemma SlotsElsewhere(lex: Lexicon, s: State, next: map<Key, string>, k: Key, x: Key)
    ensures x != k ==> SlotAt(SelectAttribute(lex, s, next, k), x) == SlotAt(s, x)
    ensures x != Model && x != Variant ==> SlotAt(SelectModel(lex, s, next), x) == SlotAt(s, x)
  {
  }

  lemma LiteralFacts(s: State, next: map<Key, string>, found: State, before: State, allowed: bool, x: Key)
    requires x in {Storage, Color, Size}
    ensures FactOf(SelectLiterals(s, next, found, before, allowed), x)
            == if allowed && IsNewLiteral(next, found, before, x)
               then Some(Fact(found.slots[x], Proposed, FactSource.Customer))
               else FactOf(s, x)
  {
    var v := SelectExtracted(s, next, found, before, Variant, allowed && Product in s.slots);
    var st := SelectExtracted(v, next, found, before, Storage, allowed);
    var c := SelectExtracted(st, next, found, before, Color, allowed);
    ExtractedFacts(s, next, found, before, Variant, allowed && Product in s.slots, x);
    ExtractedFacts(v, next, found, before, Storage, allowed, x);
    ExtractedFacts(st, next, found, before, Color, allowed, x);
    ExtractedFacts(c, next, found, before, Size, allowed, x);
  }

  /** Storage, color or size newly named or found in the text is a customer's proposal of that value. */
  lemma FactsAfterTurn(lex: Lexicon, previous: State, u: Understanding, text: string, k: Key)
    requires k in {Storage, Color, Size}
    ensures var before, result, next := Coerce(previous), Turn(lex, previous, u, text), NextSlots(u);
            var (chosen, found) := Selecting(lex, before, u, text);
            FactOf(result, k) ==
              if k in next then Some(Proposal(lex, chosen, k, next[k]))
              else if Accepted(lex, before, u, text).None? && IsNewLiteral(next, found, before, k)
              then Some(Fact(found.slots[k], Proposed, FactSource.Customer))
              else FactOf(chosen, k)
  {
    var before, next := Coerce(previous), NextSlots(u);
    var (chosen, found) := Selecting(lex, before, u, text);
    TurnInStages(lex, previous, u, text);
    SettlingTouches(Selected(lex, before, u, text), u, found, before);
    FactOfSelected(lex, before, u, text, k);
    NamedAndFoundFacts(lex, chosen, next, found, before, Accepted(lex, before, u, text).None?, k);
  }

  lemma NamedAndFoundFacts(
    lex: Lexicon, s: State, next: map<Key, string>, found: State, before: State, literals: bool, k: Key)
    requires k in {Storage, Color, Size}
    ensures FactOf(SelectLiterals(SelectNamed(lex, s, next), next, found, before, literals), k)
            == if k in next then Some(Proposal(lex, s, k, next[k]))
               else if literals && IsNewLiteral(next, found, before, k)
               then Some(Fact(found.slots[k], Proposed, FactSource.Customer))
               else FactOf(s, k)
  {
    NamedFacts(lex, s, next, k);
    LiteralFacts(SelectNamed(lex, s, next), next, found, before, literals, k);
  }

  lemma FactOfSelected(lex: Lexicon, before: State, u: Understanding, text: string, k: Key)
    ensures var next, literals := NextSlots(u), Accepted(lex, before, u, text).None?;
            var (chosen, found) := Selecting(lex, before, u, text);
            FactOf(Selected(lex, before, u, text), k)
            == FactOf(SelectLiterals(SelectNamed(lex, chosen, next), next, found, before, literals), k)
  {
  }

  /** A product named anew is a customer's proposal. */
  lemma ProductFactAfterNaming(lex: Lexicon, s: State, next: map<Key, string>, topicSwitch: bool)
    requires Product in next || Family in next
    ensures var t, c := NamedProduct(lex, s, next, topicSwitch), Cleared(lex, s, next, topicSwitch);
            && FactOf(t, Product) == Some(Proposal(lex, c, Product, Named(next).value))
            && forall k :: k in ATTRIBUTES ==> FactOf(t, k) == FactOf(c, k)
  {
  }

  /** And so is its family. */
  lemma FamilyFactAfterNaming(lex: Lexicon, s: State, next: map<Key, string>, topicSwitch: bool)
    requires Product in next || Family in next
    ensures var t, c := NamedProduct(lex, s, next, topicSwitch), Cleared(lex, s, next, topicSwitch);
            var family := ResolvedFamily(lex, c, next);
            FactOf(t, Family)
            == if family.Some? then Some(Proposal(lex, c, Family, family.value)) else FactOf(c, Family)
  {
  }

  /** So are a product found in the text when none is held or named, and the family found with it or inferred. */
  lemma FactsAfterFinding(lex: Lexicon, s: State, next: map<Key, string>, found: State, topicSwitch: bool, k: Key)
    requires Product !in next && Family !in next && Product !in s.slots && Slot(found, Product).Some?
    ensures var product := found.slots[Product];
            var family := if Family in found.slots then Some(found.slots[Family]) else lex.family(product);
            FactOf(SelectProduct(lex, s, next, found, topicSwitch), k)
            == if k == Product then Some(Fact(product, Proposed, FactSource.Customer))
               else if k == Family && family.Some? then Some(Fact(family.value, Proposed, FactSource.Customer))
               else FactOf(s, k)
  {
  }

  // ---------- Facts after a catalogue read ----------

  /** The slot is present and alike to the most specific one. */
  predicate AlikeToMostSpecific(lex: Lexicon, s: State, k: Key) {
    && k in ATTRIBUTES && Slot(s, k).Some? && Specific(s).Some?
    && lex.canonical(s.slots[k]) == lex.canonical(s.slots[Specific(s).value])
  }

  /** Color before storage, size, variant and model. */
  lemma MostSpecific(s: State)
    ensures Specific(s).Some? <==> exists k :: k in ATTRIBUTES && Slot(s, k).Some?
    ensures var k := Specific(s);
            && (k.Some? ==> k.value in ATTRIBUTES && Slot(s, k.value).Some?)
            && (Slot(s, Color).Some? <==> k == Some(Color))
            && (k == Some(Storage) ==> Slot(s, Color).None?)
            && (k == Some(Size) ==> Slot(s, Color).None? && Slot(s, Storage).None?)
            && (k == Some(Variant) ==> Slot(s, Color).None? && Slot(s, Storage).None? && Slot(s, Size).None?)
            && (k == Some(Model) ==>
                  Slot(s, Color).None? && Slot(s, Storage).None? && Slot(s, Size).None? && Slot(s, Variant).None?)
  {
  }

  lemma RejectedFacts(lex: Lexicon, s: State, k: Key)
    ensures FactOf(RejectSelection(lex, s), k)
            == if AlikeToMostSpecific(lex, s, k) then Some(Fact(s.slots[k], Unavailable, Bito)) else FactOf(s, k)
  {
  }

  lemma CaptureKeepsFacts(lex: Lexicon, s: State, items: seq<Item>)
    ensures CaptureOffers(lex, s, items).facts == s.facts
  {
  }

  /** What the reconciled state knows of slot `k`, by the catalogue's answer. */
  function FactAfterRead(lex: Lexicon, s: State, status: Availability, scope: Scope, k: Key): Option<Fact> {
    match status
    case InStock =>
      if k in ScopeKeys(scope) && k in s.slots && Trim(s.slots[k]) != "" then Some(Fact(s.slots[k], Verified, Bito))
      else FactOf(s, k)
    case OutOfStock =>
      if AlikeToMostSpecific(lex, s, k) then Some(Fact(s.slots[k], Unavailable, Bito))
      else if k == Family && k in s.slots then Some(Fact(s.slots[k], Verified, Bito))
      else if k == Product && k in s.slots then
        Some(Fact(s.slots[k], if Specific(s).Some? then Verified else Unavailable, Bito))
      else FactOf(s, k)
    case NotFound =>
      if AlikeToMostSpecific(lex, s, k) then Some(Fact(s.slots[k], Unavailable, Bito))
      else if k == Product && k in s.slots && Specific(s).None? then Some(Fact(s.slots[k], Unavailable, Bito))
      else FactOf(s, k)
  }

  lemma ScopesCover(k: Key)
    ensures k in ScopeKeys(FamilyScope) <==> k == Product || k == Family
    ensures k in ScopeKeys(ProductScope) <==> k == Product || k == Family || k == Model
    ensures k in ScopeKeys(SelectionScope)
  {
  }

  lemma VerifiedFacts(s: State, keys: set<Key>, k: Key)
    ensures FactOf(VerifyKeys(s, keys), k)
            == if k in keys && k in s.slots && Trim(s.slots[k]) != "" then Some(Fact(s.slots[k], Verified, Bito))
               else FactOf(s, k)
  {
  }

  lemma PricesKeepFacts(s: State, items: seq<Item>)
    ensures var t := ReconcilePrices(s, items);
            t.facts == s.facts && t.offers == s.offers && t.offer == s.offer && t.offered == s.offered
  {
  }

  lemma InStockFacts(lex: Lexicon, s: State, items: seq<Item>, scope: Scope, k: Key)
    ensures FactOf(ReconcileInStock(lex, s, items, scope), k) == FactAfterRead(lex, s, InStock, scope, k)
  {
    var v := VerifyKeys(s, ScopeKeys(scope));
    VerifiedFacts(s, ScopeKeys(scope), k);
    CaptureKeepsFacts(lex, v, items);
    PricesKeepFacts(v, items);
    assert ReconcileInStock(lex, s, items, scope).facts == v.facts;
  }

  lemma KnownFacts(s: State, k: Key)
    ensures FactOf(KnownProduct(s), k)
            == if k == Family && k in s.slots then Some(Fact(s.slots[k], Verified, Bito))
               else if k == Product && k in s.slots
               then Some(Fact(s.slots[k], if Specific(s).Some? then Verified else Unavailable, Bito))
               else FactOf(s, k)
    ensures KnownProduct(s).slots == s.slots
  {
  }

  lemma SameSlotsReject(lex: Lexicon, s: State, t: State, k: Key)
    requires t.slots == s.slots
    ensures AlikeToMostSpecific(lex, t, k) <==> AlikeToMostSpecific(lex, s, k)
  {
    assert forall x :: Slot(t, x) == Slot(s, x);
  }

  lemma OutOfStockFacts(lex: Lexicon, s: State, items: seq<Item>, scope: Scope, k: Key)
    ensures FactOf(ReconcileOutOfStock(lex, s, items), k) == FactAfterRead(lex, s, OutOfStock, scope, k)
  {
    var p := KnownProduct(s);
    KnownFacts(s, k);
    SameSlotsReject(lex, s, p, k);
    RejectedFacts(lex, p, k);
    CaptureKeepsFacts(lex, RejectSelection(lex, p), items);
    assert ReconcileOutOfStock(lex, s, items).facts == RejectSelection(lex, p).facts;
  }

  lemma NotFoundFacts(lex: Lexicon, s: State, items: seq<Item>, scope: Scope, k: Key)
    ensures FactOf(ReconcileNotFound(lex, s, items), k) == FactAfterRead(lex, s, NotFound, scope, k)
  {
    RejectedFacts(lex, s, k);
    CaptureKeepsFacts(lex, Rejected(lex, s), items);
  }

  /** After a read with an answer exactly these facts change; without one none does. */
  lemma FactsAfterRead(lex: Lexicon, s: State, snapshot: Option<Snapshot>, scope: Scope, k: Key)
    ensures FactOf(Reconcile(lex, s, snapshot, scope), k)
            == if snapshot.None? then FactOf(Coerce(s), k)
               else FactAfterRead(lex, Coerce(s), snapshot.value.status, scope, k)
  {
    if snapshot.Some? {
      match snapshot.value.status
      case InStock => InStockFacts(lex, Coerce(s), snapshot.value.items, scope, k);
      case OutOfStock => OutOfStockFacts(lex, Coerce(s), snapshot.value.alternatives, scope, k);
      case NotFound => NotFoundFacts(lex, Coerce(s), snapshot.value.alternatives, scope, k);
    }
  }

  /** The conversation takes the facts over, unless the read leaves none at all. */
  lemma FactsAfterMerge(lex: Lexicon, s: State, snapshot: Option<Snapshot>, scope: Scope, k: Key)
    ensures var r := Reconcile(lex, s, snapshot, scope);
            FactOf(Read(lex, s, snapshot, scope), k) == if r.facts == map[] then FactOf(s, k) else FactOf(r, k)
  {
  }

  /** The public prices of a read: each price of a row that is not negative, once. */
  lemma {:induction false} PublicPricesAre(items: seq<Item>)
    ensures Distinct(PublicPrices(items))
    ensures forall p :: p in PublicPrices(items) <==> p >= 0.0 && exists i :: i in items && i.price == Some(p)
  {
    if items != [] {
      var n := |items| - 1;
      PublicPricesAre(items[..n]);
      assert items == items[..n] + [items[n]];
    }
  }

  // ---------- Offers after a catalogue read ----------

  /** A row that can be offered: it has a name and is not known to be out of stock. */
  predicate CanBeOffered(i: Item) {
    i.name.Some? && Trim(i.name.value) != "" && (i.quantity.None? || i.quantity.value > 0.0)
  }

  lemma {:induction false} OfferableIff(items: seq<Item>)
    ensures forall i :: i in Offerable(items) <==> i in items && CanBeOffered(i)
  {
    if items != [] {
      OfferableIff(items[1..]);
      assert items == [items[0]] + items[1..];
    }
  }

  lemma {:induction false} OffersMatchRows(lex: Lexicon, items: seq<Item>)
    requires forall i :: i in items ==> i.name.Some?
    ensures |ToOffers(lex, items)| == |items|
    ensures forall j :: 0 <= j < |items| ==> ToOffers(lex, items)[j] == OfferOf(lex, items[j])
  {
    if items != [] {
      OffersMatchRows(lex, items[1..]);
      assert ToOffers(lex, items)[0] == OfferOf(lex, items[0]);
      assert ToOffers(lex, items)[1..] == ToOffers(lex, items[1..]);
    }
  }

  /** A row as an offer: its name cut at three hundred characters, what the name tells, its price and its stock. */
  function OfferOf(lex: Lexicon, i: Item): Offer
    requires i.name.Some?
  {
    var name := Prefix(Trim(i.name.value), 300);
    Offer(name, lex.describe(name), if i.price.Some? && i.price.value >= 0.0 then i.price else None,
          if i.quantity.Some? && i.quantity.value >= 0.0 then i.quantity else None)
  }

  /** The offers of one rank, in order. */
  function OfRank(lex: Lexicon, s: State, offers: seq<Offer>, rank: real): seq<Offer> {
    if offers == [] then []
    else (if lex.rank(s, offers[0]) == rank then [offers[0]] else []) + OfRank(lex, s, offers[1..], rank)
  }

  lemma {:induction false} OfRankConcat(lex: Lexicon, s: State, a: seq<Offer>, b: seq<Offer>, rank: real)
    ensures OfRank(lex, s, a + b, rank) == OfRank(lex, s, a, rank) + OfRank(lex, s, b, rank)
  {
    if a == [] {
      assert a + b == b;
    } else {
      assert (a + b)[0] == a[0] && (a + b)[1..] == a[1..] + b;
      OfRankConcat(lex, s, a[1..], b, rank);
    }
  }

  lemma {:induction false} NoneOfRank(lex: Lexicon, s: State, offers: seq<Offer>, rank: real)
    requires forall o :: o in offers ==> lex.rank(s, o) != rank
    ensures OfRank(lex, s, offers, rank) == []
  {
    if offers != [] {
      assert offers[0] in offers;
      NoneOfRank(lex, s, offers[1..], rank);
    }
  }

  lemma HigherGoesFirst(lex: Lexicon, s: State, sorted: seq<Offer>, o: Offer, rank: real)
    requires Descending(lex, s, sorted) && sorted != [] && lex.rank(s, o) > lex.rank(s, sorted[0])
    ensures OfRank(lex, s, [o] + sorted, rank) == OfRank(lex, s, sorted, rank) + OfRank(lex, s, [o], rank)
  {
    OfRankConcat(lex, s, [o], sorted, rank);
    if rank == lex.rank(s, o) {
      forall x | x in sorted ensures lex.rank(s, x) != rank {
        var i :| 0 <= i < |sorted| && sorted[i] == x;
        assert lex.rank(s, sorted[0]) >= lex.rank(s, sorted[i]);
      }
      NoneOfRank(lex, s, sorted, rank);
    }
  }

  lemma {:induction false} InsertedBehindItsRank(lex: Lexicon, s: State, sorted: seq<Offer>, o: Offer, rank: real)
    requires Descending(lex, s, sorted)
    ensures OfRank(lex, s, InsertRanked(lex, s, sorted, o), rank)
            == OfRank(lex, s, sorted, rank) + OfRank(lex, s, [o], rank)
  {
    if sorted == [] {
    } else if lex.rank(s, o) > lex.rank(s, sorted[0]) {
      HigherGoesFirst(lex, s, sorted, o, rank);
    } else {
      var first, rest := sorted[0], sorted[1..];
      assert sorted == [first] + rest;
      InsertedBehindItsRank(lex, s, rest, o, rank);
      OfRankConcat(lex, s, [first], InsertRanked(lex, s, rest, o), rank);
      OfRankConcat(lex, s, [first], rest, rank);
    }
  }

  /** Offers of one rank keep their order. */
  lemma {:induction false} RankedKeepsTies(lex: Lexicon, s: State, offers: seq<Offer>, rank: real)
    ensures OfRank(lex, s, Ranked(lex, s, offers), rank) == OfRank(lex, s, offers, rank)
  {
    if offers != [] {
      var n := |offers| - 1;
      RankedKeepsTies(lex, s, offers[..n], rank);
      RankedIsDescending(lex, s, offers[..n]);
      InsertedBehindItsRank(lex, s, Ranked(lex, s, offers[..n]), offers[n], rank);
      OfRankConcat(lex, s, offers[..n], [offers[n]], rank);
      assert offers[..n] + [offers[n]] == offers;
    }
  }

  /**
   * A read with rows to offer replaces the offers by the five best ranked of the first twenty-five; without any,
   * nothing changes.
   */
  lemma OffersAfterRead(lex: Lexicon, s: State, items: seq<Item>)
    ensures var t, rows := CaptureOffers(lex, s, items), Prefix(Offerable(items), 25);
            if rows == [] then t == s
            else
              && |t.offers| == Min(5, |rows|) && t.offer == Some(t.offers[0]) && t.offered == Names(t.offers)
              && t == s.(offers := t.offers, offer := t.offer, offered := t.offered)
              && t.offers <= Ranked(lex, s, ToOffers(lex, rows))
              && multiset(Ranked(lex, s, ToOffers(lex, rows))) == multiset(ToOffers(lex, rows))
              && Descending(lex, s, Ranked(lex, s, ToOffers(lex, rows)))
  {
    var rows := Prefix(Offerable(items), 25);
    var offers := ToOffers(lex, rows);
    OffersMatchRows(lex, rows);
    RankedIsPermutation(lex, s, offers);
    RankedIsDescending(lex, s, offers);
    assert |multiset(offers)| == |offers| && |multiset(Ranked(lex, s, offers))| == |Ranked(lex, s, offers)|;
  }

  /** A rejection is on record: something other than the family is known to be unavailable. */
  lemma HasUnavailableFactIff(s: State)
    ensures HasUnavailableFact(s) <==> exists k :: k in s.facts && k != Family && s.facts[k].status == Unavailable
  {
    forall k: Key ensures k in ATTRIBUTES + {Product} <==> k != Family { EveryKey(k); }
  }

  /** Offers are taken from the family alternatives of a failed read, and from a family browse after a rejection. */
  lemma WhenOffersAreTaken(lex: Lexicon, s: State, snapshot: Snapshot, scope: Scope)
    ensures var c, t := Coerce(s), Reconcile(lex, s, Some(snapshot), scope);
            match snapshot.status
            case InStock =>
              var v := VerifyKeys(c, ScopeKeys(scope));
              if scope == FamilyScope && HasUnavailableFact(v) then t == CaptureOffers(lex, v, snapshot.items)
              else t.offers == c.offers && t.offer == c.offer && t.offered == c.offered
            case OutOfStock => t == CaptureOffers(lex, RejectSelection(lex, KnownProduct(c)), snapshot.alternatives)
            case NotFound => t == CaptureOffers(lex, Rejected(lex, c), snapshot.alternatives)
  {
    if snapshot.status == InStock { InStockOffers(lex, Coerce(s), snapshot.items, scope); }
  }

  lemma InStockOffers(lex: Lexicon, s: State, items: seq<Item>, scope: Scope)
    ensures var v, t := VerifyKeys(s, ScopeKeys(scope)), ReconcileInStock(lex, s, items, scope);
            if scope == FamilyScope && HasUnavailableFact(v) then t == CaptureOffers(lex, v, items)
            else t.offers == s.offers && t.offer == s.offer && t.offered == s.offered
  {
    PricesKeepFacts(VerifyKeys(s, ScopeKeys(scope)), items);
  }
}
