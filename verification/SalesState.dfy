// The sales conversation: selection slots, fact statuses, prices and offers, changed by customer turns
// and catalogue reads.
module SalesState {
  import opened Common

  datatype Key = Product | Family | Variant | Model | Storage | Size | Color

  const SELECTION: set<Key> := {Product, Family, Variant, Model, Storage, Color, Size}
  const ATTRIBUTES: set<Key> := {Color, Storage, Size, Variant, Model}

  datatype FactStatus = Proposed | Verified | Unavailable

  datatype FactSource = Customer | Bito

  datatype Fact = Fact(value: string, status: FactStatus, source: FactSource)

  datatype Offer = Offer(name: string, slots: map<Key, string>, unitPrice: Option<real>, stock: Option<real>)

  datatype Intent = PriceQuestion | OtherIntent

  /** Absent fields are `None`, absent lists and fact tables are empty. */
  datatype State = State(
    slots: map<Key, string>, facts: map<Key, Fact>,
    quantity: Option<real>, unitPrice: Option<real>, totalPrice: Option<real>,
    quotedPrice: Option<real>, previousQuote: Option<real>,
    offer: Option<Offer>, offers: seq<Offer>, offered: seq<string>, acceptedOffer: Option<string>, intent: Intent)

  const FRESH := State(map[], map[], None, None, None, None, None, None, [], [], None, OtherIntent)

  datatype Understanding = Understanding(
    intent: Intent, topicSwitch: bool, clearUnavailable: bool, slots: map<Key, string>, quantity: Option<real>)

  /** What the language rules contribute: comparison forms, inference, literal extraction, choosing, ranking. */
  datatype Lexicon = Lexicon(
    canonical: string -> string,
    family: string -> Option<string>,
    extract: (State, string) -> State,
    choose: (State, Understanding, string) -> Option<nat>,
    mentionsOffers: (seq<Offer>, map<Key, string>) -> bool,
    describe: string -> map<Key, string>,
    rank: (State, Offer) -> real)

  // ---------- Reading a stored state ----------

  const MAX_QUANTITY := 1_000_000.0

  function Kept(s: string): string { Prefix(Trim(s), 300) }

  function CoerceSlots(m: map<Key, string>): map<Key, string> {
    map k | k in m && Trim(m[k]) != "" :: Kept(m[k])
  }

  function NonNegative(v: Option<real>): Option<real> {
    if v.Some? && v.value >= 0.0 then v else None
  }

  function Positive(v: Option<real>): Option<real> {
    if v.Some? && v.value > 0.0 then Some(if v.value <= MAX_QUANTITY then v.value else MAX_QUANTITY) else None
  }

  function CoerceOffer(o: Offer): Option<Offer> {
    if Kept(o.name) == "" then None
    else Some(Offer(Kept(o.name), CoerceSlots(o.slots), NonNegative(o.unitPrice), NonNegative(o.stock)))
  }

  function CoerceOffers(offers: seq<Offer>): (r: seq<Offer>)
    ensures forall o :: o in r ==> exists p :: p in offers && CoerceOffer(p) == Some(o)
  {
    if offers == [] then []
    else (if CoerceOffer(offers[0]).Some? then [CoerceOffer(offers[0]).value] else []) + CoerceOffers(offers[1..])
  }

  function CoerceNames(names: seq<string>): seq<string> {
    if names == [] then []
    else (if Trim(names[0]) == "" then [] else [Kept(names[0])]) + CoerceNames(names[1..])
  }

  function CoerceFacts(m: map<Key, Fact>): map<Key, Fact> {
    map k | k in m && Trim(m[k].value) != "" :: m[k].(value := Kept(m[k].value))
  }

  function Coerce(s: State): State {
    var legacy := if s.offer.Some? then CoerceOffer(s.offer.value) else None;
    var offers := Prefix(CoerceOffers(s.offers), 5);
    State(
      CoerceSlots(s.slots), CoerceFacts(s.facts),
      Positive(s.quantity), NonNegative(s.unitPrice), NonNegative(s.totalPrice),
      NonNegative(s.quotedPrice), NonNegative(s.previousQuote),
      if s.offers != [] && offers != [] && legacy.None? then Some(offers[0]) else legacy,
      if s.offers != [] then offers else if legacy.Some? then [legacy.value] else [],
      Prefix(CoerceNames(s.offered), 10),
      if s.acceptedOffer.Some? && Trim(s.acceptedOffer.value) != "" then Some(Kept(s.acceptedOffer.value)) else None,
      s.intent)
  }

  // ---------- Small edits ----------

  function SetFact(s: State, k: Key, value: string, status: FactStatus, source: FactSource): State {
    s.(facts := s.facts[k := Fact(value, status, source)])
  }

  function ClearPrices(s: State): State {
    s.(unitPrice := None, totalPrice := None)
  }

  function ClearSelection(s: State): State {
    ClearPrices(s.(slots := s.slots - SELECTION, facts := s.facts - SELECTION, quantity := None,
                   acceptedOffer := None, offered := [], quotedPrice := None, previousQuote := None))
  }

  predicate MarkedUnavailable(s: State, k: Key) {
    k in ATTRIBUTES && k in s.facts && s.facts[k].status == Unavailable
  }

  function ClearUnavailable(lex: Lexicon, s: State): State {
    if s.facts == map[] then s
    else
      var gone := set k | k in s.facts && MarkedUnavailable(s, k);
      var dropped := set k | k in s.slots && k in gone && lex.canonical(s.slots[k]) == lex.canonical(s.facts[k].value);
      ClearPrices(s.(slots := s.slots - dropped, facts := s.facts - gone))
  }

  function RoundMoney(v: real): real {
    ((v + 1.0 / 4503599627370496.0) * 100.0 + 0.5).Floor as real / 100.0
  }

  /** Price times quantity, rounded to hundredths. */
  function LineTotal(unitPrice: real, quantity: real): real {
    RoundMoney(unitPrice * quantity)
  }

  predicate Alike(lex: Lexicon, a: string, b: string) {
    lex.canonical(a) == lex.canonical(b)
  }

  // ---------- Accepting an offer ----------

  function OfferList(s: State): seq<Offer> {
    if s.offers != [] then s.offers else if s.offer.Some? then [s.offer.value] else []
  }

  function Accepted(lex: Lexicon, s: State, u: Understanding, text: string): Option<Offer> {
    var pick := lex.choose(s, u, text);
    if u.topicSwitch || pick.None? || pick.value >= |OfferList(s)| then None else Some(OfferList(s)[pick.value])
  }

  function Names(offers: seq<Offer>): seq<string> {
    seq(|offers|, i requires 0 <= i < |offers| => offers[i].name)
  }

  function OfferSlots(lex: Lexicon, o: Offer): map<Key, string> {
    var product := if Product in o.slots then o.slots[Product]
                   else if Family in o.slots then o.slots[Family]
                   else o.name;
    var family := if Family in o.slots then Some(o.slots[Family]) else lex.family(product);
    var base := (o.slots - {Product, Family})[Product := product];
    var named := if family.Some? then base[Family := family.value] else base;
    if Variant !in named && Model in named then named[Variant := named[Model]] else named
  }

  function AcceptOffer(lex: Lexicon, s: State, o: Offer): State {
    var recent := OfferList(s);
    var offered := if s.offered != [] then s.offered else Names(recent);
    var slots := OfferSlots(lex, o);
    var c := ClearSelection(s);
    c.(slots := slots, facts := c.facts + map k | k in slots && slots[k] != "" :: Fact(slots[k], Verified, Bito),
       acceptedOffer := Some(o.name), unitPrice := o.unitPrice,
       offers := if recent != [] then recent else c.offers, offer := Some(o), offered := offered)
  }

  // ---------- A customer turn ----------

  function Clean(v: string): string { Prefix(Squeeze(v), 500) }

  function NextSlots(u: Understanding): map<Key, string> {
    map k | k in u.slots && Clean(u.slots[k]) != "" :: Clean(u.slots[k])
  }

  /** Topic switch, rejection and acceptance. */
  function Opening(lex: Lexicon, s: State, u: Understanding, accepted: Option<Offer>): State {
    if u.topicSwitch then ClearSelection(s).(offer := None, offers := [])
    else
      var c := if u.clearUnavailable || accepted.Some? then ClearUnavailable(lex, s) else s;
      if accepted.Some? then AcceptOffer(lex, c, accepted.value) else c
  }

  function DropStaleOffers(lex: Lexicon, s: State, next: map<Key, string>, accepted: Option<Offer>): State {
    if next != map[] && accepted.None? && s.offers != [] && !lex.mentionsOffers(s.offers, next)
    then s.(offer := None, offers := []) else s
  }

  predicate Differs(lex: Lexicon, s: State, k: Key, v: string) {
    k in s.slots && !Alike(lex, s.slots[k], v)
  }

  function ProposeIf(s: State, k: Key, v: string, changed: bool): State {
    if changed || k !in s.facts then SetFact(s, k, v, Proposed, Customer) else s
  }

  function NamedIn(next: map<Key, string>): string
    requires Product in next || Family in next
  {
    if Product in next then next[Product] else next[Family]
  }

  /** Another product or another family drops the selection, unless the topic switch already has. */
  function Cleared(lex: Lexicon, s: State, next: map<Key, string>, topicSwitch: bool): State
    requires Product in next || Family in next
  {
    var changed := Differs(lex, s, Product, NamedIn(next)) || (Family in next && Differs(lex, s, Family, next[Family]));
    if changed && !topicSwitch then ClearSelection(s) else s
  }

  function ResolvedFamily(lex: Lexicon, s: State, next: map<Key, string>): Option<string>
    requires Product in next || Family in next
  {
    if Family in next then Some(next[Family])
    else if lex.family(NamedIn(next)).Some? then lex.family(NamedIn(next))
    else if Family in s.slots then Some(s.slots[Family])
    else None
  }

  function NamedProduct(lex: Lexicon, s: State, next: map<Key, string>, topicSwitch: bool): State
    requires Product in next || Family in next
  {
    var product := NamedIn(next);
    var c := Cleared(lex, s, next, topicSwitch);
    var newProduct := Product !in c.slots || Differs(lex, c, Product, product);
    var family := ResolvedFamily(lex, c, next);
    var newFamily := family.Some? && (Family !in c.slots || Differs(lex, c, Family, family.value));
    var named := ProposeIf(c.(slots := c.slots[Product := product]), Product, product, newProduct);
    if family.Some?
    then ProposeIf(named.(slots := named.slots[Family := family.value]), Family, family.value, newFamily)
    else named.(slots := named.slots - {Family})
  }

  function ExtractedProduct(lex: Lexicon, s: State, found: State): State
    requires Product in found.slots
  {
    var product := found.slots[Product];
    var family := if Family in found.slots then Some(found.slots[Family]) else lex.family(product);
    var named := SetFact(s.(slots := s.slots[Product := product]), Product, product, Proposed, Customer);
    if family.Some?
    then SetFact(named.(slots := named.slots[Family := family.value]), Family, family.value, Proposed, Customer)
    else named.(slots := named.slots - {Family})
  }

  function SelectProduct(lex: Lexicon, s: State, next: map<Key, string>, found: State, topicSwitch: bool): State {
    if Product in next || Family in next then NamedProduct(lex, s, next, topicSwitch)
    else if Product !in s.slots && Slot(found, Product).Some? then ExtractedProduct(lex, s, found)
    else s
  }

  function SelectModel(lex: Lexicon, s: State, next: map<Key, string>): State {
    if Model !in next then s
    else
      var model := next[Model];
      var changed := Model !in s.slots || Differs(lex, s, Model, model);
      var named := ProposeIf(s.(slots := s.slots[Model := model]), Model, model, changed);
      if Variant in next then named
      else ProposeIf(named.(slots := named.slots[Variant := model]), Variant, model, changed)
  }

  function SelectAttribute(lex: Lexicon, s: State, next: map<Key, string>, k: Key): State {
    if k !in next then s
    else ProposeIf(s.(slots := s.slots[k := next[k]]), k, next[k], k !in s.slots || Differs(lex, s, k, next[k]))
  }

  function SelectNamed(lex: Lexicon, s: State, next: map<Key, string>): State {
    var m := SelectModel(lex, s, next);
    var st := SelectAttribute(lex, m, next, Storage);
    var v := SelectAttribute(lex, st, next, Variant);
    var c := SelectAttribute(lex, v, next, Color);
    SelectAttribute(lex, c, next, Size)
  }

  /** A literal the extractor found in this turn, when the understanding named none. */
  function SelectExtracted(s: State, next: map<Key, string>, found: State, before: State, k: Key,
      allowed: bool): State {
    if allowed && k !in next && Slot(found, k).Some? && !(k in before.slots && before.slots[k] == found.slots[k])
    then SetFact(s.(slots := s.slots[k := found.slots[k]]), k, found.slots[k], Proposed, Customer) else s
  }

  function SelectLiterals(s: State, next: map<Key, string>, found: State, before: State, allowed: bool): State {
    var v := SelectExtracted(s, next, found, before, Variant, allowed && Product in s.slots);
    var st := SelectExtracted(v, next, found, before, Storage, allowed);
    var c := SelectExtracted(st, next, found, before, Color, allowed);
    SelectExtracted(c, next, found, before, Size, allowed)
  }

  function Slot(s: State, k: Key): Option<string> {
    if k in s.slots && s.slots[k] != "" then Some(s.slots[k]) else None
  }

  function Present(parts: seq<Option<string>>): seq<string> {
    if parts == [] then [] else (if parts[0].Some? then [parts[0].value] else []) + Present(parts[1..])
  }

  function Attributes(s: State): seq<Option<string>> {
    [Slot(s, Model), Slot(s, Storage), Slot(s, Variant), Slot(s, Color), Slot(s, Size)]
  }

  /** The selection as one string, parts separated by a bar. */
  function SelectionText(s: State): string { Join(Present(Attributes(s)), "|") }

  function ClearIfMoved(before: State, after: State): State {
    if SelectionText(before) != SelectionText(after) then ClearPrices(after) else after
  }

  function SettleQuantity(s: State, u: Understanding, found: State, before: State): State {
    var own := Positive(u.quantity);
    var literal := if found.quantity != before.quantity then Positive(found.quantity) else None;
    var quantity := OrElse(own, literal);
    var q := if quantity.Some? then s.(quantity := quantity) else s;
    if q.unitPrice.Some? && q.quantity.Some? then q.(totalPrice := Some(LineTotal(q.unitPrice.value, q.quantity.value)))
    else if q.quantity.None? then q.(totalPrice := None)
    else q
  }

  function Quote(s: State): State {
    if s.unitPrice.None? then s
    else
      var changed := s.quotedPrice.Some? && s.quotedPrice != s.unitPrice;
      s.(previousQuote := if changed then s.quotedPrice else s.previousQuote, quotedPrice := s.unitPrice)
  }

  /** The state after the product has been settled, with what the turn started from and what was extracted. */
  function Selecting(lex: Lexicon, before: State, u: Understanding, text: string): (State, State) {
    var accepted := Accepted(lex, before, u, text);
    var start := Opening(lex, before, u, accepted);
    var found := lex.extract(start, text);
    var next := NextSlots(u);
    (SelectProduct(lex, DropStaleOffers(lex, start, next, accepted), next, found, u.topicSwitch), found)
  }

  function Turn(lex: Lexicon, previous: State, u: Understanding, text: string): State {
    var before := Coerce(previous);
    var accepted := Accepted(lex, before, u, text);
    var chosen := Selecting(lex, before, u, text).0;
    var found := Selecting(lex, before, u, text).1;
    var next := NextSlots(u);
    var selected :=
        ClearIfMoved(chosen, SelectLiterals(SelectNamed(lex, chosen, next), next, found, before, accepted.None?));
    Quote(SettleQuantity(selected, u, found, before)).(intent := u.intent)
  }

  // ---------- A catalogue read ----------

  datatype Availability = InStock | OutOfStock | NotFound

  datatype Item = Item(name: Option<string>, price: Option<real>, quantity: Option<real>)

  datatype Snapshot = Snapshot(status: Availability, items: seq<Item>, alternatives: seq<Item>)

  datatype Scope = FamilyScope | ProductScope | SelectionScope

  function ScopeKeys(scope: Scope): set<Key> {
    match scope
    case FamilyScope => {Family, Product}
    case ProductScope => {Family, Product, Model}
    case SelectionScope => SELECTION
  }

  function VerifyKeys(s: State, keys: set<Key>): State {
    s.(facts := s.facts
                + map k | k in keys && k in s.slots && Trim(s.slots[k]) != "" :: Fact(s.slots[k], Verified, Bito))
  }

  /** The distinct public prices, in order of first appearance. */
  function PublicPrices(items: seq<Item>): (r: seq<real>)
    ensures forall p :: p in r ==> p >= 0.0 && exists i :: i in items && i.price == Some(p)
  {
    if items == [] then []
    else
      var front := PublicPrices(items[..|items| - 1]);
      var p := NonNegative(items[|items| - 1].price);
      if p.Some? && p.value !in front then front + [p.value] else front
  }

  predicate HasUnavailableFact(s: State) {
    exists k :: k in s.facts && k in ATTRIBUTES + {Product} && s.facts[k].status == Unavailable
  }

  function Offerable(items: seq<Item>): (r: seq<Item>)
    ensures forall i :: i in r ==> i in items && i.name.Some?
  {
    if items == [] then []
    else
      var i := items[0];
      (if i.name.Some? && Trim(i.name.value) != "" && (i.quantity.None? || i.quantity.value > 0.0) then [i] else [])
          + Offerable(items[1..])
  }

  function ToOffers(lex: Lexicon, items: seq<Item>): (r: seq<Offer>)
    requires forall i :: i in items ==> i.name.Some?
    ensures forall o :: o in r ==>
              o.unitPrice.None? || exists i :: i in items && i.price == o.unitPrice && i.price.value >= 0.0
  {
    if items == [] then []
    else
      var name := Kept(items[0].name.value);
      [Offer(name, lex.describe(name), NonNegative(items[0].price), NonNegative(items[0].quantity))]
          + ToOffers(lex, items[1..])
  }

  /** Highest rank first, equal ranks in their original order. */
  function Ranked(lex: Lexicon, s: State, offers: seq<Offer>): seq<Offer> {
    if offers == [] then [] else InsertRanked(lex, s, Ranked(lex, s, offers[..|offers| - 1]), offers[|offers| - 1])
  }

  function InsertRanked(lex: Lexicon, s: State, sorted: seq<Offer>, o: Offer): seq<Offer> {
    if sorted == [] then [o]
    else if lex.rank(s, o) > lex.rank(s, sorted[0]) then [o] + sorted
    else [sorted[0]] + InsertRanked(lex, s, sorted[1..], o)
  }

  function CaptureOffers(lex: Lexicon, s: State, items: seq<Item>): State {
    var offers := Prefix(Ranked(lex, s, ToOffers(lex, Prefix(Offerable(items), 25))), 5);
    if offers == [] then s
    else s.(offers := offers, offer := Some(offers[0]), offered := Names(offers))
  }

  /** The most specific slot in use. */
  function Specific(s: State): Option<Key> {
    if Slot(s, Color).Some? then Some(Color) else if Slot(s, Storage).Some? then Some(Storage)
    else if Slot(s, Size).Some? then Some(Size) else if Slot(s, Variant).Some? then Some(Variant)
    else if Slot(s, Model).Some? then Some(Model) else None
  }

  function MarkUnavailable(lex: Lexicon, s: State, k: Key): State
    requires k in s.slots
  {
    s.(facts := s.facts + map x | x in ATTRIBUTES && x in s.slots && s.slots[x] != ""
      && Alike(lex, s.slots[x], s.slots[k])
                          :: Fact(s.slots[x], Unavailable, Bito))
  }

  function AttachPrice(s: State, price: real): State {
    var priced := s.(unitPrice := Some(price),
                     totalPrice := if s.quantity.Some? then Some(LineTotal(price, s.quantity.value)) else s.totalPrice);
    if s.intent == PriceQuestion then Quote(priced) else priced
  }

  function ReconcileInStock(lex: Lexicon, s: State, items: seq<Item>, scope: Scope): State {
    var v := VerifyKeys(s, ScopeKeys(scope));
    if scope == FamilyScope then (if HasUnavailableFact(v) then CaptureOffers(lex, v, items) else v)
    else ReconcilePrices(v, items)
  }

  /** One row or one common price decides the unit price; several prices leave none. */
  function ReconcilePrices(s: State, items: seq<Item>): State {
    var prices := PublicPrices(items);
    if |items| == 1 || |prices| == 1 then (if prices == [] then s else AttachPrice(s, prices[0]))
    else if |prices| > 1 then ClearPrices(s)
    else s
  }

  function RejectSelection(lex: Lexicon, s: State): State {
    var k := Specific(s);
    if k.Some? then ClearPrices(MarkUnavailable(lex, s, k.value)) else s
  }

  /** The family exists; the product does too, if something more specific than it was asked for. */
  function KnownFamily(s: State): State {
    if Family in s.slots then SetFact(s, Family, s.slots[Family], Verified, Bito) else s
  }

  function KnownProduct(s: State): State {
    var verdict := if Specific(s).Some? then Verified else Unavailable;
    if Product in s.slots then SetFact(KnownFamily(s), Product, s.slots[Product], verdict, Bito) else KnownFamily(s)
  }

  function ReconcileOutOfStock(lex: Lexicon, s: State, alternatives: seq<Item>): State {
    CaptureOffers(lex, RejectSelection(lex, KnownProduct(s)), alternatives)
  }

  /** Only the most specific proposal is rejected. */
  function Rejected(lex: Lexicon, s: State): State {
    if Specific(s).Some? then RejectSelection(lex, s)
    else if Product in s.slots then ClearPrices(SetFact(s, Product, s.slots[Product], Unavailable, Bito))
    else s
  }

  function ReconcileNotFound(lex: Lexicon, s: State, alternatives: seq<Item>): State {
    CaptureOffers(lex, Rejected(lex, s), alternatives)
  }

  function ReconcileSnapshot(lex: Lexicon, s: State, snapshot: Snapshot, scope: Scope): State {
    match snapshot.status
    case InStock => ReconcileInStock(lex, s, snapshot.items, scope)
    case OutOfStock => ReconcileOutOfStock(lex, s, snapshot.alternatives)
    case NotFound => ReconcileNotFound(lex, s, snapshot.alternatives)
  }

  function Reconcile(lex: Lexicon, current: State, snapshot: Option<Snapshot>, scope: Scope): State {
    if snapshot.None? then Coerce(current) else ReconcileSnapshot(lex, Coerce(current), snapshot.value, scope)
  }

  function OrElse<T>(a: Option<T>, b: Option<T>): Option<T> { if a.Some? then a else b }

  /** `Object.assign(s, r)`: what `r` carries replaces what `s` had, what `r` lacks stays. */
  function Merged(s: State, r: State): State {
    State(
      s.slots + r.slots, if r.facts != map[] then r.facts else s.facts,
      OrElse(r.quantity, s.quantity), OrElse(r.unitPrice, s.unitPrice), OrElse(r.totalPrice, s.totalPrice),
      OrElse(r.quotedPrice, s.quotedPrice), OrElse(r.previousQuote, s.previousQuote),
      OrElse(r.offer, s.offer), if r.offers != [] then r.offers else s.offers,
      if r.offered != [] then r.offered else s.offered,
      OrElse(r.acceptedOffer, s.acceptedOffer), r.intent)
  }

  /** What a catalogue read leaves in the conversation's state. */
  function Read(lex: Lexicon, s: State, snapshot: Option<Snapshot>, scope: Scope): State {
    Merged(s, Reconcile(lex, s, snapshot, scope))
  }
}
