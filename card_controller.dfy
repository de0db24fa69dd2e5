/** Card catalogue handlers: the public queries, the admin writes, and the pack's
    `total_cards` counter that create, delete and bulk import keep in step. */
module CardController {
  import opened Common
  import opened Strings
  import opened Tables
  import opened Sequences
  import opened Database

  // ---------------------------------------------------------------- getAllCards

  /** Query parameters of `GET /api/cards`; `limit` and `offset` already parsed. */
  datatype CardQuery = CardQuery(
    search: Option<string>,
    cardType: Option<string>,
    frameColor: Option<string>,
    attribute: Option<string>,
    rarity: Option<string>,
    banStatus: Option<string>,
    packId: Option<Id>,
    setCode: Option<string>,
    language: Option<string>,
    limit: Option<int>,
    offset: Option<int>)

  /** A supplied enumeration filter outside the schema's values is refused by the database. */
  predicate EnumFilterOk(v: Option<string>, values: set<string>) {
    !Truthy(v) || v.value in values
  }

  predicate CardFiltersValid(q: CardQuery) {
    EnumFilterOk(q.cardType, CARD_TYPES) && EnumFilterOk(q.frameColor, FRAME_COLORS)
    && EnumFilterOk(q.attribute, ATTRIBUTES) && EnumFilterOk(q.rarity, RARITIES)
    && EnumFilterOk(q.banStatus, BAN_STATUSES) && EnumFilterOk(q.language, LANGUAGES)
  }

  /** An equality filter applies only when its parameter is truthy. */
  predicate FieldFilter(v: Option<string>, field: string) {
    !Truthy(v) || field == v.value
  }

  /** Case-insensitive substring match on name, card number or card text. */
  predicate SearchHit(c: Card, text: string) {
    ContainsInsensitive(c.name, text) || ContainsInsensitive(c.cardNumber, text)
    || (c.cardText.Some? && ContainsInsensitive(c.cardText.value, text))
  }

  /** The `where` object of `getAllCards`: the conjunction of every supplied filter. */
  function CardMatches(q: CardQuery): Card -> bool {
    (c: Card) =>
      (Truthy(q.search) ==> SearchHit(c, q.search.value))
      && FieldFilter(q.cardType, c.cardType) && FieldFilter(q.frameColor, c.frameColor)
      && (Truthy(q.attribute) ==> c.attribute == Some(q.attribute.value))
      && FieldFilter(q.rarity, c.rarity) && FieldFilter(q.banStatus, c.banStatus)
      && (q.packId.Some? ==> c.packId == q.packId.value)
      && FieldFilter(q.setCode, c.setCode) && FieldFilter(q.language, c.language)
  }

  /** Catalogue order: set code, then set position, both ascending. */
  predicate CatalogueLe(a: Card, b: Card) {
    StrLe(a.setCode, b.setCode) && (a.setCode == b.setCode ==> StrLe(a.setPosition, b.setPosition))
  }

  lemma CatalogueOrderIsPreorder()
    ensures TotalPreorder(CatalogueLe)
  {
    forall a: Card, b: Card ensures CatalogueLe(a, b) || CatalogueLe(b, a) {
      StrLeTotal(a.setCode, b.setCode);
      StrLeTotal(a.setPosition, b.setPosition);
    }
    forall a: Card, b: Card, c: Card | CatalogueLe(a, b) && CatalogueLe(b, c) ensures CatalogueLe(a, c) {
      StrLeTransitive(a.setCode, b.setCode, c.setCode);
      if a.setCode == c.setCode {
        StrLeAntisymmetric(a.setCode, b.setCode);
        StrLeTransitive(a.setPosition, b.setPosition, c.setPosition);
      }
    }
  }

  datatype CardPage = CardPage(status: nat, cards: seq<Card>, total: int, limit: int, offset: int)

  /** `getAllCards`: the matching cards in catalogue order, windowed by offset and
      the clamped limit, with the total count of matches and the unclamped limit echoed. */
  function GetAllCards(s: State, q: CardQuery): (r: CardPage)
    requires WellFormedState(s)
    ensures r.status == OK || r.status == SERVER_ERROR
    ensures r.status == SERVER_ERROR <==> !CardFiltersValid(q) || q.offset.GetOr(0) < 0
    ensures r.status == OK ==> r.total == Count(s.cards, CardMatches(q))
    ensures r.status == OK ==> Sorted(r.cards, CatalogueLe)
    ensures r.status == OK ==> forall c :: c in r.cards ==> CardMatches(q)(c)
    ensures r.status == OK && ListTake(q.limit) >= 0 ==>
      |r.cards| == Min(ListTake(q.limit), r.total - Min(q.offset.GetOr(0), r.total))
    ensures r.status == OK ==> r.limit == q.limit.GetOr(50) && r.offset == q.offset.GetOr(0)
    ensures r.status == OK ==>
      (q.offset.GetOr(0) >= 0
       && SortedWindowOf(r.cards, FindMany(s.cards, CardMatches(q)), q.offset.GetOr(0), ListTake(q.limit), CatalogueLe))
  {
    if !CardFiltersValid(q) || q.offset.GetOr(0) < 0 then CardPage(SERVER_ERROR, [], 0, 0, 0)
    else
      var matches := FindMany(s.cards, CardMatches(q));
      CatalogueOrderIsPreorder();
      var ordered := SortBy(matches, CatalogueLe);
      CountSelect(s.cards, CardMatches(q));
      WindowSorted(ordered, q.offset.GetOr(0), ListTake(q.limit), CatalogueLe);
      assert forall c :: c in ordered ==> c in multiset(matches);
      var page := Window(ordered, q.offset.GetOr(0), ListTake(q.limit));
      assert Sorted(ordered, CatalogueLe) && multiset(ordered) == multiset(matches) && page == Window(ordered, q.offset.GetOr(0), ListTake(q.limit));
      CardPage(OK, page, |matches|, q.limit.GetOr(50), q.offset.GetOr(0))
  }

  /** A negative limit is not clamped: Prisma then counts from the end, so the
      page can hold more than 100 cards. */
  lemma NegativeLimitExceedsClamp(s: State, q: CardQuery)
    requires WellFormedState(s) && CardFiltersValid(q) && q.offset == Some(0)
    requires q.limit.Some? && q.limit.value < -100
    requires Count(s.cards, CardMatches(q)) > 100
    ensures |GetAllCards(s, q).cards| > 100
  {
    CountSelect(s.cards, CardMatches(q));
  }

  // ---------------------------------------------------------------- searchCards

  function QuickMatch(text: string): Card -> bool {
    (c: Card) => ContainsInsensitive(c.name, text) || ContainsInsensitive(c.cardNumber, text)
  }

  /** `searchCards`: 400 for a query shorter than two characters; otherwise the
      cards whose name or number contains it, at most `min(limit, 50)` (default 20). */
  function SearchCards(s: State, text: Option<string>, limit: Option<int>): (r: (nat, seq<Card>))
    requires WellFormedState(s)
    ensures r.0 == BAD_REQUEST <==> text.None? || |text.value| < 2
    ensures r.0 != BAD_REQUEST ==> r.0 == OK
    ensures r.0 == OK ==> forall c :: c in r.1 ==> QuickMatch(text.value)(c)
    ensures r.0 == OK && Min(limit.GetOr(20), 50) >= 0 ==> |r.1| <= Min(limit.GetOr(20), 50) <= 50
    ensures r.0 == OK && Min(limit.GetOr(20), 50) >= 0 ==>
      var m := FindMany(s.cards, QuickMatch(text.value));
      |r.1| == Min(Min(limit.GetOr(20), 50), |m|) && r.1 == m[..|r.1|]
    ensures r.0 == OK && Min(limit.GetOr(20), 50) < 0 ==>
      var m := FindMany(s.cards, QuickMatch(text.value));
      |r.1| == Min(-limit.value, |m|) && r.1 == m[|m| - |r.1|..]
    ensures r.0 == BAD_REQUEST ==> r.1 == []
  {
    if text.None? || |text.value| < 2 then (BAD_REQUEST, [])
    else
      var matches := FindMany(s.cards, QuickMatch(text.value));
      WindowSorted(matches, 0, Min(limit.GetOr(20), 50), (a: Card, b: Card) => true);
      (OK, Window(matches, 0, Min(limit.GetOr(20), 50)))
  }

  // ---------------------------------------------------------------- getCardById

  function GetCardById(s: State, id: Id): (r: (nat, Option<Card>))
    ensures r.0 == OK <==> id in s.cards.rows
    ensures r.0 != OK ==> r.0 == NOT_FOUND && r.1.None?
    ensures r.0 == OK ==> r.1 == Some(s.cards.rows[id])
  {
    if id in s.cards.rows then (OK, Some(s.cards.rows[id])) else (NOT_FOUND, None)
  }

  // ---------------------------------------------------------------- createCard

  /** The request body of `createCard` and of each `bulkImportCards` row, and the
      data object of `updateCard`: every field may be absent. */
  datatype CardInput = CardInput(
    cardNumber: Option<string>,
    setCode: Option<string>,
    setPosition: Option<string>,
    name: Option<string>,
    cardText: Option<string>,
    language: Option<string>,
    cardType: Option<string>,
    frameColor: Option<string>,
    attribute: Option<string>,
    monsterType: Option<string>,
    monsterAbilities: Option<seq<string>>,
    level: Option<int>,
    rarity: Option<string>,
    tcgLegal: Option<bool>,
    ocgLegal: Option<bool>,
    banStatus: Option<string>,
    imageUrl: Option<string>,
    imageUrlSmall: Option<string>,
    imageUrlHigh: Option<string>,
    packId: Option<Id>)

  /** The enumeration columns hold values of their enumerations. */
  predicate ValidCardEnums(c: Card) {
    c.language in LANGUAGES && c.cardType in CARD_TYPES && c.frameColor in FRAME_COLORS
    && (c.attribute.Some? ==> c.attribute.value in ATTRIBUTES)
    && c.rarity in RARITIES && c.banStatus in BAN_STATUSES
  }

  predicate HasRequiredFields(input: CardInput) {
    Truthy(input.cardNumber) && Truthy(input.name) && Truthy(input.cardType) && Truthy(input.frameColor)
    && input.packId.Some?
  }

  /** The set position `createCard` falls back to: the last '-'-separated segment
      of the card number, or "001" when that is empty. */
  function DefaultSetPosition(cardNumber: string): string {
    OrElse(Some(LastSegment(cardNumber, '-')), "001")
  }

  /** The card `createCard` writes, with its defaults. */
  function NewCard(input: CardInput, pack: Pack): (c: Card)
    requires HasRequiredFields(input)
    ensures c.cardNumber == input.cardNumber.value && c.name == input.name.value
    ensures c.packId == input.packId.value
  {
    Card(input.cardNumber.value,
      OrElse(input.setCode, pack.setCode),
      OrElse(input.setPosition, DefaultSetPosition(input.cardNumber.value)),
      input.name.value, input.cardText,
      OrElse(input.language, "EN"),
      input.cardType.value, input.frameColor.value, input.attribute, input.monsterType,
      input.monsterAbilities.GetOr([]), input.level,
      OrElse(input.rarity, "COMMON"),
      input.tcgLegal.GetOr(true), input.ocgLegal.GetOr(true),
      OrElse(input.banStatus, "UNLIMITED"),
      input.imageUrl, input.imageUrlSmall, input.imageUrlHigh,
      input.packId.value)
  }

  /** For a number of the form `SET-NNN` without a set position, the position is `NNN`. */
  lemma DefaultSetPositionOfNumber(prefix: string, digits: string)
    requires '-' !in digits && digits != ""
    ensures DefaultSetPosition(prefix + "-" + digits) == digits
  {
    var s := prefix + "-" + digits;
    var l := LastSegment(s, '-');
    LastSegmentIsSuffix(s, '-');
    assert s[|s| - |digits| - 1] == '-';
    assert s[|s| - |digits|..] == digits;

  }

  function HasNumber(n: string): Card -> bool {
    (c: Card) => c.cardNumber == n
  }

  /** `createCard`: 400 without the required fields, 409 for a card number in use,
      400 for an unknown pack, 500 when an enumeration field is refused; otherwise
      201 with one new card and its pack's `total_cards` raised by one. */
  function CreateCardOutcome(s: State, input: CardInput): (o: Outcome)
    requires WellFormedState(s)
    ensures o.status != CREATED ==> o.state == s && o.id.None?
    ensures o.status == BAD_REQUEST <==> (!HasRequiredFields(input)
      || (input.packId.value !in s.packs.rows
          && forall id :: id in s.cards.rows ==> s.cards.rows[id].cardNumber != input.cardNumber.value))
    ensures o.status == CONFLICT <==> (HasRequiredFields(input)
      && exists id :: id in s.cards.rows && s.cards.rows[id].cardNumber == input.cardNumber.value)
    ensures o.status == CREATED ==>
      (HasRequiredFields(input) && input.packId.value in s.packs.rows
       && ValidCardEnums(NewCard(input, s.packs.rows[input.packId.value]))
       && o.id == Some(s.cards.next)
       && var pack := s.packs.rows[input.packId.value];
          o.state == s.(cards := Insert(s.cards, NewCard(input, pack)),
                        packs := Put(s.packs, input.packId.value, pack.(totalCards := pack.totalCards + 1))))
    ensures o.status == SERVER_ERROR <==> (HasRequiredFields(input) && input.packId.value in s.packs.rows
      && (forall id :: id in s.cards.rows ==> s.cards.rows[id].cardNumber != input.cardNumber.value)
      && !ValidCardEnums(NewCard(input, s.packs.rows[input.packId.value])))
    ensures o.status in {CREATED, BAD_REQUEST, CONFLICT, SERVER_ERROR}
  {
    if !HasRequiredFields(input) then Outcome(BAD_REQUEST, s, None)
    else if First(s.cards, HasNumber(input.cardNumber.value)).Some? then Outcome(CONFLICT, s, None)
    else if input.packId.value !in s.packs.rows then Outcome(BAD_REQUEST, s, None)
    else
      var pack := s.packs.rows[input.packId.value];
      var card := NewCard(input, pack);
      if !ValidCardEnums(card) then Outcome(SERVER_ERROR, s, None)
      else
        Outcome(CREATED, s.(cards := Insert(s.cards, card),
                            packs := Put(s.packs, input.packId.value, pack.(totalCards := pack.totalCards + 1))),
                Some(s.cards.next))
  }

  method CreateCard(db: Store, input: CardInput) returns (status: nat, id: Option<Id>)
    requires db.Valid()
    modifies db
    ensures Outcome(status, db.Snapshot(), id) == CreateCardOutcome(old(db.Snapshot()), input)
    ensures db.Valid()
  {
    CreateCardKeepsValid(db.Snapshot(), input);
    if !HasRequiredFields(input) {
      return BAD_REQUEST, None;
    }
    var existing := First(db.cards, HasNumber(input.cardNumber.value));
    if existing.Some? {
      return CONFLICT, None;
    }
    if input.packId.value !in db.packs.rows {
      return BAD_REQUEST, None;
    }
    var pack := db.packs.rows[input.packId.value];
    var card := NewCard(input, pack);
    if !ValidCardEnums(card) {
      return SERVER_ERROR, None;
    }
    id := Some(db.cards.next);
    db.cards := Insert(db.cards, card);
    db.packs := Put(db.packs, input.packId.value, pack.(totalCards := pack.totalCards + 1));
    status := CREATED;
  }

  lemma CreateCardKeepsValid(s: State, input: CardInput)
    requires ValidState(s)
    ensures ValidState(CreateCardOutcome(s, input).state)
  {
    var o := CreateCardOutcome(s, input);
    if o.status == CREATED {
      InsertWellFormed(s.cards, NewCard(input, s.packs.rows[input.packId.value]));
    }
  }

  /** Creating a card keeps every pack's `total_cards` equal to its number of cards. */
  lemma CreateCardKeepsCounters(s: State, input: CardInput)
    requires ValidState(s) && CountersConsistent(s)
    ensures CountersConsistent(CreateCardOutcome(s, input).state)
  {
    var o := CreateCardOutcome(s, input);
    if o.status == CREATED {
      var card := NewCard(input, s.packs.rows[input.packId.value]);
      forall p | p in o.state.packs.rows ensures o.state.packs.rows[p].totalCards == CardsIn(o.state, p) {
        SumInsert(s.cards, Indicator(InPack(p)), card);
      }
    }
  }

  // ---------------------------------------------------------------- updateCard

  /** Prisma's update: every supplied field replaces the stored one. */
  function ApplyCardPatch(c: Card, p: CardInput): Card {
    Card(p.cardNumber.GetOr(c.cardNumber), p.setCode.GetOr(c.setCode), p.setPosition.GetOr(c.setPosition),
      p.name.GetOr(c.name),
      if p.cardText.Some? then p.cardText else c.cardText,
      p.language.GetOr(c.language), p.cardType.GetOr(c.cardType), p.frameColor.GetOr(c.frameColor),
      if p.attribute.Some? then p.attribute else c.attribute,
      if p.monsterType.Some? then p.monsterType else c.monsterType,
      p.monsterAbilities.GetOr(c.monsterAbilities),
      if p.level.Some? then p.level else c.level,
      p.rarity.GetOr(c.rarity), p.tcgLegal.GetOr(c.tcgLegal), p.ocgLegal.GetOr(c.ocgLegal),
      p.banStatus.GetOr(c.banStatus),
      if p.imageUrl.Some? then p.imageUrl else c.imageUrl,
      if p.imageUrlSmall.Some? then p.imageUrlSmall else c.imageUrlSmall,
      if p.imageUrlHigh.Some? then p.imageUrlHigh else c.imageUrlHigh,
      p.packId.GetOr(c.packId))
  }

  /** The patch changes the card number to one another card has. */
  predicate NumberTaken(s: State, id: Id, patch: CardInput)
    requires id in s.cards.rows
  {
    Truthy(patch.cardNumber) && patch.cardNumber.value != s.cards.rows[id].cardNumber
    && exists other :: other in s.cards.rows && s.cards.rows[other].cardNumber == patch.cardNumber.value
  }

  /** The patch moves the card to a pack that is not stored. */
  predicate MovesToUnknownPack(s: State, id: Id, patch: CardInput)
    requires id in s.cards.rows
  {
    patch.packId.Some? && patch.packId.value != s.cards.rows[id].packId && patch.packId.value !in s.packs.rows
  }

  /** The database refuses the patched row: an enumeration value outside its type,
      or a card number another card already has. */
  predicate PatchRefused(s: State, id: Id, patch: CardInput)
    requires id in s.cards.rows
  {
    var updated := ApplyCardPatch(s.cards.rows[id], patch);
    !ValidCardEnums(updated)
    || exists other :: other in s.cards.rows && other != id && s.cards.rows[other].cardNumber == updated.cardNumber
  }

  /** `updateCard`: 404 for an unknown card; 409 when a truthy, changed card number
      is in use; 400 when a changed pack is unknown; 500 when the database refuses
      the new row (an enumeration value, or an empty card number already in use);
      otherwise the patch is written. No pack counter is touched. */
  function UpdateCardOutcome(s: State, id: Id, patch: CardInput): (o: Outcome)
    requires WellFormedState(s)
    ensures o.status != OK ==> o.state == s && o.id.None?
    ensures o.status == NOT_FOUND <==> id !in s.cards.rows
    ensures o.status == CONFLICT <==> id in s.cards.rows && NumberTaken(s, id, patch)
    ensures o.status == BAD_REQUEST <==>
      id in s.cards.rows && !NumberTaken(s, id, patch) && MovesToUnknownPack(s, id, patch)
    ensures o.status == SERVER_ERROR <==>
      (id in s.cards.rows && !NumberTaken(s, id, patch) && !MovesToUnknownPack(s, id, patch)
       && PatchRefused(s, id, patch))
    ensures o.status in {OK, NOT_FOUND, CONFLICT, BAD_REQUEST, SERVER_ERROR}
    ensures o.status == OK ==>
      (id in s.cards.rows && o.id == Some(id)
       && ValidCardEnums(ApplyCardPatch(s.cards.rows[id], patch))
       && o.state == s.(cards := Put(s.cards, id, ApplyCardPatch(s.cards.rows[id], patch))))
  {
    if id !in s.cards.rows then Outcome(NOT_FOUND, s, None)
    else
      var existing := s.cards.rows[id];
      if Truthy(patch.cardNumber) && patch.cardNumber.value != existing.cardNumber
         && First(s.cards, HasNumber(patch.cardNumber.value)).Some? then
        Outcome(CONFLICT, s, None)
      else if patch.packId.Some? && patch.packId.value != existing.packId && patch.packId.value !in s.packs.rows then
        Outcome(BAD_REQUEST, s, None)
      else
        var updated := ApplyCardPatch(existing, patch);
        NumberClash(s.cards, id, updated.cardNumber);
        if !ValidCardEnums(updated) || First(Remove(s.cards, id), HasNumber(updated.cardNumber)).Some? then
          Outcome(SERVER_ERROR, s, None)
        else
          Outcome(OK, s.(cards := Put(s.cards, id, updated)), Some(id))
  }

  /** Another card than `id` has number `n` exactly when the table without `id` has one. */
  lemma NumberClash(t: Table<Card>, id: Id, n: string)
    requires WellFormed(t)
    ensures First(Remove(t, id), HasNumber(n)).Some?
      <==> exists other :: other in t.rows && other != id && t.rows[other].cardNumber == n
  {
    var others := Remove(t, id);
    if other :| other in t.rows && other != id && t.rows[other].cardNumber == n {
      assert other in others.rows && HasNumber(n)(others.rows[other]);
    }
  }

  method UpdateCard(db: Store, id: Id, patch: CardInput) returns (status: nat, updatedId: Option<Id>)
    requires db.Valid()
    modifies db
    ensures Outcome(status, db.Snapshot(), updatedId) == UpdateCardOutcome(old(db.Snapshot()), id, patch)
    ensures db.Valid()
  {
    UpdateCardKeepsValid(db.Snapshot(), id, patch);
    if id !in db.cards.rows {
      return NOT_FOUND, None;
    }
    var existing := db.cards.rows[id];
    if Truthy(patch.cardNumber) && patch.cardNumber.value != existing.cardNumber {
      var conflict := First(db.cards, HasNumber(patch.cardNumber.value));
      if conflict.Some? {
        return CONFLICT, None;
      }
    }
    if patch.packId.Some? && patch.packId.value != existing.packId {
      if patch.packId.value !in db.packs.rows {
        return BAD_REQUEST, None;
      }
    }
    var updated := ApplyCardPatch(existing, patch);
    var clash := First(Remove(db.cards, id), HasNumber(updated.cardNumber));
    if !ValidCardEnums(updated) || clash.Some? {
      return SERVER_ERROR, None;
    }
    db.cards := Put(db.cards, id, updated);
    status, updatedId := OK, Some(id);
  }

  lemma UpdateCardKeepsValid(s: State, id: Id, patch: CardInput)
    requires ValidState(s)
    ensures ValidState(UpdateCardOutcome(s, id, patch).state)
  {
    var o := UpdateCardOutcome(s, id, patch);
    if o.status == OK {
      PutCardKeepsValid(s, id, ApplyCardPatch(s.cards.rows[id], patch));
    }
  }

  /** Replacing a card by one in a stored pack whose number no other card has keeps the store valid. */
  lemma PutCardKeepsValid(s: State, id: Id, updated: Card)
    requires ValidState(s) && id in s.cards.rows && updated.packId in s.packs.rows
    requires First(Remove(s.cards, id), HasNumber(updated.cardNumber)).None?
    ensures ValidState(s.(cards := Put(s.cards, id, updated)))
  {
    var others := Remove(s.cards, id);
    var cards := Put(s.cards, id, updated);
    forall k | k in cards.rows && k != id
      ensures cards.rows[k] == s.cards.rows[k] && cards.rows[k].cardNumber != updated.cardNumber
    {
      assert k in others.rows && !HasNumber(updated.cardNumber)(others.rows[k]);
    }
    assert Unique(cards, CardNumber);
  }

  /** Moving a card to another pack shifts one card from the old pack's count to
      the new pack's while both `total_cards` stay as they were, so a consistent
      store becomes inconsistent. */
  lemma UpdateCardMoveBreaksCounters(s: State, id: Id, patch: CardInput)
    requires ValidState(s) && CountersConsistent(s)
    requires id in s.cards.rows && patch.packId.Some? && patch.packId.value != s.cards.rows[id].packId
    ensures var o := UpdateCardOutcome(s, id, patch);
      o.status == OK ==>
        CardsIn(o.state, s.cards.rows[id].packId) == s.packs.rows[s.cards.rows[id].packId].totalCards - 1
        && !CountersConsistent(o.state)
  {
    var o := UpdateCardOutcome(s, id, patch);
    if o.status == OK {
      var from := s.cards.rows[id].packId;
      SumPut(s.cards, Indicator(InPack(from)), id, ApplyCardPatch(s.cards.rows[id], patch));
      assert o.state.packs == s.packs;
    }
  }

  /** An update that leaves the pack alone keeps every counter consistent. */
  lemma UpdateCardSamePackKeepsCounters(s: State, id: Id, patch: CardInput)
    requires ValidState(s) && CountersConsistent(s)
    requires id in s.cards.rows && (patch.packId.None? || patch.packId.value == s.cards.rows[id].packId)
    ensures CountersConsistent(UpdateCardOutcome(s, id, patch).state)
  {
    var o := UpdateCardOutcome(s, id, patch);
    if o.status == OK {
      forall p | p in o.state.packs.rows ensures o.state.packs.rows[p].totalCards == CardsIn(o.state, p) {
        SumPut(s.cards, Indicator(InPack(p)), id, ApplyCardPatch(s.cards.rows[id], patch));
      }
    }
  }

  // ---------------------------------------------------------------- deleteCard

  /** `deleteCard`: 404 for an unknown card; otherwise the card is deleted and its
      pack's `total_cards` lowered by one (500 after the delete when that pack is gone). */
  function DeleteCardOutcome(s: State, id: Id): (o: Outcome)
    ensures o.status != OK && o.status != SERVER_ERROR ==> o.status == NOT_FOUND && o.state == s
    ensures o.status == NOT_FOUND <==> id !in s.cards.rows
    ensures o.status == OK ==>
      (id in s.cards.rows && s.cards.rows[id].packId in s.packs.rows
       && var pack := s.packs.rows[s.cards.rows[id].packId];
          o.state == s.(cards := Remove(s.cards, id),
                        packs := Put(s.packs, s.cards.rows[id].packId, pack.(totalCards := pack.totalCards - 1))))
    ensures o.status == SERVER_ERROR ==> o.state == s.(cards := Remove(s.cards, id))
    ensures o.status == SERVER_ERROR <==> id in s.cards.rows && s.cards.rows[id].packId !in s.packs.rows
    ensures o.status in {OK, NOT_FOUND, SERVER_ERROR}
  {
    if id !in s.cards.rows then Outcome(NOT_FOUND, s, None)
    else
      var packId := s.cards.rows[id].packId;
      var removed := s.(cards := Remove(s.cards, id));
      if packId !in s.packs.rows then Outcome(SERVER_ERROR, removed, None)
      else
        var pack := s.packs.rows[packId];
        Outcome(OK, removed.(packs := Put(s.packs, packId, pack.(totalCards := pack.totalCards - 1))), None)
  }

  method DeleteCard(db: Store, id: Id) returns (status: nat)
    requires db.Valid()
    modifies db
    ensures Outcome(status, db.Snapshot(), None) == DeleteCardOutcome(old(db.Snapshot()), id)
    ensures db.Valid()
  {
    if id !in db.cards.rows {
      return NOT_FOUND;
    }
    var packId := db.cards.rows[id].packId;
    db.cards := Remove(db.cards, id);
    var pack := db.packs.rows[packId];
    db.packs := Put(db.packs, packId, pack.(totalCards := pack.totalCards - 1));
    status := OK;
  }

  /** Deleting a card keeps every pack's `total_cards` equal to its number of cards. */
  lemma DeleteCardKeepsCounters(s: State, id: Id)
    requires ValidState(s) && CountersConsistent(s)
    ensures DeleteCardOutcome(s, id).status != SERVER_ERROR
    ensures CountersConsistent(DeleteCardOutcome(s, id).state)
  {
    var o := DeleteCardOutcome(s, id);
    if o.status == OK {
      forall p | p in o.state.packs.rows ensures o.state.packs.rows[p].totalCards == CardsIn(o.state, p) {
        SumRemove(s.cards, Indicator(InPack(p)), id);
      }
    }
  }

  // ---------------------------------------------------------------- bulkImportCards

  datatype RowResult = Created | Skipped | Failed

  /** Per-row accounting of a bulk import; each error is labelled with the row's card number. */
  datatype ImportResults = ImportResults(created: nat, skipped: nat, errors: seq<string>)

  /** The card a bulk-import row writes: the row spread over the schema defaults,
      with the set code falling back to the pack's; None when the database refuses
      it (a required column missing or an enumeration value outside its type). */
  function BulkCard(input: CardInput, pack: Pack, packId: Id): (r: Option<Card>)
    requires input.cardNumber.Some?
    ensures r.Some? ==> ValidCardEnums(r.value) && r.value.packId == packId
    ensures r.Some? ==> r.value.cardNumber == input.cardNumber.value
  {
    if input.name.None? || input.cardType.None? || input.frameColor.None? || input.setPosition.None? then None
    else
      var c := Card(input.cardNumber.value, OrElse(input.setCode, pack.setCode), input.setPosition.value,
        input.name.value, input.cardText, input.language.GetOr("EN"), input.cardType.value,
        input.frameColor.value, input.attribute, input.monsterType, input.monsterAbilities.GetOr([]),
        input.level, input.rarity.GetOr("COMMON"), input.tcgLegal.GetOr(true), input.ocgLegal.GetOr(true),
        input.banStatus.GetOr("UNLIMITED"), input.imageUrl, input.imageUrlSmall, input.imageUrlHigh, packId);
      if ValidCardEnums(c) then Some(c) else None
  }

  /** One row of the import: an absent card number makes the lookup fail; a number
      already stored, including by an earlier row, is skipped; else the row is created or fails. */
  function ImportRow(t: Table<Card>, input: CardInput, pack: Pack, packId: Id): (r: (Table<Card>, RowResult))
    requires WellFormed(t)
    ensures WellFormed(r.0)
    ensures r.1 != Created ==> r.0 == t
    ensures r.1 == Skipped <==> input.cardNumber.Some? && exists id :: id in t.rows && t.rows[id].cardNumber == input.cardNumber.value
    ensures r.1 == Created ==>
      (input.cardNumber.Some? && BulkCard(input, pack, packId).Some?
       && r.0 == Insert(t, BulkCard(input, pack, packId).value)
       && forall id :: id in t.rows ==> t.rows[id].cardNumber != input.cardNumber.value)
  {
    if input.cardNumber.None? then (t, Failed)
    else if First(t, HasNumber(input.cardNumber.value)).Some? then (t, Skipped)
    else match BulkCard(input, pack, packId)
      case None => (t, Failed)
      case Some(c) =>
        InsertWellFormed(t, c);
        (Insert(t, c), Created)
  }

  function Tally(r: ImportResults, input: CardInput, kind: RowResult): ImportResults {
    match kind
    case Created => r.(created := r.created + 1)
    case Skipped => r.(skipped := r.skipped + 1)
    case Failed => r.(errors := r.errors + [input.cardNumber.GetOr("undefined")])
  }

  /** The rows processed in order: the card table after them and the tallies. */
  function ImportAll(t: Table<Card>, rows: seq<CardInput>, pack: Pack, packId: Id): (r: (Table<Card>, ImportResults))
    requires WellFormed(t)
    ensures WellFormed(r.0)
    ensures r.1.created + r.1.skipped + |r.1.errors| == |rows|
  {
    if rows == [] then (t, ImportResults(0, 0, []))
    else
      var prev := ImportAll(t, rows[..|rows| - 1], pack, packId);
      var step := ImportRow(prev.0, rows[|rows| - 1], pack, packId);
      (step.0, Tally(prev.1, rows[|rows| - 1], step.1))
  }

  /** Bulk import keeps card numbers unique, creates exactly `created` cards, all
      in the target pack, and leaves every stored card as it was. */
  lemma {:induction false} ImportAllEffect(t: Table<Card>, rows: seq<CardInput>, pack: Pack, packId: Id)
    requires WellFormed(t) && Unique(t, CardNumber)
    ensures var r := ImportAll(t, rows, pack, packId);
      Unique(r.0, CardNumber)
      && Count(r.0, InPack(packId)) == Count(t, InPack(packId)) + r.1.created
      && (forall p :: p != packId ==> Count(r.0, InPack(p)) == Count(t, InPack(p)))
      && (forall id :: id in r.0.rows ==> (id in t.rows && r.0.rows[id] == t.rows[id]) || r.0.rows[id].packId == packId)
  {
    if rows != [] {
      var init := rows[..|rows| - 1];
      ImportAllEffect(t, init, pack, packId);
      var prev := ImportAll(t, init, pack, packId);
      var step := ImportRow(prev.0, rows[|rows| - 1], pack, packId);
      if step.1 == Created {
        var c := BulkCard(rows[|rows| - 1], pack, packId).value;
        SumInsert(prev.0, Indicator(InPack(packId)), c);
        forall p | p != packId ensures Count(step.0, InPack(p)) == Count(t, InPack(p)) {
          SumInsert(prev.0, Indicator(InPack(p)), c);
        }
      }
    }
  }

  /** `bulkImportCards`: 400 for a missing or empty list, a missing pack id or an
      unknown pack; otherwise the rows are imported in order and the pack's
      `total_cards` grows by the number created. */
  function BulkImportOutcome(s: State, cards: Option<seq<CardInput>>, packId: Option<Id>): (r: (Outcome, ImportResults))
    requires WellFormedState(s)
    ensures r.0.status == BAD_REQUEST <==> cards.None? || |cards.value| == 0 || packId.None? || packId.value !in s.packs.rows
    ensures r.0.status != BAD_REQUEST ==> r.0.status == OK
    ensures r.0.status == BAD_REQUEST ==> r.0.state == s
    ensures r.0.status == OK ==> r.1.created + r.1.skipped + |r.1.errors| == |cards.value|
    ensures r.0.status == OK ==>
      var pack := s.packs.rows[packId.value];
      var imported := ImportAll(s.cards, cards.value, pack, packId.value);
      r.1 == imported.1
      && r.0.state == s.(cards := imported.0,
                         packs := Put(s.packs, packId.value, pack.(totalCards := pack.totalCards + imported.1.created)))
  {
    if cards.None? || |cards.value| == 0 || packId.None? || packId.value !in s.packs.rows then
      (Outcome(BAD_REQUEST, s, None), ImportResults(0, 0, []))
    else
      var pack := s.packs.rows[packId.value];
      var imported := ImportAll(s.cards, cards.value, pack, packId.value);
      (Outcome(OK, s.(cards := imported.0,
                      packs := Put(s.packs, packId.value, pack.(totalCards := pack.totalCards + imported.1.created))), None),
       imported.1)
  }

  method BulkImportCards(db: Store, cards: Option<seq<CardInput>>, packId: Option<Id>)
    returns (status: nat, results: ImportResults)
    requires db.Valid()
    modifies db
    ensures (Outcome(status, db.Snapshot(), None), results) == BulkImportOutcome(old(db.Snapshot()), cards, packId)
    ensures db.Valid()
  {
    BulkImportKeepsValid(db.Snapshot(), cards, packId);
    if cards.None? || |cards.value| == 0 {
      return BAD_REQUEST, ImportResults(0, 0, []);
    }
    if packId.None? || packId.value !in db.packs.rows {
      return BAD_REQUEST, ImportResults(0, 0, []);
    }
    var pack := db.packs.rows[packId.value];
    results := ImportRows(db, cards.value, pack, packId.value);
    db.packs := Put(db.packs, packId.value, pack.(totalCards := pack.totalCards + results.created));
    status := OK;
  }

  /** The import loop: each row in order, tallied. */
  method ImportRows(db: Store, rows: seq<CardInput>, pack: Pack, packId: Id) returns (results: ImportResults)
    requires WellFormed(db.cards)
    modifies db
    ensures (db.cards, results) == ImportAll(old(db.cards), rows, pack, packId)
    ensures db.Snapshot() == old(db.Snapshot()).(cards := db.cards)
  {
    results := ImportResults(0, 0, []);
    var i := 0;
    while i < |rows|
      invariant 0 <= i <= |rows|
      invariant WellFormed(db.cards)
      invariant (db.cards, results) == ImportAll(old(db.cards), rows[..i], pack, packId)
      invariant db.Snapshot() == old(db.Snapshot()).(cards := db.cards)
    {
      assert rows[..i + 1][..i] == rows[..i];
      var kind := ImportOneRow(db, rows[i], pack, packId);
      results := Tally(results, rows[i], kind);
      i := i + 1;
    }
    assert rows[..i] == rows;
  }

  /** The body of the import loop: look the card number up, then skip, create or fail. */
  method ImportOneRow(db: Store, row: CardInput, pack: Pack, packId: Id) returns (kind: RowResult)
    requires WellFormed(db.cards)
    modifies db
    ensures (db.cards, kind) == ImportRow(old(db.cards), row, pack, packId)
    ensures db.Snapshot() == old(db.Snapshot()).(cards := db.cards)
  {
    if row.cardNumber.None? {
      return Failed;
    }
    var existing := First(db.cards, HasNumber(row.cardNumber.value));
    if existing.Some? {
      return Skipped;
    }
    var card := BulkCard(row, pack, packId);
    if card.None? {
      return Failed;
    }
    db.cards := Insert(db.cards, card.value);
    kind := Created;
  }

  lemma BulkImportKeepsValid(s: State, cards: Option<seq<CardInput>>, packId: Option<Id>)
    requires ValidState(s)
    ensures ValidState(BulkImportOutcome(s, cards, packId).0.state)
  {
    if BulkImportOutcome(s, cards, packId).0.status == OK {
      ImportAllEffect(s.cards, cards.value, s.packs.rows[packId.value], packId.value);
    }
  }

  /** Bulk import keeps every pack's `total_cards` equal to its number of cards. */
  lemma BulkImportKeepsCounters(s: State, cards: Option<seq<CardInput>>, packId: Option<Id>)
    requires ValidState(s) && CountersConsistent(s)
    ensures CountersConsistent(BulkImportOutcome(s, cards, packId).0.state)
  {
    var o := BulkImportOutcome(s, cards, packId).0;
    if o.status == OK {
      ImportAllEffect(s.cards, cards.value, s.packs.rows[packId.value], packId.value);
    }
  }
}
