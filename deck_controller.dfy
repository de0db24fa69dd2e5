/** Deck handlers. A deck belongs to one user; each of its rows holds some copies
    of one card in one zone (MAIN, EXTRA or SIDE), and a deck may hold at most
    three copies of a card over all zones together. */
module DeckController {
  import opened Common
  import opened Tables
  import opened Sequences
  import opened Database

  /** `findFirst({ where: { id, user_id } })` finds the deck. */
  predicate Owns(s: State, caller: Id, deck: Id) {
    deck in s.decks.rows && s.decks.rows[deck].userId == caller
  }

  /** The deck is the caller's own or is public. */
  predicate CanRead(s: State, caller: Id, deck: Id) {
    deck in s.decks.rows && (s.decks.rows[deck].userId == caller || s.decks.rows[deck].isPublic)
  }

  function DeckNamed(user: Id, name: string): Deck -> bool {
    (d: Deck) => d.userId == user && d.name == name
  }

  function RowsOfDeck(deck: Id): DeckCard -> bool {
    (r: DeckCard) => r.deckId == deck
  }

  function InZone(zone: DeckZone): DeckCard -> bool {
    (r: DeckCard) => r.zone == zone
  }

  /** The row of `card` in `deck` and `zone`. */
  function SlotIs(deck: Id, card: Id, zone: DeckZone): DeckCard -> bool {
    (r: DeckCard) => r.deckId == deck && r.cardId == card && r.zone == zone
  }

  /** A row of `card` in `deck`, in `zone` when one is given. */
  function RowMatches(deck: Id, card: Id, zone: Option<DeckZone>): DeckCard -> bool {
    (r: DeckCard) => r.deckId == deck && r.cardId == card && (zone.None? || r.zone == zone.value)
  }

  // ---------------------------------------------------------------- getDeckById

  datatype DeckView = DeckView(deck: Deck, rows: seq<DeckCard>, main: seq<DeckCard>, extra: seq<DeckCard>, side: seq<DeckCard>)

  /** The deck with its rows split by zone; 401 without a caller, 404 when the
      deck is neither the caller's nor public. */
  function GetDeckById(s: State, caller: Option<Id>, deck: Id): (r: (nat, Option<DeckView>))
    requires WellFormedState(s)
    ensures r.0 == OK <==> r.1.Some?
    ensures r.0 == UNAUTHORIZED <==> caller.None?
    ensures r.1.Some? <==> caller.Some? && CanRead(s, caller.value, deck)
    ensures r.0 in {UNAUTHORIZED, NOT_FOUND, OK}
    ensures r.1.Some? ==> r.1.value.deck == s.decks.rows[deck]
    ensures r.1.Some? ==> forall x :: x in r.1.value.rows <==>
      exists id :: id in s.deckCards.rows && s.deckCards.rows[id] == x && x.deckId == deck
    ensures r.1.Some? ==> forall x :: x in r.1.value.main <==> x in r.1.value.rows && x.zone == MAIN
    ensures r.1.Some? ==> forall x :: x in r.1.value.extra <==> x in r.1.value.rows && x.zone == EXTRA
    ensures r.1.Some? ==> forall x :: x in r.1.value.side <==> x in r.1.value.rows && x.zone == SIDE
  {
    if caller.None? then (UNAUTHORIZED, None)
    else if !CanRead(s, caller.value, deck) then (NOT_FOUND, None)
    else
      var rows := FindMany(s.deckCards, RowsOfDeck(deck));
      assert forall x :: x in rows ==> exists id :: id in s.deckCards.rows && s.deckCards.rows[id] == x && x.deckId == deck by {
        forall x | x in rows ensures exists id :: id in s.deckCards.rows && s.deckCards.rows[id] == x && x.deckId == deck {
          var k :| 0 <= k < |rows| && rows[k] == x;
          assert s.deckCards.rows[Select(s.deckCards, RowsOfDeck(deck))[k]] == x;
        }
      }
      (OK, Some(DeckView(s.decks.rows[deck], rows,
        Filter(rows, InZone(MAIN)), Filter(rows, InZone(EXTRA)), Filter(rows, InZone(SIDE)))))
  }

  /** The three zone lists together hold exactly the deck's rows. */
  lemma {:induction false} ZonesPartition(rows: seq<DeckCard>)
    ensures multiset(Filter(rows, InZone(MAIN))) + multiset(Filter(rows, InZone(EXTRA)))
      + multiset(Filter(rows, InZone(SIDE))) == multiset(rows)
  {
    if rows != [] {
      var x, rest := rows[0], rows[1..];
      assert rows == [x] + rest;
      ZonesPartition(rest);
      FilterCons(x, rest, InZone(MAIN));
      FilterCons(x, rest, InZone(EXTRA));
      FilterCons(x, rest, InZone(SIDE));
    }
  }

  // ---------------------------------------------------------------- createDeck / updateDeck / deleteDeck

  datatype DeckFields = DeckFields(name: Option<string>, description: Option<string>, format: Option<string>, isPublic: Option<bool>)

  /** `createDeck`: 401 without a caller, 400 without a name, 409 when the caller
      already has a deck of that name, else 201 with one new deck. */
  function CreateDeckOutcome(s: State, caller: Option<Id>, body: DeckFields): (o: Outcome)
    requires WellFormedState(s)
    ensures o.status != CREATED ==> o.state == s && o.id.None?
    ensures o.status == UNAUTHORIZED <==> caller.None?
    ensures caller.Some? ==> (o.status == BAD_REQUEST <==> !Truthy(body.name))
    ensures o.status == CONFLICT <==> (caller.Some? && Truthy(body.name)
      && exists id :: id in s.decks.rows && s.decks.rows[id].userId == caller.value && s.decks.rows[id].name == body.name.value)
    ensures o.status == CREATED ==> o.id == Some(s.decks.next)
    ensures o.status == CREATED ==>
      o.state == s.(decks := Insert(s.decks, Deck(caller.value, body.name.value, body.description, body.format, body.isPublic == Some(true))))
    ensures o.status in {UNAUTHORIZED, BAD_REQUEST, CONFLICT, CREATED}
  {
    if caller.None? then Outcome(UNAUTHORIZED, s, None)
    else if !Truthy(body.name) then Outcome(BAD_REQUEST, s, None)
    else if First(s.decks, DeckNamed(caller.value, body.name.value)).Some? then
      Outcome(CONFLICT, s, None)
    else
      var deck := Deck(caller.value, body.name.value, body.description, body.format, body.isPublic == Some(true));
      Outcome(CREATED, s.(decks := Insert(s.decks, deck)), Some(s.decks.next))
  }

  method CreateDeck(db: Store, caller: Option<Id>, body: DeckFields) returns (status: nat, id: Option<Id>)
    requires db.Valid()
    modifies db
    ensures Outcome(status, db.Snapshot(), id) == CreateDeckOutcome(old(db.Snapshot()), caller, body)
    ensures db.Valid()
  {
    if caller.None? {
      return UNAUTHORIZED, None;
    }
    if !Truthy(body.name) {
      return BAD_REQUEST, None;
    }
    var existing := First(db.decks, DeckNamed(caller.value, body.name.value));
    if existing.Some? {
      return CONFLICT, None;
    }
    id := Some(db.decks.next);
    db.decks := Insert(db.decks, Deck(caller.value, body.name.value, body.description, body.format, body.isPublic == Some(true)));
    status := CREATED;
  }

  /** The fields a deck update writes: an absent field is left as it was. */
  function ApplyDeckFields(d: Deck, body: DeckFields): Deck {
    d.(name := body.name.GetOr(d.name),
       description := if body.description.Some? then body.description else d.description,
       format := if body.format.Some? then body.format else d.format,
       isPublic := body.isPublic.GetOr(d.isPublic))
  }

  /** `updateDeck`: 404 unless the caller owns the deck; a truthy new name that
      differs from the current one gives 409 when another deck of the caller has it. */
  function UpdateDeckOutcome(s: State, caller: Option<Id>, deck: Id, body: DeckFields): (o: Outcome)
    requires WellFormedState(s)
    ensures o.status != OK ==> o.state == s && o.id.None?
    ensures o.status == UNAUTHORIZED <==> caller.None?
    ensures caller.Some? ==> (o.status == NOT_FOUND <==> !Owns(s, caller.value, deck))
    ensures o.status == CONFLICT <==> (caller.Some? && Owns(s, caller.value, deck)
      && Truthy(body.name) && body.name.value != s.decks.rows[deck].name
      && exists id :: id in s.decks.rows && id != deck && s.decks.rows[id].userId == caller.value
           && s.decks.rows[id].name == body.name.value)
    ensures o.status == OK ==>
      o.id == Some(deck) && o.state == s.(decks := Put(s.decks, deck, ApplyDeckFields(s.decks.rows[deck], body)))
    ensures o.status in {UNAUTHORIZED, NOT_FOUND, CONFLICT, OK}
  {
    if caller.None? then Outcome(UNAUTHORIZED, s, None)
    else if !Owns(s, caller.value, deck) then Outcome(NOT_FOUND, s, None)
    else
      var existing := s.decks.rows[deck];
      var others := Remove(s.decks, deck);
      assert forall id :: id in others.rows <==> id in s.decks.rows && id != deck;
      if Truthy(body.name) && body.name.value != existing.name
         && First(others, DeckNamed(caller.value, body.name.value)).Some? then
        Outcome(CONFLICT, s, None)
      else
        Outcome(OK, s.(decks := Put(s.decks, deck, ApplyDeckFields(existing, body))), Some(deck))
  }

  method UpdateDeck(db: Store, caller: Option<Id>, deck: Id, body: DeckFields) returns (status: nat, id: Option<Id>)
    requires db.Valid()
    modifies db
    ensures Outcome(status, db.Snapshot(), id) == UpdateDeckOutcome(old(db.Snapshot()), caller, deck, body)
    ensures db.Valid()
  {
    if caller.None? {
      return UNAUTHORIZED, None;
    }
    if !(deck in db.decks.rows && db.decks.rows[deck].userId == caller.value) {
      return NOT_FOUND, None;
    }
    var existing := db.decks.rows[deck];
    if Truthy(body.name) && body.name.value != existing.name {
      var duplicate := First(Remove(db.decks, deck), DeckNamed(caller.value, body.name.value));
      if duplicate.Some? {
        return CONFLICT, None;
      }
    }
    db.decks := Put(db.decks, deck, ApplyDeckFields(existing, body));
    status, id := OK, Some(deck);
  }

  /** `deleteDeck`: 404 unless the caller owns the deck; otherwise the deck and,
      by the schema's cascade, its rows are deleted. */
  function DeleteDeckOutcome(s: State, caller: Option<Id>, deck: Id): (o: Outcome)
    ensures o.status != OK ==> o.state == s
    ensures o.status == UNAUTHORIZED <==> caller.None?
    ensures caller.Some? ==> (o.status == NOT_FOUND <==> !Owns(s, caller.value, deck))
    ensures o.status == OK ==> forall id :: id in o.state.decks.rows <==> id in s.decks.rows && id != deck
    ensures o.status == OK ==> forall id :: id in o.state.deckCards.rows <==>
      id in s.deckCards.rows && s.deckCards.rows[id].deckId != deck
    ensures o.status == OK ==>
      (forall id :: id in o.state.decks.rows ==> o.state.decks.rows[id] == s.decks.rows[id])
      && (forall id :: id in o.state.deckCards.rows ==> o.state.deckCards.rows[id] == s.deckCards.rows[id])
    ensures o.status in {UNAUTHORIZED, NOT_FOUND, OK}
  {
    if caller.None? then Outcome(UNAUTHORIZED, s, None)
    else if !Owns(s, caller.value, deck) then Outcome(NOT_FOUND, s, None)
    else
      Outcome(OK, s.(decks := Remove(s.decks, deck), deckCards := RemoveWhere(s.deckCards, RowsOfDeck(deck))), None)
  }

  method DeleteDeck(db: Store, caller: Option<Id>, deck: Id) returns (status: nat)
    requires db.Valid()
    modifies db
    ensures Outcome(status, db.Snapshot(), None) == DeleteDeckOutcome(old(db.Snapshot()), caller, deck)
    ensures db.Valid()
  {
    if caller.None? {
      return UNAUTHORIZED;
    }
    if !(deck in db.decks.rows && db.decks.rows[deck].userId == caller.value) {
      return NOT_FOUND;
    }
    db.deckCards := RemoveWhere(db.deckCards, RowsOfDeck(deck));
    db.decks := Remove(db.decks, deck);
    status := OK;
  }

  /** Deleting a deck keeps every other deck's copies and empties its own. */
  lemma DeleteDeckKeepsLimit(s: State, caller: Option<Id>, deck: Id)
    requires ValidState(s) && DeckLimit(s)
    ensures DeckLimit(DeleteDeckOutcome(s, caller, deck).state)
  {
    var o := DeleteDeckOutcome(s, caller, deck);
    if o.status == OK {
      forall d, c ensures Copies(o.state, d, c) <= 3 {
        if d == deck {
          SumRemoveWhereAll(s.deckCards, RowsOfDeck(deck), CopyWeight(d, c));
        } else {
          SumRemoveWhere(s.deckCards, RowsOfDeck(deck), CopyWeight(d, c));
          assert Copies(s, d, c) <= 3;
        }
      }
    }
  }

  // ---------------------------------------------------------------- addCardToDeck

  datatype AddCardRequest = AddCardRequest(cardId: Option<Id>, quantity: Option<int>, zone: Option<string>)

  /** The requested quantity, 1 by default. */
  function AddQuantity(req: AddCardRequest): int {
    req.quantity.GetOr(1)
  }

  /** The requested zone, MAIN by default; None when the name is not a zone. */
  function AddZone(req: AddCardRequest): Option<DeckZone> {
    ParseZone(req.zone.GetOr("MAIN"))
  }

  /** `addCardToDeck`, checks in the handler's order: caller (401), card_id (400),
      zone (400), deck ownership (404), card existence (400), the three-copy
      limit over all zones (400); then the (deck, card, zone) row grows, or a new
      row is created. */
  function AddCardOutcome(s: State, caller: Option<Id>, deck: Id, req: AddCardRequest): (o: Outcome)
    requires WellFormedState(s)
    ensures o.status != OK && o.status != CREATED ==> o.state == s && o.id.None?
    ensures o.status == UNAUTHORIZED <==> caller.None?
    ensures o.status == BAD_REQUEST <==> (caller.Some?
      && (req.cardId.None? || AddZone(req).None?
          || (Owns(s, caller.value, deck)
              && (req.cardId.value !in s.cards.rows || Copies(s, deck, req.cardId.value) + AddQuantity(req) > 3))))
    ensures o.status in {UNAUTHORIZED, BAD_REQUEST, NOT_FOUND, OK, CREATED}
    ensures o.status == NOT_FOUND <==>
      (caller.Some? && req.cardId.Some? && AddZone(req).Some? && !Owns(s, caller.value, deck))
    ensures o.status == OK || o.status == CREATED ==>
      (caller.Some? && req.cardId.Some? && AddZone(req).Some? && Owns(s, caller.value, deck)
       && req.cardId.value in s.cards.rows
       && Copies(s, deck, req.cardId.value) + AddQuantity(req) <= 3)
    ensures o.status == OK ==>
      (o.id.Some? && o.id.value in s.deckCards.rows
       && SlotIs(deck, req.cardId.value, AddZone(req).value)(s.deckCards.rows[o.id.value])
       && o.state == s.(deckCards := Put(s.deckCards, o.id.value,
            s.deckCards.rows[o.id.value].(quantity := s.deckCards.rows[o.id.value].quantity + AddQuantity(req)))))
    ensures o.status == CREATED ==>
      (o.id == Some(s.deckCards.next)
       && (forall id :: id in s.deckCards.rows ==> !SlotIs(deck, req.cardId.value, AddZone(req).value)(s.deckCards.rows[id]))
       && o.state == s.(deckCards := Insert(s.deckCards, DeckCard(deck, req.cardId.value, AddQuantity(req), AddZone(req).value))))
  {
    if caller.None? then Outcome(UNAUTHORIZED, s, None)
    else if req.cardId.None? then Outcome(BAD_REQUEST, s, None)
    else if AddZone(req).None? then Outcome(BAD_REQUEST, s, None)
    else if !Owns(s, caller.value, deck) then Outcome(NOT_FOUND, s, None)
    else if req.cardId.value !in s.cards.rows then Outcome(BAD_REQUEST, s, None)
    else
      var card := req.cardId.value;
      var quantity := AddQuantity(req);
      var zone := AddZone(req).value;
      if Copies(s, deck, card) + quantity > 3 then Outcome(BAD_REQUEST, s, None)
      else
        match First(s.deckCards, SlotIs(deck, card, zone))
        case Some(id) =>
          var row := s.deckCards.rows[id];
          Outcome(OK, s.(deckCards := Put(s.deckCards, id, row.(quantity := row.quantity + quantity))), Some(id))
        case None =>
          Outcome(CREATED, s.(deckCards := Insert(s.deckCards, DeckCard(deck, card, quantity, zone))), Some(s.deckCards.next))
  }

  method AddCardToDeck(db: Store, caller: Option<Id>, deck: Id, req: AddCardRequest) returns (status: nat, id: Option<Id>)
    requires db.Valid()
    modifies db
    ensures Outcome(status, db.Snapshot(), id) == AddCardOutcome(old(db.Snapshot()), caller, deck, req)
    ensures db.Valid()
  {
    AddCardKeepsValid(db.Snapshot(), caller, deck, req);
    if caller.None? {
      return UNAUTHORIZED, None;
    }
    if req.cardId.None? {
      return BAD_REQUEST, None;
    }
    var zone := ParseZone(req.zone.GetOr("MAIN"));
    if zone.None? {
      return BAD_REQUEST, None;
    }
    if !(deck in db.decks.rows && db.decks.rows[deck].userId == caller.value) {
      return NOT_FOUND, None;
    }
    var card := req.cardId.value;
    if card !in db.cards.rows {
      return BAD_REQUEST, None;
    }
    var quantity := req.quantity.GetOr(1);
    var total := Sum(db.deckCards, CopyWeight(deck, card));
    if total + quantity > 3 {
      return BAD_REQUEST, None;
    }
    var existing := First(db.deckCards, SlotIs(deck, card, zone.value));
    if existing.Some? {
      var row := db.deckCards.rows[existing.value];
      db.deckCards := Put(db.deckCards, existing.value, row.(quantity := row.quantity + quantity));
      status, id := OK, existing;
    } else {
      id := Some(db.deckCards.next);
      db.deckCards := Insert(db.deckCards, DeckCard(deck, card, quantity, zone.value));
      status := CREATED;
    }
  }

  /** After a successful add the card's copies in the deck grew by exactly the
      requested quantity, so they are at most three. */
  lemma AddCardCopies(s: State, caller: Option<Id>, deck: Id, req: AddCardRequest)
    requires ValidState(s)
    ensures var o := AddCardOutcome(s, caller, deck, req);
      o.status == OK || o.status == CREATED ==>
        Copies(o.state, deck, req.cardId.value) == Copies(s, deck, req.cardId.value) + AddQuantity(req)
        && Copies(o.state, deck, req.cardId.value) <= 3
  {
    var o := AddCardOutcome(s, caller, deck, req);
    if o.status == OK {
      var row := s.deckCards.rows[o.id.value];
      SumPut(s.deckCards, CopyWeight(deck, req.cardId.value), o.id.value, row.(quantity := row.quantity + AddQuantity(req)));
    } else if o.status == CREATED {
      SumInsert(s.deckCards, CopyWeight(deck, req.cardId.value), DeckCard(deck, req.cardId.value, AddQuantity(req), AddZone(req).value));
    }
  }

  /** Adding never takes any deck over three copies of any card. */
  lemma AddCardKeepsLimit(s: State, caller: Option<Id>, deck: Id, req: AddCardRequest)
    requires ValidState(s) && DeckLimit(s)
    ensures DeckLimit(AddCardOutcome(s, caller, deck, req).state)
  {
    var o := AddCardOutcome(s, caller, deck, req);
    if o.status == OK || o.status == CREATED {
      var card := req.cardId.value;
      forall d, c ensures Copies(o.state, d, c) <= 3 {
        if d == deck && c == card {
          AddCardCopies(s, caller, deck, req);
        } else if o.status == OK {
          var row := s.deckCards.rows[o.id.value];
          SumPut(s.deckCards, CopyWeight(d, c), o.id.value, row.(quantity := row.quantity + AddQuantity(req)));
          assert Copies(s, d, c) <= 3;
        } else {
          SumInsert(s.deckCards, CopyWeight(d, c), DeckCard(deck, card, AddQuantity(req), AddZone(req).value));
          assert Copies(s, d, c) <= 3;
        }
      }
    }
  }

  /** A non-negative add keeps every deck row non-negative. */
  lemma AddCardKeepsRowsNonNegative(s: State, caller: Option<Id>, deck: Id, req: AddCardRequest)
    requires ValidState(s) && NonNegativeDeckRows(s)
    requires AddQuantity(req) >= 0
    ensures NonNegativeDeckRows(AddCardOutcome(s, caller, deck, req).state)
  {
  }

  /** Adding keeps one row per (deck, card, zone) and all other constraints. */
  lemma AddCardKeepsValid(s: State, caller: Option<Id>, deck: Id, req: AddCardRequest)
    requires ValidState(s)
    ensures ValidState(AddCardOutcome(s, caller, deck, req).state)
  {
    var o := AddCardOutcome(s, caller, deck, req);
    if o.status == CREATED {
      InsertWellFormed(s.deckCards, DeckCard(deck, req.cardId.value, AddQuantity(req), AddZone(req).value));
    }
  }

  // ---------------------------------------------------------------- removeCardFromDeck

  datatype RemoveCardRequest = RemoveCardRequest(zone: Option<string>, quantity: Option<int>)

  /** The zone a removal is narrowed to: the parsed zone query when one is given. */
  function RemoveZone(req: RemoveCardRequest): Option<DeckZone> {
    if Truthy(req.zone) then ParseZone(req.zone.value) else None
  }

  /** `removeCardFromDeck`: 404 unless the caller owns the deck; a zone query that
      is not a zone name is refused by the database (500); the first row of the
      card, narrowed to the zone when one is given, is deleted when the quantity
      to remove (the row's own quantity by default) reaches its quantity, and
      otherwise loses exactly that quantity; 404 when there is no such row. */
  function RemoveCardOutcome(s: State, caller: Option<Id>, deck: Id, card: Id, req: RemoveCardRequest): (o: Outcome)
    requires WellFormedState(s)
    ensures o.status != OK ==> o.state == s && o.id.None?
    ensures o.status == UNAUTHORIZED <==> caller.None?
    ensures caller.Some? && !Owns(s, caller.value, deck) ==> o.status == NOT_FOUND
    ensures o.status == SERVER_ERROR <==>
      (caller.Some? && Owns(s, caller.value, deck) && Truthy(req.zone) && ParseZone(req.zone.value).None?)
    ensures o.status == OK ==>
      (o.id.Some? && o.id.value in s.deckCards.rows
       && s.deckCards.rows[o.id.value].deckId == deck && s.deckCards.rows[o.id.value].cardId == card
       && (Truthy(req.zone) ==> ZoneName(s.deckCards.rows[o.id.value].zone) == req.zone.value))
    ensures (caller.Some? && Owns(s, caller.value, deck) && !(Truthy(req.zone) && RemoveZone(req).None?)) ==>
      (o.status == NOT_FOUND <==> First(s.deckCards, RowMatches(deck, card, RemoveZone(req))).None?)
    ensures o.status == OK ==> o.id == First(s.deckCards, RowMatches(deck, card, RemoveZone(req)))
    ensures o.status in {UNAUTHORIZED, NOT_FOUND, SERVER_ERROR, OK}
    ensures o.status == OK ==>
      var row := s.deckCards.rows[o.id.value];
      var removeQty := req.quantity.GetOr(row.quantity);
      o.state == s.(deckCards :=
        if removeQty >= row.quantity then Remove(s.deckCards, o.id.value)
        else Put(s.deckCards, o.id.value, row.(quantity := row.quantity - removeQty)))
  {
    if caller.None? then Outcome(UNAUTHORIZED, s, None)
    else if !Owns(s, caller.value, deck) then Outcome(NOT_FOUND, s, None)
    else
      var zone := RemoveZone(req);
      if Truthy(req.zone) && zone.None? then Outcome(SERVER_ERROR, s, None)
      else
        match First(s.deckCards, RowMatches(deck, card, zone))
        case None => Outcome(NOT_FOUND, s, None)
        case Some(id) =>
          var row := s.deckCards.rows[id];
          var removeQty := req.quantity.GetOr(row.quantity);
          if removeQty >= row.quantity then
            Outcome(OK, s.(deckCards := Remove(s.deckCards, id)), Some(id))
          else
            Outcome(OK, s.(deckCards := Put(s.deckCards, id, row.(quantity := row.quantity - removeQty))), Some(id))
  }

  method RemoveCardFromDeck(db: Store, caller: Option<Id>, deck: Id, card: Id, req: RemoveCardRequest)
    returns (status: nat, id: Option<Id>)
    requires db.Valid()
    modifies db
    ensures Outcome(status, db.Snapshot(), id) == RemoveCardOutcome(old(db.Snapshot()), caller, deck, card, req)
    ensures db.Valid()
  {
    RemoveCardKeepsValid(db.Snapshot(), caller, deck, card, req);
    if caller.None? {
      return UNAUTHORIZED, None;
    }
    if !(deck in db.decks.rows && db.decks.rows[deck].userId == caller.value) {
      return NOT_FOUND, None;
    }
    var zone: Option<DeckZone> := None;
    if Truthy(req.zone) {
      zone := ParseZone(req.zone.value);
      if zone.None? {
        return SERVER_ERROR, None;
      }
    }
    var found := First(db.deckCards, RowMatches(deck, card, zone));
    if found.None? {
      return NOT_FOUND, None;
    }
    var row := db.deckCards.rows[found.value];
    var removeQty := req.quantity.GetOr(row.quantity);
    if removeQty >= row.quantity {
      db.deckCards := Remove(db.deckCards, found.value);
    } else {
      db.deckCards := Put(db.deckCards, found.value, row.(quantity := row.quantity - removeQty));
    }
    status, id := OK, found;
  }

  /** With non-negative rows and a non-negative quantity, removal never raises
      any card's copies, so the three-copy limit survives. */
  lemma RemoveCardKeepsLimit(s: State, caller: Option<Id>, deck: Id, card: Id, req: RemoveCardRequest)
    requires ValidState(s) && DeckLimit(s) && NonNegativeDeckRows(s)
    requires req.quantity.None? || req.quantity.value >= 0
    ensures DeckLimit(RemoveCardOutcome(s, caller, deck, card, req).state)
    ensures NonNegativeDeckRows(RemoveCardOutcome(s, caller, deck, card, req).state)
  {
    var o := RemoveCardOutcome(s, caller, deck, card, req);
    if o.status == OK {
      var id := o.id.value;
      var row := s.deckCards.rows[id];
      var removeQty := req.quantity.GetOr(row.quantity);
      forall d, c ensures Copies(o.state, d, c) <= 3 {
        assert Copies(s, d, c) <= 3;
        if removeQty >= row.quantity {
          SumRemove(s.deckCards, CopyWeight(d, c), id);
        } else {
          SumPut(s.deckCards, CopyWeight(d, c), id, row.(quantity := row.quantity - removeQty));
        }
      }
    }
  }

  /** As written, a negative `quantity` query raises the row instead of lowering
      it: removing -1 from a deck's three copies leaves four. */
  lemma RemoveNegativeQuantityRaisesCopies()
    ensures var s := EmptyState().(
              decks := Table(map[0 := Deck(0, "d", None, None, false)], 1),
              deckCards := Table(map[0 := DeckCard(0, 0, 3, MAIN)], 1));
            var o := RemoveCardOutcome(s, Some(0), 0, 0, RemoveCardRequest(None, Some(-1)));
            DeckLimit(s) && o.status == OK && Copies(o.state, 0, 0) == 4
  {
    var s := EmptyState().(
      decks := Table(map[0 := Deck(0, "d", None, None, false)], 1),
      deckCards := Table(map[0 := DeckCard(0, 0, 3, MAIN)], 1));
    forall d, c ensures Copies(s, d, c) <= 3 {
      assert SumBelow(s.deckCards.rows, CopyWeight(d, c), 0) == 0;
    }
    var o := RemoveCardOutcome(s, Some(0), 0, 0, RemoveCardRequest(None, Some(-1)));
    assert First(s.deckCards, RowMatches(0, 0, None)) == Some(0);
    assert o.state.deckCards.rows == map[0 := DeckCard(0, 0, 4, MAIN)];
    assert SumBelow(o.state.deckCards.rows, CopyWeight(0, 0), 0) == 0;
  }

  /** Removal keeps one row per (deck, card, zone) and all other constraints. */
  lemma RemoveCardKeepsValid(s: State, caller: Option<Id>, deck: Id, card: Id, req: RemoveCardRequest)
    requires ValidState(s)
    ensures ValidState(RemoveCardOutcome(s, caller, deck, card, req).state)
  {
  }
}
