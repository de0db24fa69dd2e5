/** Collection handlers. A collection belongs to one user; its entries record how
    many copies of a card the user holds in one condition, language and edition,
    and adding a card with the same key merges into the existing entry. */
module CollectionController {
  import opened Common
  import opened Tables
  import opened Database

  predicate Owns(s: State, caller: Id, coll: Id) {
    coll in s.collections.rows && s.collections.rows[coll].userId == caller
  }

  /** `findFirst({ where: { id, OR: [{ user_id }, { is_public: true }] } })`. */
  predicate CanRead(s: State, caller: Id, coll: Id) {
    coll in s.collections.rows && (s.collections.rows[coll].userId == caller || s.collections.rows[coll].isPublic)
  }

  function CollectionNamed(user: Id, name: string): Collection -> bool {
    (c: Collection) => c.userId == user && c.name == name
  }

  function EntriesOf(coll: Id): CollectionCard -> bool {
    (e: CollectionCard) => e.collectionId == coll
  }

  function EntryHasKey(key: (Id, Id, string, string, bool)): CollectionCard -> bool {
    (e: CollectionCard) => EntryKey(e) == key
  }

  function EntryOfCard(coll: Id, card: Id): CollectionCard -> bool {
    (e: CollectionCard) => e.collectionId == coll && e.cardId == card
  }

  /** Weight of an entry towards the copies of `card` held in `coll`. */
  function HeldWeight(coll: Id, card: Id): CollectionCard -> int {
    (e: CollectionCard) => if e.collectionId == coll && e.cardId == card then e.quantity else 0
  }

  /** Copies of `card` held in `coll`, over all conditions, languages and editions. */
  function Held(s: State, coll: Id, card: Id): int {
    Sum(s.collectionCards, HeldWeight(coll, card))
  }

  // ---------------------------------------------------------------- getCollectionById

  /** The collection and its entries, most recently added first; 401 without a
      caller, 404 unless the collection is the caller's own or public. */
  function GetCollectionById(s: State, caller: Option<Id>, coll: Id): (r: (nat, Option<(Collection, seq<CollectionCard>)>))
    requires WellFormedState(s)
    ensures r.0 == OK <==> r.1.Some?
    ensures r.0 == UNAUTHORIZED <==> caller.None?
    ensures r.1.Some? <==> caller.Some? && CanRead(s, caller.value, coll)
    ensures r.0 in {UNAUTHORIZED, NOT_FOUND, OK}
    ensures r.1.Some? ==> r.1.value.0 == s.collections.rows[coll]
    ensures r.1.Some? ==> forall e :: e in r.1.value.1 ==> e.collectionId == coll
    ensures r.1.Some? ==> forall id :: id in s.collectionCards.rows && s.collectionCards.rows[id].collectionId == coll ==>
      s.collectionCards.rows[id] in r.1.value.1
    ensures r.1.Some? ==> var ids := Newest(s.collectionCards, EntriesOf(coll));
      |r.1.value.1| == |ids| && forall k :: 0 <= k < |ids| ==> r.1.value.1[k] == s.collectionCards.rows[ids[k]]
  {
    if caller.None? then (UNAUTHORIZED, None)
    else if !CanRead(s, caller.value, coll) then (NOT_FOUND, None)
    else (OK, Some((s.collections.rows[coll], Tables.Reverse(FindMany(s.collectionCards, EntriesOf(coll))))))
  }

  // ---------------------------------------------------------------- createCollection / updateCollection / deleteCollection

  datatype CollectionFields = CollectionFields(name: Option<string>, description: Option<string>, isPublic: Option<bool>)

  /** `createCollection`: 401 without a caller, 400 without a name, 409 when the
      caller already has a collection of that name, else 201 with one new collection. */
  function CreateCollectionOutcome(s: State, caller: Option<Id>, body: CollectionFields): (o: Outcome)
    requires WellFormedState(s)
    ensures o.status != CREATED ==> o.state == s && o.id.None?
    ensures o.status == UNAUTHORIZED <==> caller.None?
    ensures caller.Some? ==> (o.status == BAD_REQUEST <==> !Truthy(body.name))
    ensures o.status == CONFLICT <==> (caller.Some? && Truthy(body.name)
      && exists id :: id in s.collections.rows && s.collections.rows[id].userId == caller.value
           && s.collections.rows[id].name == body.name.value)
    ensures o.status == CREATED ==> o.id == Some(s.collections.next)
    ensures o.status == CREATED ==> o.state == s.(collections := Insert(s.collections,
      Collection(caller.value, body.name.value, body.description, body.isPublic == Some(true))))
    ensures o.status in {UNAUTHORIZED, BAD_REQUEST, CONFLICT, CREATED}
  {
    if caller.None? then Outcome(UNAUTHORIZED, s, None)
    else if !Truthy(body.name) then Outcome(BAD_REQUEST, s, None)
    else if First(s.collections, CollectionNamed(caller.value, body.name.value)).Some? then
      Outcome(CONFLICT, s, None)
    else
      var c := Collection(caller.value, body.name.value, body.description, body.isPublic == Some(true));
      Outcome(CREATED, s.(collections := Insert(s.collections, c)), Some(s.collections.next))
  }

  method CreateCollection(db: Store, caller: Option<Id>, body: CollectionFields) returns (status: nat, id: Option<Id>)
    requires db.Valid()
    modifies db
    ensures Outcome(status, db.Snapshot(), id) == CreateCollectionOutcome(old(db.Snapshot()), caller, body)
    ensures db.Valid()
  {
    if caller.None? {
      return UNAUTHORIZED, None;
    }
    if !Truthy(body.name) {
      return BAD_REQUEST, None;
    }
    var existing := First(db.collections, CollectionNamed(caller.value, body.name.value));
    if existing.Some? {
      return CONFLICT, None;
    }
    id := Some(db.collections.next);
    db.collections := Insert(db.collections, Collection(caller.value, body.name.value, body.description, body.isPublic == Some(true)));
    status := CREATED;
  }

  function ApplyCollectionFields(c: Collection, body: CollectionFields): Collection {
    c.(name := body.name.GetOr(c.name),
       description := if body.description.Some? then body.description else c.description,
       isPublic := body.isPublic.GetOr(c.isPublic))
  }

  /** `updateCollection`: 404 unless owned; the duplicate-name check runs only for
      a truthy name that differs from the current one, and ignores the collection itself. */
  function UpdateCollectionOutcome(s: State, caller: Option<Id>, coll: Id, body: CollectionFields): (o: Outcome)
    requires WellFormedState(s)
    ensures o.status != OK ==> o.state == s && o.id.None?
    ensures o.status == UNAUTHORIZED <==> caller.None?
    ensures caller.Some? ==> (o.status == NOT_FOUND <==> !Owns(s, caller.value, coll))
    ensures o.status == CONFLICT <==> (caller.Some? && Owns(s, caller.value, coll)
      && Truthy(body.name) && body.name.value != s.collections.rows[coll].name
      && exists id :: id in s.collections.rows && id != coll && s.collections.rows[id].userId == caller.value
           && s.collections.rows[id].name == body.name.value)
    ensures o.status == OK ==>
      o.id == Some(coll)
      && o.state == s.(collections := Put(s.collections, coll, ApplyCollectionFields(s.collections.rows[coll], body)))
    ensures o.status in {UNAUTHORIZED, NOT_FOUND, CONFLICT, OK}
  {
    if caller.None? then Outcome(UNAUTHORIZED, s, None)
    else if !Owns(s, caller.value, coll) then Outcome(NOT_FOUND, s, None)
    else
      var existing := s.collections.rows[coll];
      var others := Remove(s.collections, coll);
      assert forall id :: id in others.rows <==> id in s.collections.rows && id != coll;
      if Truthy(body.name) && body.name.value != existing.name
         && First(others, CollectionNamed(caller.value, body.name.value)).Some? then
        Outcome(CONFLICT, s, None)
      else
        Outcome(OK, s.(collections := Put(s.collections, coll, ApplyCollectionFields(existing, body))), Some(coll))
  }

  method UpdateCollection(db: Store, caller: Option<Id>, coll: Id, body: CollectionFields) returns (status: nat, id: Option<Id>)
    requires db.Valid()
    modifies db
    ensures Outcome(status, db.Snapshot(), id) == UpdateCollectionOutcome(old(db.Snapshot()), caller, coll, body)
    ensures db.Valid()
  {
    if caller.None? {
      return UNAUTHORIZED, None;
    }
    if !(coll in db.collections.rows && db.collections.rows[coll].userId == caller.value) {
      return NOT_FOUND, None;
    }
    var existing := db.collections.rows[coll];
    if Truthy(body.name) && body.name.value != existing.name {
      var duplicate := First(Remove(db.collections, coll), CollectionNamed(caller.value, body.name.value));
      if duplicate.Some? {
        return CONFLICT, None;
      }
    }
    db.collections := Put(db.collections, coll, ApplyCollectionFields(existing, body));
    status, id := OK, Some(coll);
  }

  /** `deleteCollection`: 404 unless owned; otherwise the collection and, by the
      schema's cascade, its entries are deleted. */
  function DeleteCollectionOutcome(s: State, caller: Option<Id>, coll: Id): (o: Outcome)
    ensures o.status != OK ==> o.state == s
    ensures o.status == UNAUTHORIZED <==> caller.None?
    ensures caller.Some? ==> (o.status == NOT_FOUND <==> !Owns(s, caller.value, coll))
    ensures o.status == OK ==> forall id :: id in o.state.collections.rows <==> id in s.collections.rows && id != coll
    ensures o.status == OK ==> forall id :: id in o.state.collectionCards.rows <==>
      id in s.collectionCards.rows && s.collectionCards.rows[id].collectionId != coll
    ensures o.status == OK ==>
      (forall id :: id in o.state.collections.rows ==> o.state.collections.rows[id] == s.collections.rows[id])
      && (forall id :: id in o.state.collectionCards.rows ==> o.state.collectionCards.rows[id] == s.collectionCards.rows[id])
    ensures o.status in {UNAUTHORIZED, NOT_FOUND, OK}
  {
    if caller.None? then Outcome(UNAUTHORIZED, s, None)
    else if !Owns(s, caller.value, coll) then Outcome(NOT_FOUND, s, None)
    else
      Outcome(OK, s.(collections := Remove(s.collections, coll),
                     collectionCards := RemoveWhere(s.collectionCards, EntriesOf(coll))), None)
  }

  method DeleteCollection(db: Store, caller: Option<Id>, coll: Id) returns (status: nat)
    requires db.Valid()
    modifies db
    ensures Outcome(status, db.Snapshot(), None) == DeleteCollectionOutcome(old(db.Snapshot()), caller, coll)
    ensures db.Valid()
  {
    if caller.None? {
      return UNAUTHORIZED;
    }
    if !(coll in db.collections.rows && db.collections.rows[coll].userId == caller.value) {
      return NOT_FOUND;
    }
    db.collectionCards := RemoveWhere(db.collectionCards, EntriesOf(coll));
    db.collections := Remove(db.collections, coll);
    status := OK;
  }

  // ---------------------------------------------------------------- addCardToCollection

  datatype AddEntryRequest = AddEntryRequest(
    cardId: Option<Id>,
    quantity: Option<int>,
    condition: Option<string>,
    language: Option<string>,
    isFirstEdition: Option<bool>,
    purchasePrice: Option<real>,
    purchaseCurrency: Option<string>,
    notes: Option<string>)

  /** The merge key of the request, with the defaults NEAR_MINT, EN and not first edition. */
  function RequestKey(coll: Id, req: AddEntryRequest): (Id, Id, string, string, bool)
    requires req.cardId.Some?
  {
    (coll, req.cardId.value, req.condition.GetOr("NEAR_MINT"), req.language.GetOr("EN"), req.isFirstEdition.GetOr(false))
  }

  function EntryQuantity(req: AddEntryRequest): int {
    req.quantity.GetOr(1)
  }

  /** The entry a request creates when its key is new. */
  function NewEntry(coll: Id, req: AddEntryRequest): (e: CollectionCard)
    requires req.cardId.Some?
    ensures EntryKey(e) == RequestKey(coll, req)
  {
    CollectionCard(coll, req.cardId.value, EntryQuantity(req), req.condition.GetOr("NEAR_MINT"),
      req.language.GetOr("EN"), req.isFirstEdition.GetOr(false), req.purchasePrice, req.purchaseCurrency, req.notes)
  }

  /** `addCardToCollection`, checks in the handler's order: caller (401), card_id
      (400), ownership (404), card existence (400); a condition or language outside
      the schema's enumerations is refused by the database (500); then the entry
      with the same key grows by the quantity, keeping its purchase data, or one new
      entry is created. */
  function AddEntryOutcome(s: State, caller: Option<Id>, coll: Id, req: AddEntryRequest): (o: Outcome)
    requires WellFormedState(s)
    ensures o.status != OK && o.status != CREATED ==> o.state == s && o.id.None?
    ensures o.status == UNAUTHORIZED <==> caller.None?
    ensures o.status == BAD_REQUEST <==> (caller.Some?
      && (req.cardId.None? || (Owns(s, caller.value, coll) && req.cardId.value !in s.cards.rows)))
    ensures o.status == SERVER_ERROR <==> (caller.Some? && req.cardId.Some? && Owns(s, caller.value, coll)
      && req.cardId.value in s.cards.rows
      && (req.condition.GetOr("NEAR_MINT") !in CONDITIONS || req.language.GetOr("EN") !in LANGUAGES))
    ensures o.status in {UNAUTHORIZED, BAD_REQUEST, NOT_FOUND, SERVER_ERROR, OK, CREATED}
    ensures o.status == NOT_FOUND <==> (caller.Some? && req.cardId.Some? && !Owns(s, caller.value, coll))
    ensures o.status == OK || o.status == CREATED ==>
      (caller.Some? && req.cardId.Some? && Owns(s, caller.value, coll) && req.cardId.value in s.cards.rows
       && req.condition.GetOr("NEAR_MINT") in CONDITIONS && req.language.GetOr("EN") in LANGUAGES)
    ensures o.status == OK ==>
      (o.id.Some? && o.id.value in s.collectionCards.rows
       && EntryKey(s.collectionCards.rows[o.id.value]) == RequestKey(coll, req)
       && o.state == s.(collectionCards := Put(s.collectionCards, o.id.value,
            s.collectionCards.rows[o.id.value].(quantity := s.collectionCards.rows[o.id.value].quantity + EntryQuantity(req)))))
    ensures o.status == CREATED ==>
      (o.id == Some(s.collectionCards.next)
       && (forall id :: id in s.collectionCards.rows ==> EntryKey(s.collectionCards.rows[id]) != RequestKey(coll, req))
       && o.state == s.(collectionCards := Insert(s.collectionCards, NewEntry(coll, req))))
  {
    if caller.None? then Outcome(UNAUTHORIZED, s, None)
    else if req.cardId.None? then Outcome(BAD_REQUEST, s, None)
    else if !Owns(s, caller.value, coll) then Outcome(NOT_FOUND, s, None)
    else if req.cardId.value !in s.cards.rows then Outcome(BAD_REQUEST, s, None)
    else if req.condition.GetOr("NEAR_MINT") !in CONDITIONS || req.language.GetOr("EN") !in LANGUAGES then
      Outcome(SERVER_ERROR, s, None)
    else
      match First(s.collectionCards, EntryHasKey(RequestKey(coll, req)))
      case Some(id) =>
        var e := s.collectionCards.rows[id];
        Outcome(OK, s.(collectionCards := Put(s.collectionCards, id, e.(quantity := e.quantity + EntryQuantity(req)))), Some(id))
      case None =>
        Outcome(CREATED, s.(collectionCards := Insert(s.collectionCards, NewEntry(coll, req))), Some(s.collectionCards.next))
  }

  method AddCardToCollection(db: Store, caller: Option<Id>, coll: Id, req: AddEntryRequest) returns (status: nat, id: Option<Id>)
    requires db.Valid()
    modifies db
    ensures Outcome(status, db.Snapshot(), id) == AddEntryOutcome(old(db.Snapshot()), caller, coll, req)
    ensures db.Valid()
  {
    AddEntryKeepsValid(db.Snapshot(), caller, coll, req);
    if caller.None? {
      return UNAUTHORIZED, None;
    }
    if req.cardId.None? {
      return BAD_REQUEST, None;
    }
    if !(coll in db.collections.rows && db.collections.rows[coll].userId == caller.value) {
      return NOT_FOUND, None;
    }
    if req.cardId.value !in db.cards.rows {
      return BAD_REQUEST, None;
    }
    var condition := req.condition.GetOr("NEAR_MINT");
    var language := req.language.GetOr("EN");
    if condition !in CONDITIONS || language !in LANGUAGES {
      return SERVER_ERROR, None;
    }
    var existing := First(db.collectionCards, EntryHasKey(RequestKey(coll, req)));
    if existing.Some? {
      var e := db.collectionCards.rows[existing.value];
      db.collectionCards := Put(db.collectionCards, existing.value, e.(quantity := e.quantity + req.quantity.GetOr(1)));
      status, id := OK, existing;
    } else {
      id := Some(db.collectionCards.next);
      db.collectionCards := Insert(db.collectionCards, NewEntry(coll, req));
      status := CREATED;
    }
  }

  /** A successful add raises the copies held of the card by exactly the quantity. */
  lemma AddEntryHeld(s: State, caller: Option<Id>, coll: Id, req: AddEntryRequest)
    requires ValidState(s)
    ensures var o := AddEntryOutcome(s, caller, coll, req);
      o.status == OK || o.status == CREATED ==>
        Held(o.state, coll, req.cardId.value) == Held(s, coll, req.cardId.value) + EntryQuantity(req)
  {
    var o := AddEntryOutcome(s, caller, coll, req);
    if o.status == OK {
      var e := s.collectionCards.rows[o.id.value];
      SumPut(s.collectionCards, HeldWeight(coll, req.cardId.value), o.id.value, e.(quantity := e.quantity + EntryQuantity(req)));
    } else if o.status == CREATED {
      SumInsert(s.collectionCards, HeldWeight(coll, req.cardId.value), NewEntry(coll, req));
    }
  }

  /** Adding keeps entries unique per (collection, card, condition, language, edition). */
  lemma AddEntryKeepsValid(s: State, caller: Option<Id>, coll: Id, req: AddEntryRequest)
    requires ValidState(s)
    ensures ValidState(AddEntryOutcome(s, caller, coll, req).state)
  {
    var o := AddEntryOutcome(s, caller, coll, req);
    if o.status == CREATED {
      InsertWellFormed(s.collectionCards, NewEntry(coll, req));
    }
  }

  // ---------------------------------------------------------------- removeCardFromCollection

  /** `removeCardFromCollection`: 404 unless owned; the entry removed from is the
      first entry of the card in the collection whatever its condition, language or
      edition (404 when there is none); it is deleted when the quantity to remove
      (its own quantity by default) reaches its quantity, else it loses exactly that. */
  function RemoveEntryOutcome(s: State, caller: Option<Id>, coll: Id, card: Id, quantity: Option<int>): (o: Outcome)
    requires WellFormedState(s)
    ensures o.status != OK ==> o.state == s && o.id.None?
    ensures o.status == UNAUTHORIZED <==> caller.None?
    ensures caller.Some? && !Owns(s, caller.value, coll) ==> o.status == NOT_FOUND
    ensures o.status == NOT_FOUND && caller.Some? && Owns(s, caller.value, coll) ==>
      forall id :: id in s.collectionCards.rows ==> !EntryOfCard(coll, card)(s.collectionCards.rows[id])
    ensures caller.Some? && Owns(s, caller.value, coll) ==>
      (o.status == NOT_FOUND <==> First(s.collectionCards, EntryOfCard(coll, card)).None?)
    ensures o.status == OK ==> o.id == First(s.collectionCards, EntryOfCard(coll, card))
    ensures o.status in {UNAUTHORIZED, NOT_FOUND, OK}
    ensures o.status == OK ==>
      (o.id.Some? && o.id.value in s.collectionCards.rows
       && EntryOfCard(coll, card)(s.collectionCards.rows[o.id.value])
       && forall id :: id in s.collectionCards.rows && id < o.id.value ==> !EntryOfCard(coll, card)(s.collectionCards.rows[id]))
    ensures o.status == OK ==>
      var e := s.collectionCards.rows[o.id.value];
      var removeQty := quantity.GetOr(e.quantity);
      o.state == s.(collectionCards :=
        if removeQty >= e.quantity then Remove(s.collectionCards, o.id.value)
        else Put(s.collectionCards, o.id.value, e.(quantity := e.quantity - removeQty)))
  {
    if caller.None? then Outcome(UNAUTHORIZED, s, None)
    else if !Owns(s, caller.value, coll) then Outcome(NOT_FOUND, s, None)
    else
      match First(s.collectionCards, EntryOfCard(coll, card))
      case None => Outcome(NOT_FOUND, s, None)
      case Some(id) =>
        var e := s.collectionCards.rows[id];
        var removeQty := quantity.GetOr(e.quantity);
        if removeQty >= e.quantity then
          Outcome(OK, s.(collectionCards := Remove(s.collectionCards, id)), Some(id))
        else
          Outcome(OK, s.(collectionCards := Put(s.collectionCards, id, e.(quantity := e.quantity - removeQty))), Some(id))
  }

  method RemoveCardFromCollection(db: Store, caller: Option<Id>, coll: Id, card: Id, quantity: Option<int>)
    returns (status: nat, id: Option<Id>)
    requires db.Valid()
    modifies db
    ensures Outcome(status, db.Snapshot(), id) == RemoveEntryOutcome(old(db.Snapshot()), caller, coll, card, quantity)
    ensures db.Valid()
  {
    RemoveEntryKeepsValid(db.Snapshot(), caller, coll, card, quantity);
    if caller.None? {
      return UNAUTHORIZED, None;
    }
    if !(coll in db.collections.rows && db.collections.rows[coll].userId == caller.value) {
      return NOT_FOUND, None;
    }
    var found := First(db.collectionCards, EntryOfCard(coll, card));
    if found.None? {
      return NOT_FOUND, None;
    }
    var e := db.collectionCards.rows[found.value];
    var removeQty := quantity.GetOr(e.quantity);
    if removeQty >= e.quantity {
      db.collectionCards := Remove(db.collectionCards, found.value);
    } else {
      db.collectionCards := Put(db.collectionCards, found.value, e.(quantity := e.quantity - removeQty));
    }
    status, id := OK, found;
  }

  /** A successful removal lowers the copies held of the card by the quantity
      removed, capped at the chosen entry's quantity. */
  lemma RemoveEntryHeld(s: State, caller: Option<Id>, coll: Id, card: Id, quantity: Option<int>)
    requires ValidState(s)
    ensures var o := RemoveEntryOutcome(s, caller, coll, card, quantity);
      o.status == OK ==>
        var e := s.collectionCards.rows[o.id.value];
        var removeQty := quantity.GetOr(e.quantity);
        Held(o.state, coll, card) == Held(s, coll, card) - (if removeQty >= e.quantity then e.quantity else removeQty)
  {
    var o := RemoveEntryOutcome(s, caller, coll, card, quantity);
    if o.status == OK {
      var e := s.collectionCards.rows[o.id.value];
      var removeQty := quantity.GetOr(e.quantity);
      if removeQty >= e.quantity {
        SumRemove(s.collectionCards, HeldWeight(coll, card), o.id.value);
      } else {
        SumPut(s.collectionCards, HeldWeight(coll, card), o.id.value, e.(quantity := e.quantity - removeQty));
      }
    }
  }

  lemma RemoveEntryKeepsValid(s: State, caller: Option<Id>, coll: Id, card: Id, quantity: Option<int>)
    requires ValidState(s)
    ensures ValidState(RemoveEntryOutcome(s, caller, coll, card, quantity).state)
  {
  }
}
