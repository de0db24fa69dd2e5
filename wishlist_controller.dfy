/** Wishlist handlers: one row per (user, card) pair with optional price-alert settings. */
module WishlistController {
  import opened Common
  import opened Tables
  import opened Database

  function OfUser(user: Id): WishlistItem -> bool {
    (w: WishlistItem) => w.userId == user
  }

  function PairIs(user: Id, card: Id): WishlistItem -> bool {
    (w: WishlistItem) => w.userId == user && w.cardId == card
  }

  /** `getMyWishlist`: the ids of the caller's rows, most recently added first. */
  function GetMyWishlist(s: State, caller: Option<Id>): (r: (nat, seq<Id>))
    requires WellFormedState(s)
    ensures r.0 == UNAUTHORIZED <==> caller.None?
    ensures r.0 != UNAUTHORIZED ==> r.0 == OK
    ensures r.0 == OK ==> Decreasing(r.1)
    ensures r.0 == OK ==> forall id :: id in r.1 <==> id in s.wishlists.rows && s.wishlists.rows[id].userId == caller.value
  {
    if caller.None? then (UNAUTHORIZED, [])
    else (OK, Newest(s.wishlists, OfUser(caller.value)))
  }

  datatype WishRequest = WishRequest(
    cardId: Option<Id>,
    alertEnabled: Option<bool>,
    alertThreshold: Option<real>,
    alertSource: Option<string>)

  /** `addToWishlist`: 401 without a caller, 400 without a card id or for an
      unknown card, 409 when the pair is already listed, else 201 with one new row
      whose alert is off unless enabled. */
  function AddToWishlistOutcome(s: State, caller: Option<Id>, req: WishRequest): (o: Outcome)
    requires WellFormedState(s)
    ensures o.status != CREATED ==> o.state == s && o.id.None?
    ensures o.status == UNAUTHORIZED <==> caller.None?
    ensures o.status == BAD_REQUEST <==> caller.Some? && (req.cardId.None? || req.cardId.value !in s.cards.rows)
    ensures o.status == CONFLICT <==> (caller.Some? && req.cardId.Some? && req.cardId.value in s.cards.rows
      && exists id :: id in s.wishlists.rows && WishKey(s.wishlists.rows[id]) == (caller.value, req.cardId.value))
    ensures o.status == CREATED ==>
      (o.id == Some(s.wishlists.next)
       && o.state == s.(wishlists := Insert(s.wishlists,
            WishlistItem(caller.value, req.cardId.value, req.alertEnabled.GetOr(false), req.alertThreshold, req.alertSource))))
    ensures o.status in {UNAUTHORIZED, BAD_REQUEST, CONFLICT, CREATED}
  {
    if caller.None? then Outcome(UNAUTHORIZED, s, None)
    else if req.cardId.None? || req.cardId.value !in s.cards.rows then Outcome(BAD_REQUEST, s, None)
    else if First(s.wishlists, PairIs(caller.value, req.cardId.value)).Some? then Outcome(CONFLICT, s, None)
    else
      var item := WishlistItem(caller.value, req.cardId.value, req.alertEnabled.GetOr(false), req.alertThreshold, req.alertSource);
      Outcome(CREATED, s.(wishlists := Insert(s.wishlists, item)), Some(s.wishlists.next))
  }

  method AddToWishlist(db: Store, caller: Option<Id>, req: WishRequest) returns (status: nat, id: Option<Id>)
    requires db.Valid()
    modifies db
    ensures Outcome(status, db.Snapshot(), id) == AddToWishlistOutcome(old(db.Snapshot()), caller, req)
    ensures db.Valid()
  {
    AddToWishlistKeepsValid(db.Snapshot(), caller, req);
    if caller.None? {
      return UNAUTHORIZED, None;
    }
    if req.cardId.None? {
      return BAD_REQUEST, None;
    }
    if req.cardId.value !in db.cards.rows {
      return BAD_REQUEST, None;
    }
    var existing := First(db.wishlists, PairIs(caller.value, req.cardId.value));
    if existing.Some? {
      return CONFLICT, None;
    }
    id := Some(db.wishlists.next);
    db.wishlists := Insert(db.wishlists,
      WishlistItem(caller.value, req.cardId.value, req.alertEnabled.GetOr(false), req.alertThreshold, req.alertSource));
    status := CREATED;
  }

  /** Adding keeps (user, card) pairs unique. */
  lemma AddToWishlistKeepsValid(s: State, caller: Option<Id>, req: WishRequest)
    requires ValidState(s)
    ensures ValidState(AddToWishlistOutcome(s, caller, req).state)
  {
    var o := AddToWishlistOutcome(s, caller, req);
    if o.status == CREATED {
      InsertWellFormed(s.wishlists,
        WishlistItem(caller.value, req.cardId.value, req.alertEnabled.GetOr(false), req.alertThreshold, req.alertSource));
    }
  }

  function ApplyAlert(w: WishlistItem, req: WishRequest): WishlistItem {
    w.(alertEnabled := req.alertEnabled.GetOr(w.alertEnabled),
       alertThreshold := if req.alertThreshold.Some? then req.alertThreshold else w.alertThreshold,
       alertSource := if req.alertSource.Some? then req.alertSource else w.alertSource)
  }

  /** `updateWishlistItem`: 404 when the caller has not listed the card; else only
      the three alert fields of that row change. */
  function UpdateWishlistOutcome(s: State, caller: Option<Id>, card: Id, req: WishRequest): (o: Outcome)
    requires WellFormedState(s)
    ensures o.status != OK ==> o.state == s && o.id.None?
    ensures o.status == UNAUTHORIZED <==> caller.None?
    ensures o.status == NOT_FOUND <==> (caller.Some?
      && forall id :: id in s.wishlists.rows ==> WishKey(s.wishlists.rows[id]) != (caller.value, card))
    ensures o.status == OK ==>
      (o.id.Some? && o.id.value in s.wishlists.rows && WishKey(s.wishlists.rows[o.id.value]) == (caller.value, card)
       && var w := s.wishlists.rows[o.id.value];
          o.state == s.(wishlists := Put(s.wishlists, o.id.value, ApplyAlert(w, req)))
          && WishKey(ApplyAlert(w, req)) == WishKey(w))
    ensures o.status in {UNAUTHORIZED, NOT_FOUND, OK}
  {
    if caller.None? then Outcome(UNAUTHORIZED, s, None)
    else
      match First(s.wishlists, PairIs(caller.value, card))
      case None => Outcome(NOT_FOUND, s, None)
      case Some(id) =>
        Outcome(OK, s.(wishlists := Put(s.wishlists, id, ApplyAlert(s.wishlists.rows[id], req))), Some(id))
  }

  method UpdateWishlistItem(db: Store, caller: Option<Id>, card: Id, req: WishRequest) returns (status: nat, id: Option<Id>)
    requires db.Valid()
    modifies db
    ensures Outcome(status, db.Snapshot(), id) == UpdateWishlistOutcome(old(db.Snapshot()), caller, card, req)
    ensures db.Valid()
  {
    if caller.None? {
      return UNAUTHORIZED, None;
    }
    var existing := First(db.wishlists, PairIs(caller.value, card));
    if existing.None? {
      return NOT_FOUND, None;
    }
    db.wishlists := Put(db.wishlists, existing.value, ApplyAlert(db.wishlists.rows[existing.value], req));
    status, id := OK, existing;
  }

  /** `removeFromWishlist`: 404 when the caller has not listed the card; else that row alone is deleted. */
  function RemoveFromWishlistOutcome(s: State, caller: Option<Id>, card: Id): (o: Outcome)
    requires WellFormedState(s)
    ensures o.status != OK ==> o.state == s && o.id.None?
    ensures o.status == UNAUTHORIZED <==> caller.None?
    ensures o.status == NOT_FOUND <==> (caller.Some?
      && forall id :: id in s.wishlists.rows ==> WishKey(s.wishlists.rows[id]) != (caller.value, card))
    ensures o.status == OK ==>
      (o.id.Some? && o.id.value in s.wishlists.rows && WishKey(s.wishlists.rows[o.id.value]) == (caller.value, card)
       && o.state == s.(wishlists := Remove(s.wishlists, o.id.value)))
    ensures o.status in {UNAUTHORIZED, NOT_FOUND, OK}
  {
    if caller.None? then Outcome(UNAUTHORIZED, s, None)
    else
      match First(s.wishlists, PairIs(caller.value, card))
      case None => Outcome(NOT_FOUND, s, None)
      case Some(id) => Outcome(OK, s.(wishlists := Remove(s.wishlists, id)), Some(id))
  }

  method RemoveFromWishlist(db: Store, caller: Option<Id>, card: Id) returns (status: nat, id: Option<Id>)
    requires db.Valid()
    modifies db
    ensures Outcome(status, db.Snapshot(), id) == RemoveFromWishlistOutcome(old(db.Snapshot()), caller, card)
    ensures db.Valid()
  {
    if caller.None? {
      return UNAUTHORIZED, None;
    }
    var existing := First(db.wishlists, PairIs(caller.value, card));
    if existing.None? {
      return NOT_FOUND, None;
    }
    db.wishlists := Remove(db.wishlists, existing.value);
    status, id := OK, existing;
  }

  /** After a removal the pair is no longer listed, so it can be added again. */
  lemma RemoveThenAbsent(s: State, caller: Option<Id>, card: Id)
    requires ValidState(s)
    ensures var o := RemoveFromWishlistOutcome(s, caller, card);
      o.status == OK ==> forall id :: id in o.state.wishlists.rows ==> WishKey(o.state.wishlists.rows[id]) != (caller.value, card)
  {
  }
}
