/** Administration handlers: the dashboard, the user listing and the changes an
    administrator makes to other accounts. `caller` is `req.user?.id`. */
module AdminController {
  import opened Common
  import opened Strings
  import opened Tables
  import opened Sequences
  import opened Database
  import CollectionController

  function AnyRow<T>(): T -> bool { (x: T) => true }

  /** Newer ids first (creation time, descending). */
  predicate Later(a: Id, b: Id) { a > b }

  /** The `n` most recently created ids of a table, newest first. */
  function Latest<T>(t: Table<T>, n: nat): (r: seq<Id>)
    requires WellFormed(t)
    ensures |r| == Min(n, |Select(t, AnyRow())|)
    ensures Sorted(r, Later)
    ensures forall id :: id in r ==> id in t.rows
  {
    var all := Select(t, AnyRow());
    Prefix(Reverse(all), n)
  }

  /** Every row left out of `Latest` is older than every row in it. */
  lemma LatestAreNewest<T>(t: Table<T>, n: nat, id: Id)
    requires WellFormed(t) && id in t.rows
    ensures id !in Latest(t, n) ==> forall k :: 0 <= k < |Latest(t, n)| ==> id < Latest(t, n)[k]
  {
    var all := Select(t, AnyRow());
    assert AnyRow<T>()(t.rows[id]);
    var j :| 0 <= j < |all| && all[j] == id;
    if id !in Latest(t, n) {
      NewestPrefix(all, n, j);
    }
  }

  /** In increasing ids read backwards, an id outside the first `n` is below all of them. */
  lemma NewestPrefix(all: seq<Id>, n: nat, j: int)
    requires Increasing(all) && 0 <= j < |all| && all[j] !in Prefix(Reverse(all), n)
    ensures forall k :: 0 <= k < |Prefix(Reverse(all), n)| ==> all[j] < Prefix(Reverse(all), n)[k]
  {
    var rev := Reverse(all);
    var r := Prefix(rev, n);
    var pos := |all| - 1 - j;
    assert rev[pos] == all[j];
    assert |r| <= pos;
    forall k | 0 <= k < |r| ensures all[j] < r[k] {
      assert r[k] == all[|all| - 1 - k];
    }
  }

  datatype Stats = Stats(users: int, packs: int, cards: int, collections: int, decks: int)

  /** `getDashboard`: the number of rows of five tables and the five newest users and packs. */
  function GetDashboard(s: State): (r: (Stats, seq<Id>, seq<Id>))
    requires WellFormedState(s)
    ensures r.0 == Stats(|Select(s.users, AnyRow())|, |Select(s.packs, AnyRow())|, |Select(s.cards, AnyRow())|,
      |Select(s.collections, AnyRow())|, |Select(s.decks, AnyRow())|)
    ensures r.1 == Latest(s.users, 5) && r.2 == Latest(s.packs, 5)
    ensures |r.1| <= 5 && |r.2| <= 5
  {
    CountSelect(s.users, AnyRow());
    CountSelect(s.packs, AnyRow());
    CountSelect(s.cards, AnyRow());
    CountSelect(s.collections, AnyRow());
    CountSelect(s.decks, AnyRow());
    (Stats(Count(s.users, AnyRow()), Count(s.packs, AnyRow()), Count(s.cards, AnyRow()),
           Count(s.collections, AnyRow()), Count(s.decks, AnyRow())),
     Latest(s.users, 5), Latest(s.packs, 5))
  }

  // ---------------------------------------------------------------- getAllUsers

  datatype UserQuery = UserQuery(search: Option<string>, role: Option<string>, limit: Option<int>, offset: Option<int>)

  /** The `where` object of `getAllUsers`; a role outside the enumeration matches nothing
      because the query is refused before it runs. */
  function UserMatches(q: UserQuery): User -> bool {
    (u: User) =>
      (Truthy(q.search) ==> ContainsInsensitive(u.username, q.search.value) || ContainsInsensitive(u.email, q.search.value))
      && (Truthy(q.role) ==> RoleName(u.role) == q.role.value)
  }

  /** One listed account: no password hash, with its numbers of collections and decks. */
  datatype UserRow = UserRow(id: Id, username: string, email: string, role: Role, isActive: bool, collections: int, decks: int)

  function CollectionOf(user: Id): Collection -> bool { (c: Collection) => c.userId == user }
  function DeckOf(user: Id): Deck -> bool { (d: Deck) => d.userId == user }

  function Summary(s: State, id: Id): (r: UserRow)
    requires WellFormedState(s) && id in s.users.rows
    ensures r.id == id && r.username == s.users.rows[id].username && r.email == s.users.rows[id].email
    ensures r.role == s.users.rows[id].role && r.isActive == s.users.rows[id].isActive
    ensures r.collections == |Select(s.collections, CollectionOf(id))| && r.decks == |Select(s.decks, DeckOf(id))|
  {
    var u := s.users.rows[id];
    CountSelect(s.collections, CollectionOf(id));
    CountSelect(s.decks, DeckOf(id));
    UserRow(id, u.username, u.email, u.role, u.isActive, Count(s.collections, CollectionOf(id)), Count(s.decks, DeckOf(id)))
  }

  /** The listed rows of the given accounts, in the same order. */
  function Summaries(s: State, ids: seq<Id>): (r: seq<UserRow>)
    requires WellFormedState(s) && forall k :: 0 <= k < |ids| ==> ids[k] in s.users.rows
    ensures |r| == |ids|
    ensures forall k :: 0 <= k < |r| ==> r[k] == Summary(s, ids[k])
  {
    seq(|ids|, k requires 0 <= k < |ids| => Summary(s, ids[k]))
  }

  /** The account ids of listed rows, in order. */
  function RowIds(rows: seq<UserRow>): (r: seq<Id>)
    ensures |r| == |rows| && forall k :: 0 <= k < |r| ==> r[k] == rows[k].id
  {
    seq(|rows|, k requires 0 <= k < |rows| => rows[k].id)
  }

  /** The matching ids, newest first. */
  function NewestFirst(t: Table<User>, p: User -> bool): (r: seq<Id>)
    requires WellFormed(t)
    ensures |r| == Count(t, p)
    ensures Sorted(r, Later)
    ensures forall k :: 0 <= k < |r| ==> r[k] in t.rows && p(t.rows[r[k]])
  {
    CountSelect(t, p);
    Reverse(Select(t, p))
  }

  /** `getAllUsers`: 500 for a role outside the enumeration or a negative offset;
      otherwise the matching accounts, newest first, windowed by the offset and the
      limit clamped to 100, with the total number of matches. */
  function GetAllUsers(s: State, q: UserQuery): (r: (nat, seq<UserRow>, int))
    requires WellFormedState(s)
    ensures r.0 == OK || r.0 == SERVER_ERROR
    ensures r.0 == SERVER_ERROR <==> (Truthy(q.role) && ParseRole(q.role.value).None?) || q.offset.GetOr(0) < 0
    ensures r.0 == OK ==> r.2 == Count(s.users, UserMatches(q))
    ensures r.0 == OK ==> forall k :: 0 <= k < |r.1| ==>
      r.1[k].id in s.users.rows && UserMatches(q)(s.users.rows[r.1[k].id]) && r.1[k] == Summary(s, r.1[k].id)
    ensures r.0 == OK ==> forall i, j :: 0 <= i < j < |r.1| ==> r.1[i].id > r.1[j].id
    ensures r.0 == OK && ListTake(q.limit) >= 0 ==> |r.1| == Min(ListTake(q.limit), r.2 - Min(q.offset.GetOr(0), r.2))
    ensures r.0 == OK ==>
      (q.offset.GetOr(0) >= 0
       && SortedWindowOf(RowIds(r.1), Select(s.users, UserMatches(q)), q.offset.GetOr(0), ListTake(q.limit), Later))
  {
    if (Truthy(q.role) && ParseRole(q.role.value).None?) || q.offset.GetOr(0) < 0 then (SERVER_ERROR, [], 0)
    else
      var ids := NewestFirst(s.users, UserMatches(q));
      var page := Window(ids, q.offset.GetOr(0), ListTake(q.limit));
      WindowSorted(ids, q.offset.GetOr(0), ListTake(q.limit), Later);
      var rows := Summaries(s, page);
      assert RowIds(rows) == page;
      assert Sorted(ids, Later) && multiset(ids) == multiset(Select(s.users, UserMatches(q)))
        && RowIds(rows) == Window(ids, q.offset.GetOr(0), ListTake(q.limit));
      (OK, rows, |ids|)
  }

  // ---------------------------------------------------------------- updateUserRole

  /** `updateUserRole`: 400 unless the role is ADMIN or USER, 400 for the caller's
      own account, 404 for an unknown account; otherwise only that account's role changes. */
  function UpdateUserRoleOutcome(s: State, caller: Option<Id>, id: Id, role: Option<string>): (o: Outcome)
    requires WellFormedState(s)
    ensures o.status != OK ==> o.state == s && o.id.None?
    ensures o.status == BAD_REQUEST <==> (!Truthy(role) || ParseRole(role.value).None? || caller == Some(id))
    ensures o.status == NOT_FOUND <==> (Truthy(role) && ParseRole(role.value).Some? && caller != Some(id) && id !in s.users.rows)
    ensures o.status == OK ==>
      (id in s.users.rows && o.id == Some(id)
       && o.state == s.(users := Put(s.users, id, s.users.rows[id].(role := ParseRole(role.value).value)))
       && RoleName(o.state.users.rows[id].role) == role.value)
    ensures o.status in {OK, BAD_REQUEST, NOT_FOUND}
  {
    if !Truthy(role) || ParseRole(role.value).None? then Outcome(BAD_REQUEST, s, None)
    else if caller == Some(id) then Outcome(BAD_REQUEST, s, None)
    else if id !in s.users.rows then Outcome(NOT_FOUND, s, None)
    else Outcome(OK, s.(users := Put(s.users, id, s.users.rows[id].(role := ParseRole(role.value).value))), Some(id))
  }

  method UpdateUserRole(db: Store, caller: Option<Id>, id: Id, role: Option<string>) returns (status: nat)
    requires db.Valid()
    modifies db
    ensures Outcome(status, db.Snapshot(), if status == OK then Some(id) else None)
      == UpdateUserRoleOutcome(old(db.Snapshot()), caller, id, role)
    ensures db.Valid()
  {
    UpdateUserRoleKeepsValid(db.Snapshot(), caller, id, role);
    if role.None? || role.value == "" {
      return BAD_REQUEST;
    }
    var parsed := ParseRole(role.value);
    if parsed.None? {
      return BAD_REQUEST;
    }
    if caller == Some(id) {
      return BAD_REQUEST;
    }
    if id !in db.users.rows {
      return NOT_FOUND;
    }
    db.users := Put(db.users, id, db.users.rows[id].(role := parsed.value));
    status := OK;
  }

  /** A role change keeps usernames and emails unique. */
  lemma UpdateUserRoleKeepsValid(s: State, caller: Option<Id>, id: Id, role: Option<string>)
    requires ValidState(s)
    ensures ValidState(UpdateUserRoleOutcome(s, caller, id, role).state)
  {
  }

  /** An administrator cannot change their own role, so cannot demote themself. */
  lemma OwnRoleUnchanged(s: State, caller: Id, id: Id, role: Option<string>)
    requires ValidState(s) && caller in s.users.rows
    ensures var o := UpdateUserRoleOutcome(s, Some(caller), id, role);
      caller in o.state.users.rows && o.state.users.rows[caller].role == s.users.rows[caller].role
  {
  }

  // ---------------------------------------------------------------- updateUserStatus

  /** `updateUserStatus`: 400 unless `is_active` is a boolean (None otherwise), 400
      when the caller would deactivate their own account, 404 for an unknown
      account; otherwise only that account's `is_active` changes. */
  function UpdateUserStatusOutcome(s: State, caller: Option<Id>, id: Id, isActive: Option<bool>): (o: Outcome)
    requires WellFormedState(s)
    ensures o.status != OK ==> o.state == s && o.id.None?
    ensures o.status == BAD_REQUEST <==> (isActive.None? || (caller == Some(id) && !isActive.value))
    ensures o.status == NOT_FOUND <==> (isActive.Some? && !(caller == Some(id) && !isActive.value) && id !in s.users.rows)
    ensures o.status == OK ==>
      (id in s.users.rows && o.id == Some(id)
       && o.state == s.(users := Put(s.users, id, s.users.rows[id].(isActive := isActive.value))))
    ensures o.status in {OK, BAD_REQUEST, NOT_FOUND}
  {
    if isActive.None? then Outcome(BAD_REQUEST, s, None)
    else if caller == Some(id) && !isActive.value then Outcome(BAD_REQUEST, s, None)
    else if id !in s.users.rows then Outcome(NOT_FOUND, s, None)
    else Outcome(OK, s.(users := Put(s.users, id, s.users.rows[id].(isActive := isActive.value))), Some(id))
  }

  method UpdateUserStatus(db: Store, caller: Option<Id>, id: Id, isActive: Option<bool>) returns (status: nat)
    requires db.Valid()
    modifies db
    ensures Outcome(status, db.Snapshot(), if status == OK then Some(id) else None)
      == UpdateUserStatusOutcome(old(db.Snapshot()), caller, id, isActive)
    ensures db.Valid()
  {
    if isActive.None? {
      return BAD_REQUEST;
    }
    if caller == Some(id) && !isActive.value {
      return BAD_REQUEST;
    }
    if id !in db.users.rows {
      return NOT_FOUND;
    }
    db.users := Put(db.users, id, db.users.rows[id].(isActive := isActive.value));
    status := OK;
  }

  /** An administrator's own account stays active through any status change. */
  lemma OwnAccountStaysActive(s: State, caller: Id, id: Id, isActive: Option<bool>)
    requires ValidState(s) && caller in s.users.rows && s.users.rows[caller].isActive
    ensures var o := UpdateUserStatusOutcome(s, Some(caller), id, isActive);
      caller in o.state.users.rows && o.state.users.rows[caller].isActive
  {
  }

  // ---------------------------------------------------------------- deleteUser

  /** The user's own wishlist rows. */
  function WishOf(user: Id): WishlistItem -> bool {
    (w: WishlistItem) => w.userId == user
  }

  /** Entries of one of the user's collections in `colls`. */
  function EntryUnder(colls: Table<Collection>, user: Id): CollectionCard -> bool {
    (e: CollectionCard) => e.collectionId in colls.rows && colls.rows[e.collectionId].userId == user
  }

  /** Rows of one of the user's decks in `decks`. */
  function SlotUnder(decks: Table<Deck>, user: Id): DeckCard -> bool {
    (d: DeckCard) => d.deckId in decks.rows && decks.rows[d.deckId].userId == user
  }

  /** `after` is `before` with some rows deleted: the survivors are unchanged and
      the id counter is kept. */
  predicate RowsKept<T(==)>(after: Table<T>, before: Table<T>) {
    after.next == before.next && forall id :: id in after.rows ==> id in before.rows && after.rows[id] == before.rows[id]
  }

  /** `deleteUser`: 400 for the caller's own account, 404 for an unknown one;
      otherwise that account's row is deleted, and the schema's cascades delete
      the user's collections with their entries, the user's decks with their
      rows, and the user's wishlist rows. */
  function DeleteUserOutcome(s: State, caller: Option<Id>, id: Id): (o: Outcome)
    requires WellFormedState(s)
    ensures o.status != OK ==> o.state == s && o.id.None?
    ensures o.status == BAD_REQUEST <==> caller == Some(id)
    ensures o.status == NOT_FOUND <==> caller != Some(id) && id !in s.users.rows
    ensures o.status in {OK, BAD_REQUEST, NOT_FOUND}
    ensures o.status == OK ==>
      (id in s.users.rows && o.id == Some(id)
       && o.state.users == Remove(s.users, id) && o.state.packs == s.packs && o.state.cards == s.cards)
    ensures o.status == OK ==>
      (RowsKept(o.state.collections, s.collections) && RowsKept(o.state.collectionCards, s.collectionCards)
       && RowsKept(o.state.decks, s.decks) && RowsKept(o.state.deckCards, s.deckCards)
       && RowsKept(o.state.wishlists, s.wishlists))
    ensures o.status == OK ==> forall c :: c in o.state.collections.rows <==>
      c in s.collections.rows && s.collections.rows[c].userId != id
    ensures o.status == OK ==> forall e :: e in o.state.collectionCards.rows <==>
      e in s.collectionCards.rows && !EntryUnder(s.collections, id)(s.collectionCards.rows[e])
    ensures o.status == OK ==> forall d :: d in o.state.decks.rows <==>
      d in s.decks.rows && s.decks.rows[d].userId != id
    ensures o.status == OK ==> forall r :: r in o.state.deckCards.rows <==>
      r in s.deckCards.rows && !SlotUnder(s.decks, id)(s.deckCards.rows[r])
    ensures o.status == OK ==> forall w :: w in o.state.wishlists.rows <==>
      w in s.wishlists.rows && s.wishlists.rows[w].userId != id
  {
    if caller == Some(id) then Outcome(BAD_REQUEST, s, None)
    else if id !in s.users.rows then Outcome(NOT_FOUND, s, None)
    else Outcome(OK, Cascade(s, id), Some(id))
  }

  /** The state after the user's row and everything cascading from it are deleted. */
  function Cascade(s: State, id: Id): State {
    s.(users := Remove(s.users, id),
       collections := RemoveWhere(s.collections, CollectionOf(id)),
       collectionCards := RemoveWhere(s.collectionCards, EntryUnder(s.collections, id)),
       decks := RemoveWhere(s.decks, DeckOf(id)),
       deckCards := RemoveWhere(s.deckCards, SlotUnder(s.decks, id)),
       wishlists := RemoveWhere(s.wishlists, WishOf(id)))
  }

  method DeleteUser(db: Store, caller: Option<Id>, id: Id) returns (status: nat)
    requires db.Valid()
    modifies db
    ensures Outcome(status, db.Snapshot(), if status == OK then Some(id) else None)
      == DeleteUserOutcome(old(db.Snapshot()), caller, id)
    ensures db.Valid()
  {
    if caller == Some(id) {
      return BAD_REQUEST;
    }
    if id !in db.users.rows {
      return NOT_FOUND;
    }
    db.collectionCards := RemoveWhere(db.collectionCards, EntryUnder(db.collections, id));
    db.collections := RemoveWhere(db.collections, CollectionOf(id));
    db.deckCards := RemoveWhere(db.deckCards, SlotUnder(db.decks, id));
    db.decks := RemoveWhere(db.decks, DeckOf(id));
    db.wishlists := RemoveWhere(db.wishlists, WishOf(id));
    db.users := Remove(db.users, id);
    status := OK;
  }

  /** After a user is deleted none of their collections can be read any more, by
      anyone: the public ones included, which were readable before. */
  lemma DeletedUsersCollectionsUnreadable(s: State, caller: Option<Id>, id: Id, reader: Option<Id>, coll: Id)
    requires WellFormedState(s)
    requires coll in s.collections.rows && s.collections.rows[coll].userId == id
    ensures var o := DeleteUserOutcome(s, caller, id);
      o.status == OK ==> WellFormedState(o.state) && CollectionController.GetCollectionById(o.state, reader, coll).0 != OK
  {
  }

  /** Whatever an administrator does through these handlers, their own account
      survives, keeps its role and stays active. */
  lemma AdministratorKeepsOwnAccount(s: State, caller: Id, id: Id, role: Option<string>, isActive: Option<bool>)
    requires ValidState(s) && caller in s.users.rows && s.users.rows[caller].isActive
    ensures caller in DeleteUserOutcome(s, Some(caller), id).state.users.rows
    ensures var o := UpdateUserRoleOutcome(s, Some(caller), id, role);
      caller in o.state.users.rows && o.state.users.rows[caller].role == s.users.rows[caller].role
    ensures var o := UpdateUserStatusOutcome(s, Some(caller), id, isActive);
      caller in o.state.users.rows && o.state.users.rows[caller].isActive
  {
    OwnRoleUnchanged(s, caller, id, role);
    OwnAccountStaysActive(s, caller, id, isActive);
  }
}
