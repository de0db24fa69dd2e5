/** Pack handlers: the public listing and the admin writes, with the rule that a
    pack still holding cards cannot be deleted. */
module PackController {
  import opened Common
  import opened Strings
  import opened Tables
  import opened Sequences
  import opened Database

  // ---------------------------------------------------------------- getAllPacks

  datatype PackQuery = PackQuery(
    language: Option<string>,
    setType: Option<string>,
    search: Option<string>,
    limit: Option<int>,
    offset: Option<int>)

  predicate PackFiltersValid(q: PackQuery) {
    (!Truthy(q.language) || q.language.value in LANGUAGES)
    && (!Truthy(q.setType) || q.setType.value in SET_TYPES)
  }

  /** The `where` object of `getAllPacks`. */
  function PackMatches(q: PackQuery): Pack -> bool {
    (p: Pack) =>
      (Truthy(q.language) ==> p.language == q.language.value)
      && (Truthy(q.setType) ==> p.setType == q.setType.value)
      && (Truthy(q.search) ==> ContainsInsensitive(p.title, q.search.value) || ContainsInsensitive(p.setCode, q.search.value))
  }

  /** `orderBy: { release_date: 'desc' }`: later dates first, packs without a date
      before all others (the database's default for descending order). Dates are
      ISO text, whose character order is their chronological order. */
  predicate ReleaseLe(a: Pack, b: Pack) {
    a.releaseDate.None? || (b.releaseDate.Some? && StrLe(b.releaseDate.value, a.releaseDate.value))
  }

  lemma ReleaseOrderIsPreorder()
    ensures TotalPreorder(ReleaseLe)
  {
    forall a: Pack, b: Pack | a.releaseDate.Some? && b.releaseDate.Some? ensures ReleaseLe(a, b) || ReleaseLe(b, a) {
      StrLeTotal(a.releaseDate.value, b.releaseDate.value);
    }
    forall a: Pack, b: Pack, c: Pack | ReleaseLe(a, b) && ReleaseLe(b, c) && a.releaseDate.Some?
      ensures ReleaseLe(a, c)
    {
      StrLeTransitive(c.releaseDate.value, b.releaseDate.value, a.releaseDate.value);
    }
  }

  datatype PackPage = PackPage(status: nat, packs: seq<Pack>, total: int, limit: int, offset: int)

  /** `getAllPacks`: the matching packs, latest release first, windowed by offset and
      the clamped limit, with the total number of matches. */
  function GetAllPacks(s: State, q: PackQuery): (r: PackPage)
    requires WellFormedState(s)
    ensures r.status == OK || r.status == SERVER_ERROR
    ensures r.status == SERVER_ERROR <==> !PackFiltersValid(q) || q.offset.GetOr(0) < 0
    ensures r.status == OK ==> r.total == Count(s.packs, PackMatches(q))
    ensures r.status == OK ==> Sorted(r.packs, ReleaseLe)
    ensures r.status == OK ==> forall p :: p in r.packs ==> PackMatches(q)(p)
    ensures r.status == OK && ListTake(q.limit) >= 0 ==>
      |r.packs| == Min(ListTake(q.limit), r.total - Min(q.offset.GetOr(0), r.total))
    ensures r.status == OK ==> r.limit == q.limit.GetOr(50) && r.offset == q.offset.GetOr(0)
    ensures r.status == OK ==>
      (q.offset.GetOr(0) >= 0
       && SortedWindowOf(r.packs, FindMany(s.packs, PackMatches(q)), q.offset.GetOr(0), ListTake(q.limit), ReleaseLe))
  {
    if !PackFiltersValid(q) || q.offset.GetOr(0) < 0 then PackPage(SERVER_ERROR, [], 0, 0, 0)
    else
      var matches := FindMany(s.packs, PackMatches(q));
      ReleaseOrderIsPreorder();
      var ordered := SortBy(matches, ReleaseLe);
      CountSelect(s.packs, PackMatches(q));
      WindowSorted(ordered, q.offset.GetOr(0), ListTake(q.limit), ReleaseLe);
      assert forall p :: p in ordered ==> p in multiset(matches);
      var page := Window(ordered, q.offset.GetOr(0), ListTake(q.limit));
      assert Sorted(ordered, ReleaseLe) && multiset(ordered) == multiset(matches) && page == Window(ordered, q.offset.GetOr(0), ListTake(q.limit));
      PackPage(OK, page, |matches|, q.limit.GetOr(50), q.offset.GetOr(0))
  }

  /** `getPackById`: the pack with its number of cards, or 404. */
  function GetPackById(s: State, id: Id): (r: (nat, Option<(Pack, int)>))
    requires WellFormedState(s)
    ensures r.0 == OK <==> id in s.packs.rows
    ensures r.0 != OK ==> r.0 == NOT_FOUND && r.1.None?
    ensures r.0 == OK ==> r.1 == Some((s.packs.rows[id], |Select(s.cards, InPack(id))|))
  {
    if id !in s.packs.rows then (NOT_FOUND, None)
    else
      CountSelect(s.cards, InPack(id));
      (OK, Some((s.packs.rows[id], CardsIn(s, id))))
  }

  // ---------------------------------------------------------------- createPack

  datatype PackInput = PackInput(
    setCode: Option<string>,
    title: Option<string>,
    language: Option<string>,
    releaseDate: Option<string>,
    setType: Option<string>,
    totalCards: Option<int>)

  predicate ValidPackEnums(p: Pack) {
    p.language in LANGUAGES && p.setType in SET_TYPES
  }

  /** The pack `createPack` writes: language EN, set type BOOSTER and zero cards
      unless given, and no release date unless a truthy one is given. */
  function NewPack(input: PackInput): (p: Pack)
    requires Truthy(input.setCode) && Truthy(input.title)
    ensures p.setCode == input.setCode.value && p.title == input.title.value
    ensures !Truthy(input.language) ==> p.language == "EN"
    ensures !Truthy(input.setType) ==> p.setType == "BOOSTER"
    ensures !TruthyInt(input.totalCards) ==> p.totalCards == 0
    ensures p.releaseDate.Some? <==> Truthy(input.releaseDate)
  {
    Pack(input.setCode.value, input.title.value, OrElse(input.language, "EN"),
      if Truthy(input.releaseDate) then input.releaseDate else None,
      OrElse(input.setType, "BOOSTER"),
      if TruthyInt(input.totalCards) then input.totalCards.value else 0)
  }

  function HasSetCode(code: string): Pack -> bool {
    (p: Pack) => p.setCode == code
  }

  /** `createPack`: 400 without a set code and a title, 409 for a set code in use,
      500 when an enumeration value is refused, else 201 with one new pack. */
  function CreatePackOutcome(s: State, input: PackInput): (o: Outcome)
    requires WellFormedState(s)
    ensures o.status != CREATED ==> o.state == s && o.id.None?
    ensures o.status == BAD_REQUEST <==> !Truthy(input.setCode) || !Truthy(input.title)
    ensures o.status == CONFLICT <==> (Truthy(input.setCode) && Truthy(input.title)
      && exists id :: id in s.packs.rows && s.packs.rows[id].setCode == input.setCode.value)
    ensures o.status == CREATED ==>
      (ValidPackEnums(NewPack(input)) && o.id == Some(s.packs.next)
       && o.state == s.(packs := Insert(s.packs, NewPack(input))))
    ensures o.status == SERVER_ERROR <==> (Truthy(input.setCode) && Truthy(input.title)
      && (forall id :: id in s.packs.rows ==> s.packs.rows[id].setCode != input.setCode.value)
      && !ValidPackEnums(NewPack(input)))
    ensures o.status in {CREATED, BAD_REQUEST, CONFLICT, SERVER_ERROR}
  {
    if !Truthy(input.setCode) || !Truthy(input.title) then Outcome(BAD_REQUEST, s, None)
    else if First(s.packs, HasSetCode(input.setCode.value)).Some? then Outcome(CONFLICT, s, None)
    else if !ValidPackEnums(NewPack(input)) then Outcome(SERVER_ERROR, s, None)
    else Outcome(CREATED, s.(packs := Insert(s.packs, NewPack(input))), Some(s.packs.next))
  }

  method CreatePack(db: Store, input: PackInput) returns (status: nat, id: Option<Id>)
    requires db.Valid()
    modifies db
    ensures Outcome(status, db.Snapshot(), id) == CreatePackOutcome(old(db.Snapshot()), input)
    ensures db.Valid()
  {
    CreatePackKeepsValid(db.Snapshot(), input);
    if !Truthy(input.setCode) || !Truthy(input.title) {
      return BAD_REQUEST, None;
    }
    var existing := First(db.packs, HasSetCode(input.setCode.value));
    if existing.Some? {
      return CONFLICT, None;
    }
    var pack := NewPack(input);
    if !ValidPackEnums(pack) {
      return SERVER_ERROR, None;
    }
    id := Some(db.packs.next);
    db.packs := Insert(db.packs, pack);
    status := CREATED;
  }

  lemma CreatePackKeepsValid(s: State, input: PackInput)
    requires ValidState(s)
    ensures ValidState(CreatePackOutcome(s, input).state)
  {
    if CreatePackOutcome(s, input).status == CREATED {
      InsertWellFormed(s.packs, NewPack(input));
    }
  }

  /** A new pack holds no cards, so counters stay consistent exactly when its
      `total_cards` is left at the default. */
  lemma CreatePackCounters(s: State, input: PackInput)
    requires ValidState(s) && CountersConsistent(s)
    ensures var o := CreatePackOutcome(s, input);
      o.status == CREATED ==> (CountersConsistent(o.state) <==> !TruthyInt(input.totalCards))
  {
    var o := CreatePackOutcome(s, input);
    if o.status == CREATED {
      InsertWellFormed(s.packs, NewPack(input));
      CountSelect(s.cards, InPack(s.packs.next));
      assert CardsIn(o.state, s.packs.next) == 0;
      assert forall p :: p in s.packs.rows ==> o.state.packs.rows[p] == s.packs.rows[p];
    }
  }

  // ---------------------------------------------------------------- updatePack

  /** The update: supplied fields replace the stored ones; a falsy release date leaves it. */
  function ApplyPackInput(p: Pack, input: PackInput): Pack {
    Pack(input.setCode.GetOr(p.setCode), input.title.GetOr(p.title), input.language.GetOr(p.language),
      if Truthy(input.releaseDate) then input.releaseDate else p.releaseDate,
      input.setType.GetOr(p.setType), input.totalCards.GetOr(p.totalCards))
  }

  /** The update changes the set code to one another pack has. */
  predicate SetCodeTaken(s: State, id: Id, input: PackInput)
    requires id in s.packs.rows
  {
    Truthy(input.setCode) && input.setCode.value != s.packs.rows[id].setCode
    && exists other :: other in s.packs.rows && s.packs.rows[other].setCode == input.setCode.value
  }

  /** The database refuses the updated row: an enumeration value outside its type,
      or a set code another pack already has. */
  predicate PackUpdateRefused(s: State, id: Id, input: PackInput)
    requires id in s.packs.rows
  {
    var updated := ApplyPackInput(s.packs.rows[id], input);
    !ValidPackEnums(updated)
    || exists other :: other in s.packs.rows && other != id && s.packs.rows[other].setCode == updated.setCode
  }

  /** Another pack than `id` has set code `code` exactly when the table without `id` has one. */
  lemma SetCodeClash(t: Table<Pack>, id: Id, code: string)
    requires WellFormed(t)
    ensures First(Remove(t, id), HasSetCode(code)).Some?
      <==> exists other :: other in t.rows && other != id && t.rows[other].setCode == code
  {
    var others := Remove(t, id);
    if other :| other in t.rows && other != id && t.rows[other].setCode == code {
      assert other in others.rows && HasSetCode(code)(others.rows[other]);
    }
  }

  /** `updatePack`: 404 for an unknown pack; 409 when a truthy, changed set code is
      in use; 500 when the database refuses the new row (an enumeration value, or
      an empty set code already in use); otherwise the fields are written. */
  function UpdatePackOutcome(s: State, id: Id, input: PackInput): (o: Outcome)
    requires WellFormedState(s)
    ensures o.status != OK ==> o.state == s && o.id.None?
    ensures o.status == NOT_FOUND <==> id !in s.packs.rows
    ensures o.status == CONFLICT <==> id in s.packs.rows && SetCodeTaken(s, id, input)
    ensures o.status == SERVER_ERROR <==>
      id in s.packs.rows && !SetCodeTaken(s, id, input) && PackUpdateRefused(s, id, input)
    ensures o.status in {OK, NOT_FOUND, CONFLICT, SERVER_ERROR}
    ensures o.status == OK ==>
      (id in s.packs.rows && o.id == Some(id) && ValidPackEnums(ApplyPackInput(s.packs.rows[id], input))
       && o.state == s.(packs := Put(s.packs, id, ApplyPackInput(s.packs.rows[id], input))))
    ensures o.status == OK && !Truthy(input.releaseDate) ==>
      o.state.packs.rows[id].releaseDate == s.packs.rows[id].releaseDate
  {
    if id !in s.packs.rows then Outcome(NOT_FOUND, s, None)
    else
      var existing := s.packs.rows[id];
      if Truthy(input.setCode) && input.setCode.value != existing.setCode
         && First(s.packs, HasSetCode(input.setCode.value)).Some? then
        Outcome(CONFLICT, s, None)
      else
        var updated := ApplyPackInput(existing, input);
        SetCodeClash(s.packs, id, updated.setCode);
        if !ValidPackEnums(updated) || First(Remove(s.packs, id), HasSetCode(updated.setCode)).Some? then
          Outcome(SERVER_ERROR, s, None)
        else
          Outcome(OK, s.(packs := Put(s.packs, id, updated)), Some(id))
  }

  method UpdatePack(db: Store, id: Id, input: PackInput) returns (status: nat, updatedId: Option<Id>)
    requires db.Valid()
    modifies db
    ensures Outcome(status, db.Snapshot(), updatedId) == UpdatePackOutcome(old(db.Snapshot()), id, input)
    ensures db.Valid()
  {
    UpdatePackKeepsValid(db.Snapshot(), id, input);
    if id !in db.packs.rows {
      return NOT_FOUND, None;
    }
    var existing := db.packs.rows[id];
    if Truthy(input.setCode) && input.setCode.value != existing.setCode {
      var conflict := First(db.packs, HasSetCode(input.setCode.value));
      if conflict.Some? {
        return CONFLICT, None;
      }
    }
    var updated := ApplyPackInput(existing, input);
    var clash := First(Remove(db.packs, id), HasSetCode(updated.setCode));
    if !ValidPackEnums(updated) || clash.Some? {
      return SERVER_ERROR, None;
    }
    db.packs := Put(db.packs, id, updated);
    status, updatedId := OK, Some(id);
  }

  lemma UpdatePackKeepsValid(s: State, id: Id, input: PackInput)
    requires ValidState(s)
    ensures ValidState(UpdatePackOutcome(s, id, input).state)
  {
    if UpdatePackOutcome(s, id, input).status == OK {
      var others := Remove(s.packs, id);
      assert forall k :: k in others.rows <==> k in s.packs.rows && k != id;
    }
  }

  /** An update that leaves `total_cards` alone keeps every counter consistent. */
  lemma UpdatePackKeepsCounters(s: State, id: Id, input: PackInput)
    requires ValidState(s) && CountersConsistent(s) && input.totalCards.None?
    ensures CountersConsistent(UpdatePackOutcome(s, id, input).state)
  {
  }

  // ---------------------------------------------------------------- deletePack

  /** `deletePack`: 404 for an unknown pack, 400 while it holds a card, else the
      pack alone is deleted. */
  function DeletePackOutcome(s: State, id: Id): (o: Outcome)
    requires WellFormedState(s)
    ensures o.status == NOT_FOUND <==> id !in s.packs.rows
    ensures o.status == BAD_REQUEST <==> (id in s.packs.rows && exists c :: c in s.cards.rows && s.cards.rows[c].packId == id)
    ensures o.status != OK ==> o.state == s
    ensures o.status == OK ==> o.state == s.(packs := Remove(s.packs, id))
    ensures o.status in {OK, NOT_FOUND, BAD_REQUEST}
  {
    if id !in s.packs.rows then Outcome(NOT_FOUND, s, None)
    else
      CountSelect(s.cards, InPack(id));
      if CardsIn(s, id) > 0 then Outcome(BAD_REQUEST, s, None)
      else Outcome(OK, s.(packs := Remove(s.packs, id)), None)
  }

  method DeletePack(db: Store, id: Id) returns (status: nat)
    requires db.Valid()
    modifies db
    ensures Outcome(status, db.Snapshot(), None) == DeletePackOutcome(old(db.Snapshot()), id)
    ensures db.Valid()
  {
    if id !in db.packs.rows {
      return NOT_FOUND;
    }
    var count := Count(db.cards, InPack(id));
    if count > 0 {
      return BAD_REQUEST;
    }
    CountSelect(db.cards, InPack(id));
    db.packs := Remove(db.packs, id);
    status := OK;
  }

  /** Deleting a pack keeps every card's pack stored and every counter consistent. */
  lemma DeletePackKeepsCounters(s: State, id: Id)
    requires ValidState(s) && CountersConsistent(s)
    ensures ValidState(DeletePackOutcome(s, id).state)
    ensures CountersConsistent(DeletePackOutcome(s, id).state)
  {
  }
}
