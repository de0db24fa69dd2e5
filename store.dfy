/** The relational schema as an in-memory store: one table per model, the unique
    constraints and references the handlers rely on, and the derived quantities
    (deck copies, cards per pack) that their rules are stated in. */
module Database {
  import opened Common
  import opened Tables

  datatype User = User(username: string, email: string, passwordHash: string, role: Role, isActive: bool)

  datatype Pack = Pack(
    setCode: string,
    title: string,
    language: string,
    releaseDate: Option<string>,
    setType: string,
    totalCards: int)

  datatype Card = Card(
    cardNumber: string,
    setCode: string,
    setPosition: string,
    name: string,
    cardText: Option<string>,
    language: string,
    cardType: string,
    frameColor: string,
    attribute: Option<string>,
    monsterType: Option<string>,
    monsterAbilities: seq<string>,
    level: Option<int>,
    rarity: string,
    tcgLegal: bool,
    ocgLegal: bool,
    banStatus: string,
    imageUrl: Option<string>,
    imageUrlSmall: Option<string>,
    imageUrlHigh: Option<string>,
    packId: Id)

  datatype Collection = Collection(userId: Id, name: string, description: Option<string>, isPublic: bool)

  datatype CollectionCard = CollectionCard(
    collectionId: Id,
    cardId: Id,
    quantity: int,
    condition: string,
    language: string,
    isFirstEdition: bool,
    purchasePrice: Option<real>,
    purchaseCurrency: Option<string>,
    notes: Option<string>)

  datatype Deck = Deck(userId: Id, name: string, description: Option<string>, format: Option<string>, isPublic: bool)

  datatype DeckCard = DeckCard(deckId: Id, cardId: Id, quantity: int, zone: DeckZone)

  datatype WishlistItem = WishlistItem(
    userId: Id,
    cardId: Id,
    alertEnabled: bool,
    alertThreshold: Option<real>,
    alertSource: Option<string>)

  /** The contents of every table at one moment. */
  datatype State = State(
    users: Table<User>,
    packs: Table<Pack>,
    cards: Table<Card>,
    collections: Table<Collection>,
    collectionCards: Table<CollectionCard>,
    decks: Table<Deck>,
    deckCards: Table<DeckCard>,
    wishlists: Table<WishlistItem>)

  /** A handler's reply status together with the state it leaves behind and the
      id of the row it created, updated or read, when there is one. */
  datatype Outcome = Outcome(status: nat, state: State, id: Option<Id>)

  function EmptyState(): State {
    State(Empty(), Empty(), Empty(), Empty(), Empty(), Empty(), Empty(), Empty())
  }

  // Keys of the unique constraints and merge rules.
  function Username(u: User): string { u.username }
  function Email(u: User): string { u.email }
  function SetCode(p: Pack): string { p.setCode }
  function CardNumber(c: Card): string { c.cardNumber }
  function EntryKey(e: CollectionCard): (Id, Id, string, string, bool) {
    (e.collectionId, e.cardId, e.condition, e.language, e.isFirstEdition)
  }
  function SlotKey(d: DeckCard): (Id, Id, DeckZone) { (d.deckId, d.cardId, d.zone) }
  function WishKey(w: WishlistItem): (Id, Id) { (w.userId, w.cardId) }

  predicate WellFormedState(s: State) {
    WellFormed(s.users) && WellFormed(s.packs) && WellFormed(s.cards) && WellFormed(s.collections)
    && WellFormed(s.collectionCards) && WellFormed(s.decks) && WellFormed(s.deckCards)
    && WellFormed(s.wishlists)
  }

  /** Every card belongs to a stored pack (the card-to-pack foreign key). */
  predicate CardsInPacks(s: State) {
    forall id :: id in s.cards.rows ==> s.cards.rows[id].packId in s.packs.rows
  }

  /** The invariant every handler keeps: the schema's unique constraints on
      username, email, set_code and card_number, the merge keys of collection
      entries, deck slots and wishlist pairs, and the card-to-pack reference. */
  predicate ValidState(s: State) {
    WellFormedState(s)
    && Unique(s.users, Username) && Unique(s.users, Email)
    && Unique(s.packs, SetCode) && Unique(s.cards, CardNumber)
    && Unique(s.collectionCards, EntryKey) && Unique(s.deckCards, SlotKey)
    && Unique(s.wishlists, WishKey)
    && CardsInPacks(s)
  }

  /** Weight of a deck row towards the copies of `card` in `deck`. */
  function CopyWeight(deck: Id, card: Id): DeckCard -> int {
    (r: DeckCard) => if r.deckId == deck && r.cardId == card then r.quantity else 0
  }

  /** Copies of `card` in `deck`, summed over all zones. */
  function Copies(s: State, deck: Id, card: Id): int {
    Sum(s.deckCards, CopyWeight(deck, card))
  }

  /** No deck holds more than three copies of a card. */
  ghost predicate DeckLimit(s: State) {
    forall deck, card :: Copies(s, deck, card) <= 3
  }

  /** No deck row holds a negative quantity. */
  predicate NonNegativeDeckRows(s: State) {
    forall id :: id in s.deckCards.rows ==> s.deckCards.rows[id].quantity >= 0
  }

  function InPack(pack: Id): Card -> bool {
    (c: Card) => c.packId == pack
  }

  /** Number of cards stored in `pack`. */
  function CardsIn(s: State, pack: Id): int {
    Count(s.cards, InPack(pack))
  }

  /** Every pack's `total_cards` equals the number of its cards. */
  predicate CountersConsistent(s: State) {
    forall pack :: pack in s.packs.rows ==> s.packs.rows[pack].totalCards == CardsIn(s, pack)
  }

  lemma EmptyStateValid()
    ensures ValidState(EmptyState()) && DeckLimit(EmptyState()) && CountersConsistent(EmptyState())
  {
    forall deck, card ensures Copies(EmptyState(), deck, card) <= 3 {
      SumZero(EmptyState().deckCards, CopyWeight(deck, card));
    }
  }

  /** The store the server talks to: one mutable table per model. */
  class Store {
    var users: Table<User>
    var packs: Table<Pack>
    var cards: Table<Card>
    var collections: Table<Collection>
    var collectionCards: Table<CollectionCard>
    var decks: Table<Deck>
    var deckCards: Table<DeckCard>
    var wishlists: Table<WishlistItem>

    function Snapshot(): State
      reads this
    {
      State(users, packs, cards, collections, collectionCards, decks, deckCards, wishlists)
    }

    ghost predicate Valid()
      reads this
    {
      ValidState(Snapshot())
    }

    constructor()
      ensures Snapshot() == EmptyState()
      ensures Valid()
    {
      users := Empty();
      packs := Empty();
      cards := Empty();
      collections := Empty();
      collectionCards := Empty();
      decks := Empty();
      deckCards := Empty();
      wishlists := Empty();
      EmptyStateValid();
    }
  }
}
