/** The cleanup script: every pack other than OP13 is deleted together with its
    cards, then every card outside the OP13 pack, and the cards left are counted. */
module Cleanup {
  import opened Common
  import opened Tables
  import opened Database

  const KEPT_SET: string := "OP13"

  function NotKept(p: Pack): bool { p.setCode != KEPT_SET }

  function IsKept(p: Pack): bool { p.setCode == KEPT_SET }

  /** A card whose pack (in `packs`) is the OP13 pack. */
  function KeptCard(packs: Table<Pack>): Card -> bool {
    (c: Card) => c.packId in packs.rows && packs.rows[c.packId].setCode == KEPT_SET
  }

  function NotInPack(pack: Id): Card -> bool {
    (c: Card) => c.packId != pack
  }

  /** The script's `main`. */
  method CleanUp(db: Store) returns (remaining: int)
    requires db.Valid()
    modifies db
    ensures db.packs == RemoveWhere(old(db.packs), NotKept)
    ensures db.cards == RemoveWhere(old(db.cards), (c: Card) => !KeptCard(old(db.packs))(c))
    ensures db.Snapshot() == old(db.Snapshot()).(packs := db.packs, cards := db.cards)
    ensures remaining == Count(old(db.cards), KeptCard(old(db.packs)))
    ensures db.Valid()
  {
    var c0, p0 := db.cards, db.packs;
    var doomed := Select(db.packs, NotKept);
    DeleteCardsOf(db, doomed);
    DeletePacks(db, doomed);
    PacksLeft(p0, db.packs, doomed);
    // Then every card outside the OP13 pack.
    var kept := First(db.packs, IsKept);
    if kept.Some? {
      db.cards := RemoveWhere(db.cards, NotInPack(kept.value));
    }
    CardsLeft(p0, db.packs, c0, db.cards, doomed, kept);
    remaining := Count(db.cards, KeptCard(db.packs));
    RemainingCount(p0, db.packs, c0, db.cards);
    KeptValid(old(db.Snapshot()), db.Snapshot());
  }

  /** The first loop: delete the cards of every pack in `doomed`. */
  method DeleteCardsOf(db: Store, doomed: seq<Id>)
    modifies db
    ensures db.Snapshot() == old(db.Snapshot()).(cards := db.cards)
    ensures db.cards.next == old(db.cards.next)
    ensures forall id :: id in db.cards.rows <==> id in old(db.cards.rows) && old(db.cards.rows[id]).packId !in doomed
    ensures forall id :: id in db.cards.rows ==> db.cards.rows[id] == old(db.cards.rows[id])
  {
    var i := 0;
    while i < |doomed|
      invariant 0 <= i <= |doomed|
      invariant db.Snapshot() == old(db.Snapshot()).(cards := db.cards)
      invariant db.cards.next == old(db.cards.next)
      invariant forall id :: id in db.cards.rows <==> id in old(db.cards.rows) && old(db.cards.rows[id]).packId !in doomed[..i]
      invariant forall id :: id in db.cards.rows ==> db.cards.rows[id] == old(db.cards.rows[id])
    {
      assert doomed[..i + 1] == doomed[..i] + [doomed[i]];
      db.cards := RemoveWhere(db.cards, InPack(doomed[i]));
      i := i + 1;
    }
    assert doomed[..i] == doomed;
  }

  /** The second loop: delete every pack in `doomed`. */
  method DeletePacks(db: Store, doomed: seq<Id>)
    modifies db
    ensures db.Snapshot() == old(db.Snapshot()).(packs := db.packs)
    ensures db.packs.next == old(db.packs.next)
    ensures forall id :: id in db.packs.rows <==> id in old(db.packs.rows) && id !in doomed
    ensures forall id :: id in db.packs.rows ==> db.packs.rows[id] == old(db.packs.rows[id])
  {
    var j := 0;
    while j < |doomed|
      invariant 0 <= j <= |doomed|
      invariant db.Snapshot() == old(db.Snapshot()).(packs := db.packs)
      invariant db.packs.next == old(db.packs.next)
      invariant forall id :: id in db.packs.rows <==> id in old(db.packs.rows) && id !in doomed[..j]
      invariant forall id :: id in db.packs.rows ==> db.packs.rows[id] == old(db.packs.rows[id])
    {
      assert doomed[..j + 1] == doomed[..j] + [doomed[j]];
      db.packs := Remove(db.packs, doomed[j]);
      j := j + 1;
    }
    assert doomed[..j] == doomed;
  }

  /** Deleting the non-OP13 packs and the cards outside the OP13 pack keeps the store valid. */
  lemma KeptValid(s0: State, s1: State)
    requires ValidState(s0)
    requires s1 == s0.(packs := RemoveWhere(s0.packs, NotKept),
                       cards := RemoveWhere(s0.cards, (c: Card) => !KeptCard(s0.packs)(c)))
    ensures ValidState(s1)
  {
    assert WellFormedState(s1);
    assert Unique(s1.packs, SetCode);
    assert Unique(s1.cards, CardNumber);
    forall id | id in s1.cards.rows
      ensures s1.cards.rows[id].packId in s1.packs.rows
    {
      assert KeptCard(s0.packs)(s0.cards.rows[id]);
    }
  }

  /** After the pack loop, the packs left are exactly the OP13 packs. */
  lemma PacksLeft(p0: Table<Pack>, p1: Table<Pack>, doomed: seq<Id>)
    requires WellFormed(p0)
    requires doomed == Select(p0, NotKept)
    requires p1.next == p0.next
    requires forall id :: id in p1.rows <==> id in p0.rows && id !in doomed
    requires forall id :: id in p1.rows ==> p1.rows[id] == p0.rows[id]
    ensures p1 == RemoveWhere(p0, NotKept)
  {
    assert p1.rows == KeepRows(p0.rows, NotKept);
  }

  /** After the last deletion, the cards left are exactly those of the OP13 pack. */
  lemma CardsLeft(p0: Table<Pack>, p1: Table<Pack>, c0: Table<Card>, c1: Table<Card>, doomed: seq<Id>, kept: Option<Id>)
    requires WellFormed(p0) && Unique(p0, SetCode)
    requires forall id :: id in c0.rows ==> c0.rows[id].packId in p0.rows
    requires doomed == Select(p0, NotKept) && p1 == RemoveWhere(p0, NotKept)
    requires WellFormed(p1) && kept == First(p1, IsKept)
    requires c1.next == c0.next
    requires forall id :: id in c1.rows <==>
      (id in c0.rows && c0.rows[id].packId !in doomed && (kept.Some? ==> c0.rows[id].packId == kept.value))
    requires forall id :: id in c1.rows ==> c1.rows[id] == c0.rows[id]
    ensures c1 == RemoveWhere(c0, (c: Card) => !KeptCard(p0)(c))
  {
    forall id | id in c0.rows
      ensures (id in c1.rows) <==> KeptCard(p0)(c0.rows[id])
    {
      var pack := c0.rows[id].packId;
      if KeptCard(p0)(c0.rows[id]) {
        assert pack !in doomed;
        if kept.Some? {
          assert p0.rows[kept.value].setCode == KEPT_SET;
        }
      }
    }
    assert c1.rows == KeepRows(c0.rows, (c: Card) => !KeptCard(p0)(c));
  }

  /** Counting OP13 cards at the end gives the number of OP13 cards at the start. */
  lemma RemainingCount(p0: Table<Pack>, p1: Table<Pack>, c0: Table<Card>, c1: Table<Card>)
    requires p1 == RemoveWhere(p0, NotKept)
    requires c1 == RemoveWhere(c0, (c: Card) => !KeptCard(p0)(c))
    ensures Count(c1, KeptCard(p1)) == Count(c0, KeptCard(p0))
  {
    SumRemoveWhere(c0, (c: Card) => !KeptCard(p0)(c), Indicator(KeptCard(p0)));
    SumBelowSameWeights(c1.rows, Indicator(KeptCard(p1)), Indicator(KeptCard(p0)), c1.next);
  }

  /** The OP13 pack and its cards survive; no other pack and no other card does. */
  lemma OnlyKeptSurvive(s: State, id: Id)
    requires ValidState(s)
    ensures id in RemoveWhere(s.packs, NotKept).rows <==> id in s.packs.rows && s.packs.rows[id].setCode == KEPT_SET
    ensures id in RemoveWhere(s.cards, (c: Card) => !KeptCard(s.packs)(c)).rows
      <==> id in s.cards.rows && s.packs.rows[s.cards.rows[id].packId].setCode == KEPT_SET
  {
    var p := (c: Card) => !KeptCard(s.packs)(c);
    var kept := KeepRows(s.cards.rows, p);
    assert RemoveWhere(s.cards, p).rows == kept;
    if id in s.cards.rows {
      var card := s.cards.rows[id];
      assert card.packId in s.packs.rows;
      assert id in kept <==> !p(card);
      assert KeptCard(s.packs)(card) <==> s.packs.rows[card.packId].setCode == KEPT_SET;
    }
  }
}
