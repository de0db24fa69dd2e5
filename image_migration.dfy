/** The image migration script: cards whose image URLs point at the third-party
    CDN are re-hosted, batch by batch, and their URLs rewritten to the public URL
    of the uploaded copy. The download and the upload are one oracle: given the
    source URL and the remote path it yields the public URL, or fails. */
module ImageMigration {
  import opened Common
  import opened Strings
  import opened Sequences
  import opened Tables
  import opened Database

  const THIRD_PARTY_HOST: string := "limitlesstcg.nyc3.cdn.digitaloceanspaces.com"
  const BATCH_SIZE: nat := 5

  /** `isThirdPartyUrl`: a present URL naming the CDN host. An absent or empty URL
      is not third-party (an empty URL cannot name the host). */
  function IsThirdPartyUrl(url: Option<string>): (r: bool)
    ensures r <==> url.Some? && Occurs(url.value, THIRD_PARTY_HOST)
  {
    if !Truthy(url) then
      assert url.Some? ==> !OccursAt(url.value, THIRD_PARTY_HOST, 0);
      false
    else Contains(url.value, THIRD_PARTY_HOST)
  }

  datatype ImageSize = Standard | Small | High

  function FileSuffix(size: ImageSize): string {
    match size
    case Standard => "_JP.webp"
    case Small => "_JP_small.webp"
    case High => "_JP_high.webp"
  }

  /** `getImagePath`: the text before the first '-' as folder, then the file named
      after the card number and the size. */
  function GetImagePath(cardNumber: string, size: ImageSize): (r: string)
    ensures var folder := FirstSegment(cardNumber, '-');
      r == folder + "/" + cardNumber + FileSuffix(size)
      && '-' !in folder && cardNumber[..|folder|] == folder
  {
    FirstSegmentIsPrefix(cardNumber, '-');
    FirstSegment(cardNumber, '-') + "/" + cardNumber + FileSuffix(size)
  }

  /** The character just before ".webp" tells the sizes apart. */
  lemma SizeMarker(x: string, size: ImageSize)
    ensures var s := x + FileSuffix(size);
      |s| >= 6 && s[|s| - 6] == (match size case Standard => 'P' case Small => 'l' case High => 'h')
  {
  }

  /** A folder without '/' is recovered from "folder/rest". */
  lemma FolderSplit(f: string, r: string, g: string, q: string)
    requires '/' !in f && '/' !in g
    requires f + "/" + r == g + "/" + q
    ensures f == g && r == q
  {
    var p := f + "/" + r;
    assert p[|f|] == '/' && p[|g|] == '/';
    assert |f| == |g|;
    assert f == p[..|f|] == g;
    assert r == p[|f| + 1..] == q;
  }

  /** The file name determines the card number and the size. */
  lemma SuffixSplit(a: string, b: string, sa: ImageSize, sb: ImageSize)
    requires a + FileSuffix(sa) == b + FileSuffix(sb)
    ensures a == b && sa == sb
  {
    SizeMarker(a, sa);
    SizeMarker(b, sb);
    assert sa == sb;
    var p := a + FileSuffix(sa);
    assert a == p[..|a|] && b == p[..|b|];
  }

  /** A character absent from a string is absent from each of its prefixes. */
  lemma AbsentFromPrefix(s: string, n: int, c: char)
    requires 0 <= n <= |s| && c !in s
    ensures c !in s[..n]
  {
    assert forall k :: 0 <= k < n ==> s[..n][k] == s[k];
  }

  /** The path is the folder, '/', and the file name. */
  lemma PathParts(cardNumber: string, size: ImageSize)
    requires '/' !in cardNumber
    ensures var folder := FirstSegment(cardNumber, '-');
      '/' !in folder && GetImagePath(cardNumber, size) == folder + "/" + (cardNumber + FileSuffix(size))
  {
    var folder := FirstSegment(cardNumber, '-');
    FirstSegmentIsPrefix(cardNumber, '-');
    AbsentFromPrefix(cardNumber, |folder|, '/');
  }

  /** Two cards whose numbers hold no '/' never share a remote path, whatever the
      sizes: an upload cannot overwrite another card's image. */
  lemma ImagePathInjective(a: string, b: string, sa: ImageSize, sb: ImageSize)
    requires '/' !in a && '/' !in b
    requires GetImagePath(a, sa) == GetImagePath(b, sb)
    ensures a == b && sa == sb
  {
    PathParts(a, sa);
    PathParts(b, sb);
    FolderSplit(FirstSegment(a, '-'), a + FileSuffix(sa), FirstSegment(b, '-'), b + FileSuffix(sb));
    SuffixSplit(a, b, sa, sb);
  }

  // ---------------------------------------------------------------- selection

  /** A card the script looks at: its `image_url` is set (the query) and one of its
      three URLs is third-party (the filter). */
  predicate Candidate(c: Card) {
    c.imageUrl.Some?
    && (IsThirdPartyUrl(c.imageUrl) || IsThirdPartyUrl(c.imageUrlSmall) || IsThirdPartyUrl(c.imageUrlHigh))
  }

  /** The cards to process, in id order. */
  function Selection(t: Table<Card>): (r: seq<Id>)
    requires WellFormed(t)
    ensures Increasing(r)
    ensures forall id :: id in r <==> id in t.rows && Candidate(t.rows[id])
  {
    Select(t, Candidate)
  }

  /** `slice(i, i + 5)` for i = 0, 5, 10, ...: the batches the loop runs. */
  function Batches<T>(s: seq<T>): (r: seq<seq<T>>)
    ensures forall k :: 0 <= k < |r| ==> 1 <= |r[k]| <= BATCH_SIZE
    decreases |s|
  {
    if s == [] then [] else [s[..Min(BATCH_SIZE, |s|)]] + Batches(s[Min(BATCH_SIZE, |s|)..])
  }

  function Flatten<T>(b: seq<seq<T>>): seq<T> {
    if b == [] then [] else b[0] + Flatten(b[1..])
  }

  /** The batches cover the selection exactly once, in order. */
  lemma {:induction false} BatchesCover<T>(s: seq<T>)
    ensures Flatten(Batches(s)) == s
    decreases |s|
  {
    if s != [] {
      var n := Min(BATCH_SIZE, |s|);
      BatchesCover(s[n..]);
      assert s[..n] + s[n..] == s;
    }
  }

  // ---------------------------------------------------------------- processing

  /** The card is downloaded and uploaded only when `image_url` itself is third-party. */
  predicate Attempted(c: Card) {
    IsThirdPartyUrl(c.imageUrl)
  }

  /** The result of downloading `image_url` and uploading it under the card's
      standard image path. */
  function UploadResult(c: Card, upload: (string, string) -> Option<string>): Option<string>
    requires Attempted(c)
  {
    upload(c.imageUrl.value, GetImagePath(c.cardNumber, Standard))
  }

  function Rehosted(c: Card, url: string): Card {
    c.(imageUrl := Some(url), imageUrlSmall := Some(url))
  }

  /** Processing one card fetched as `t0.rows[id]`: on a successful upload its
      current row gets the public URL; otherwise the table is left as it is. */
  function MigrateOne(t0: Table<Card>, t: Table<Card>, id: Id, upload: (string, string) -> Option<string>): Table<Card> {
    if id in t0.rows && id in t.rows && Attempted(t0.rows[id]) && UploadResult(t0.rows[id], upload).Some? then
      Put(t, id, Rehosted(t.rows[id], UploadResult(t0.rows[id], upload).value))
    else t
  }

  /** What processing the cards `ids` (fetched from `t0`) leaves in the card table. */
  function Migrated(t0: Table<Card>, ids: seq<Id>, upload: (string, string) -> Option<string>): Table<Card>
    decreases |ids|
  {
    if ids == [] then t0
    else MigrateOne(t0, Migrated(t0, ids[..|ids| - 1], upload), ids[|ids| - 1], upload)
  }

  /** The counters after processing `ids`: successes, errors, and the card numbers of the errors. */
  datatype Tally = Tally(success: nat, error: nat, errors: seq<string>)

  /** Counting one card: a success, an error listed under its number, or nothing when not attempted. */
  function CountOne(t0: Table<Card>, r: Tally, id: Id, upload: (string, string) -> Option<string>): Tally {
    if id in t0.rows && Attempted(t0.rows[id]) then
      if UploadResult(t0.rows[id], upload).Some? then r.(success := r.success + 1)
      else Tally(r.success, r.error + 1, r.errors + [t0.rows[id].cardNumber])
    else r
  }

  function Counted(t0: Table<Card>, ids: seq<Id>, upload: (string, string) -> Option<string>): Tally
    decreases |ids|
  {
    if ids == [] then Tally(0, 0, [])
    else CountOne(t0, Counted(t0, ids[..|ids| - 1], upload), ids[|ids| - 1], upload)
  }

  lemma ProcessStep(t0: Table<Card>, ids: seq<Id>, n: int, upload: (string, string) -> Option<string>)
    requires 0 <= n < |ids|
    ensures Migrated(t0, ids[..n + 1], upload) == MigrateOne(t0, Migrated(t0, ids[..n], upload), ids[n], upload)
    ensures Counted(t0, ids[..n + 1], upload) == CountOne(t0, Counted(t0, ids[..n], upload), ids[n], upload)
  {
    assert ids[..n + 1][..n] == ids[..n];
  }

  function AttemptedCount(t0: Table<Card>, ids: seq<Id>): nat
    decreases |ids|
  {
    if ids == [] then 0
    else AttemptedCount(t0, ids[..|ids| - 1]) + (if ids[|ids| - 1] in t0.rows && Attempted(t0.rows[ids[|ids| - 1]]) then 1 else 0)
  }

  /** Every attempted card is counted once, as a success or as an error, and each
      error is listed. */
  lemma {:induction false} TallyAccounts(t0: Table<Card>, ids: seq<Id>, upload: (string, string) -> Option<string>)
    ensures Counted(t0, ids, upload).success + Counted(t0, ids, upload).error == AttemptedCount(t0, ids) <= |ids|
    ensures |Counted(t0, ids, upload).errors| == Counted(t0, ids, upload).error
    decreases |ids|
  {
    if ids != [] {
      TallyAccounts(t0, ids[..|ids| - 1], upload);
    }
  }

  /** The rows after the migration of distinct ids: the same ids; a card whose upload
      succeeded carries the public URL as `image_url` and `image_url_small`, and
      every other card is unchanged. */
  /** What the migration leaves in the row of card `id`. */
  function MigratedRow(t0: Table<Card>, ids: seq<Id>, upload: (string, string) -> Option<string>, id: Id): Card
    requires id in t0.rows
  {
    if id in ids && Attempted(t0.rows[id]) && UploadResult(t0.rows[id], upload).Some?
    then Rehosted(t0.rows[id], UploadResult(t0.rows[id], upload).value)
    else t0.rows[id]
  }

  /** The migration keeps the ids of the card table. */
  lemma {:induction false} MigratedDomain(t0: Table<Card>, ids: seq<Id>, upload: (string, string) -> Option<string>)
    ensures Migrated(t0, ids, upload).rows.Keys == t0.rows.Keys
    ensures Migrated(t0, ids, upload).next == t0.next
    decreases |ids|
  {
    if ids != [] {
      MigratedDomain(t0, ids[..|ids| - 1], upload);
    }
  }

  /** The rows after the migration of distinct ids: a card whose upload succeeded
      carries the public URL as `image_url` and `image_url_small`, and every other
      card is unchanged. */
  lemma {:induction false} MigratedRows(t0: Table<Card>, ids: seq<Id>, upload: (string, string) -> Option<string>)
    requires Increasing(ids)
    ensures Migrated(t0, ids, upload).rows.Keys == t0.rows.Keys
    ensures forall id :: id in t0.rows ==> Migrated(t0, ids, upload).rows[id] == MigratedRow(t0, ids, upload, id)
    decreases |ids|
  {
    MigratedDomain(t0, ids, upload);
    if ids != [] {
      var init := ids[..|ids| - 1];
      var last := ids[|ids| - 1];
      assert Increasing(init);
      MigratedRows(t0, init, upload);
      assert last !in init;
      assert ids == init + [last];
      forall id | id in t0.rows ensures Migrated(t0, ids, upload).rows[id] == MigratedRow(t0, ids, upload, id) {
        assert id in ids <==> id in init || id == last;
        if id != last {
          assert MigratedRow(t0, ids, upload, id) == MigratedRow(t0, init, upload, id);
        }
      }
    }
  }

  /** When the storage's public URLs are not on the CDN, every card whose upload
      succeeded no longer has a third-party `image_url` or `image_url_small`. */
  lemma RehostedLeavesCdn(c: Card, url: string)
    requires !Occurs(url, THIRD_PARTY_HOST)
    ensures !IsThirdPartyUrl(Rehosted(c, url).imageUrl) && !IsThirdPartyUrl(Rehosted(c, url).imageUrlSmall)
    ensures Rehosted(c, url).cardNumber == c.cardNumber && Rehosted(c, url).packId == c.packId
  {
  }

  /** Rewriting URLs keeps card numbers and packs, so the store stays valid. */
  lemma MigratedKeepsValid(s: State, ids: seq<Id>, upload: (string, string) -> Option<string>)
    requires ValidState(s) && Increasing(ids)
    ensures ValidState(s.(cards := Migrated(s.cards, ids, upload)))
  {
    MigratedRows(s.cards, ids, upload);
    MigratedDomain(s.cards, ids, upload);
    var t := Migrated(s.cards, ids, upload);
    forall id | id in t.rows
      ensures t.rows[id].cardNumber == s.cards.rows[id].cardNumber && t.rows[id].packId == s.cards.rows[id].packId
    {
      assert t.rows[id] == MigratedRow(s.cards, ids, upload, id);
    }
    assert Unique(t, CardNumber) by {
      forall i, j | i in t.rows && j in t.rows && CardNumber(t.rows[i]) == CardNumber(t.rows[j]) ensures i == j {
        assert CardNumber(s.cards.rows[i]) == CardNumber(s.cards.rows[j]);
      }
    }
  }

  /** The script's `main`: select, then process the selection in batches of five. */
  method MigrateImages(db: Store, upload: (string, string) -> Option<string>)
    returns (successCount: nat, errorCount: nat, errors: seq<string>)
    requires db.Valid()
    modifies db
    ensures var ids := Selection(old(db.cards));
      db.Snapshot() == old(db.Snapshot()).(cards := Migrated(old(db.cards), ids, upload))
      && Tally(successCount, errorCount, errors) == Counted(old(db.cards), ids, upload)
    ensures db.Valid()
  {
    var t0 := db.cards;
    var ids := Selection(t0);
    var tally := Tally(0, 0, []);
    if |ids| > 0 {
      var i := 0;
      while i < |ids|
        invariant 0 <= i <= |ids|
        invariant db.Snapshot() == old(db.Snapshot()).(cards := Migrated(t0, ids[..i], upload))
        invariant tally == Counted(t0, ids[..i], upload)
        decreases |ids| - i
      {
        var end := Min(i + BATCH_SIZE, |ids|);
        tally := ProcessBatch(db, t0, ids, i, end, upload, tally);
        i := end;
      }
      assert ids[..i] == ids;
    }
    successCount, errorCount, errors := tally.success, tally.error, tally.errors;
    MigratedKeepsValid(old(db.Snapshot()), ids, upload);
  }

  /** The batch `ids[i..end]`: its cards run one after another. */
  method ProcessBatch(db: Store, t0: Table<Card>, ids: seq<Id>, i: int, end: int,
                      upload: (string, string) -> Option<string>, tally: Tally)
    returns (r: Tally)
    requires 0 <= i <= end <= |ids|
    requires db.cards == Migrated(t0, ids[..i], upload) && tally == Counted(t0, ids[..i], upload)
    modifies db
    ensures db.Snapshot() == old(db.Snapshot()).(cards := Migrated(t0, ids[..end], upload))
    ensures r == Counted(t0, ids[..end], upload)
  {
    var batch := ids[i..end];
    r := tally;
    var k := 0;
    while k < |batch|
      invariant 0 <= k <= |batch|
      invariant db.Snapshot() == old(db.Snapshot()).(cards := Migrated(t0, ids[..i + k], upload))
      invariant r == Counted(t0, ids[..i + k], upload)
    {
      ProcessStep(t0, ids, i + k, upload);
      r := ProcessCard(db, t0, batch[k], upload, r);
      k := k + 1;
    }
  }

  /** One card of a batch: download and upload when `image_url` is third-party,
      then either rewrite the row or record the error. */
  method ProcessCard(db: Store, t0: Table<Card>, id: Id, upload: (string, string) -> Option<string>, tally: Tally)
    returns (r: Tally)
    modifies db
    ensures db.Snapshot() == old(db.Snapshot()).(cards := MigrateOne(t0, old(db.cards), id, upload))
    ensures r == CountOne(t0, tally, id, upload)
  {
    r := tally;
    if id in t0.rows {
      var card := t0.rows[id];
      if card.imageUrl.Some? && IsThirdPartyUrl(card.imageUrl) {
        var result := upload(card.imageUrl.value, GetImagePath(card.cardNumber, Standard));
        if result.Some? {
          if id in db.cards.rows {
            db.cards := Put(db.cards, id, Rehosted(db.cards.rows[id], result.value));
          }
          r := r.(success := r.success + 1);
        } else {
          r := Tally(r.success, r.error + 1, r.errors + [card.cardNumber]);
        }
      }
    }
  }

}
