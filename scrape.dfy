/** The record logic of the OP-13 scraper: card numbers taken from image and
    link URLs, normalised and de-duplicated; names from alt text; the type line
    of a detail page; the merge of a card with its detail page; and the mapping
    onto the card schema. Page access and pattern matching are left to the
    caller: each source arrives with the digits its pattern captured. */
module Scraper {
  import opened Common
  import opened Strings
  import opened Sequences

  const SET_CODE: string := "OP13"
  const CDN_PREFIX: string := "https://limitlesstcg.nyc3.cdn.digitaloceanspaces.com/one-piece/OP13/OP13-"

  datatype ScrapedCard = ScrapedCard(
    cardNumber: string,
    setCode: string,
    setPosition: string,
    name: string,
    nameJp: string,
    cardType: string,
    frameColor: string,
    rarity: string,
    tcgLegal: bool,
    ocgLegal: bool,
    banStatus: string,
    language: string,
    imageUrl: string,
    monsterType: Option<string>,
    attribute: Option<string>,
    level: Option<int>,
    atk: Option<string>,
    cardText: Option<string>,
    monsterAbilities: Option<seq<string>>)

  // ---------------------------------------------------------------- card numbers

  /** `digits.padStart(3, '0')`. */
  function CardNum(digits: string): (r: string)
    ensures |r| == Max(3, |digits|)
    ensures r[|r| - |digits|..] == digits
    ensures forall i :: 0 <= i < |r| - |digits| ==> r[i] == '0'
  {
    PadStart(digits, 3, '0')
  }

  /** The normalised card number: the set code, a dash and the padded digits. */
  function CardNumber(digits: string): (r: string)
    ensures r == SET_CODE + "-" + CardNum(digits)
    ensures |r| >= 8
  {
    SET_CODE + "-" + CardNum(digits)
  }

  /** Padding is idempotent, so a number that is already three digits long is kept as is. */
  lemma CardNumIdempotent(digits: string)
    ensures CardNum(CardNum(digits)) == CardNum(digits)
    ensures |digits| >= 3 ==> CardNum(digits) == digits
  {
  }

  /** "7", "07" and "007" name the same card, so the de-duplication treats them as one. */
  lemma ShortNumbersCollide()
    ensures CardNumber("7") == CardNumber("07") == CardNumber("007") == "OP13-007"
  {
    assert CardNum("7") == "007";
    assert CardNum("07") == "007";
  }

  // ---------------------------------------------------------------- names

  /** The name from an image's alt text once the card number is removed: trimmed,
      or "Card NNN" when fewer than two characters remain. */
  function NameFromAlt(altWithoutNumber: string, cardNum: string): (r: string)
    ensures |Trim(altWithoutNumber)| >= 2 ==> r == Trim(altWithoutNumber)
    ensures |Trim(altWithoutNumber)| < 2 ==> r == "Card " + cardNum
    ensures |r| >= 2
  {
    var t := Trim(altWithoutNumber);
    if t == "" || |t| < 2 then "Card " + cardNum else t
  }

  // ---------------------------------------------------------------- extraction

  /** A card image on the list page: the digits captured from its URL (None when
      the URL has no card number), the URL itself, and its alt text with the card
      number removed. */
  datatype ImageSource = ImageSource(digits: Option<string>, src: string, altWithoutNumber: string)

  /** A card link on the list page: the digits captured from its address and the
      URL of the image inside it ("" when there is none). */
  datatype LinkSource = LinkSource(digits: Option<string>, imageUrl: string)

  function BaseCard(cardNum: string, name: string, imageUrl: string): ScrapedCard {
    ScrapedCard(CardNumber(cardNum), SET_CODE, CardNum(cardNum), name, name, "MONSTER", "NORMAL", "COMMON",
      false, true, "UNLIMITED", "JP", imageUrl, None, None, None, None, None, None)
  }

  /** The card an image yields: its URL as the image, and the name from its alt text.
      (An image without a number yields no card; the extraction skips it.) */
  function FromImage(img: ImageSource): (c: ScrapedCard)
    ensures img.digits.Some? ==> c.cardNumber == CardNumber(img.digits.value) && c.setPosition == CardNum(img.digits.value)
    ensures c.imageUrl == img.src && c.language == "JP" && c.setCode == SET_CODE
  {
    var digits := img.digits.GetOr("");
    BaseCard(digits, NameFromAlt(img.altWithoutNumber, CardNum(digits)), img.src)
  }

  /** The card a link yields: named by its number, with the link's image or else
      the image the CDN serves under the padded number. */
  function FromLink(link: LinkSource): (c: ScrapedCard)
    ensures link.digits.Some? ==> c.cardNumber == CardNumber(link.digits.value)
    ensures link.digits.Some? ==> c.name == "Card " + CardNum(link.digits.value)
    ensures link.imageUrl != "" ==> c.imageUrl == link.imageUrl
    ensures link.digits.Some? && link.imageUrl == "" ==> c.imageUrl == CDN_PREFIX + CardNum(link.digits.value) + "_JP.webp"
  {
    var digits := link.digits.GetOr("");
    var url := if link.imageUrl != "" then link.imageUrl else CDN_PREFIX + CardNum(digits) + "_JP.webp";
    BaseCard(digits, "Card " + CardNum(digits), url)
  }

  /** The normalised number an image carries, if any. */
  function ImageNumber(img: ImageSource): (r: Option<string>)
    ensures r.Some? <==> img.digits.Some?
    ensures r.Some? ==> r.value == FromImage(img).cardNumber
  {
    if img.digits.Some? then Some(CardNumber(img.digits.value)) else None
  }

  /** The normalised number a link carries, if any. */
  function LinkNumber(link: LinkSource): (r: Option<string>)
    ensures r.Some? <==> link.digits.Some?
    ensures r.Some? ==> r.value == FromLink(link).cardNumber
  {
    if link.digits.Some? then Some(CardNumber(link.digits.value)) else None
  }

  /** The numbers a run of sources carries. */
  function Numbers<S>(sources: seq<S>, number: S -> Option<string>): set<string>
    decreases |sources|
  {
    if sources == [] then {}
    else
      var x := sources[|sources| - 1];
      Numbers(sources[..|sources| - 1], number) + (if number(x).Some? then {number(x).value} else {})
  }

  function NumbersOf(cards: seq<ScrapedCard>): set<string> {
    set k | 0 <= k < |cards| :: cards[k].cardNumber
  }

  predicate DistinctNumbers(cards: seq<ScrapedCard>) {
    forall a, b :: 0 <= a < b < |cards| ==> cards[a].cardNumber != cards[b].cardNumber
  }

  /** `c` is the card made from the first source carrying its number: no source
      before it carries that number. */
  predicate FromFirst<S>(sources: seq<S>, number: S -> Option<string>, make: S -> ScrapedCard, c: ScrapedCard) {
    exists i :: 0 <= i < |sources| && number(sources[i]).Some? && c == make(sources[i])
      && number(sources[i]).value !in Numbers(sources[..i], number)
  }

  /** The state of the extraction: the cards so far and the numbers already seen. */
  datatype Pass = Pass(cards: seq<ScrapedCard>, seen: set<string>)

  /** One loop of the extraction, continuing from `start`: each source with a number
      not yet seen adds the card `make` yields for it. */
  function Collect<S>(sources: seq<S>, number: S -> Option<string>, make: S -> ScrapedCard, start: Pass): Pass
    decreases |sources|
  {
    if sources == [] then start
    else
      var p := Collect(sources[..|sources| - 1], number, make, start);
      var x := sources[|sources| - 1];
      if number(x).Some? && number(x).value !in p.seen then Pass(p.cards + [make(x)], p.seen + {number(x).value})
      else p
  }

  /** The cards of the list page: the image loop, then the link loop. */
  function Extraction(images: seq<ImageSource>, links: seq<LinkSource>): seq<ScrapedCard> {
    Collect(links, LinkNumber, FromLink, Collect(images, ImageNumber, FromImage, Pass([], {}))).cards
  }

  /** The extraction loops: images first, then links, each skipping sources without a
      number and numbers already seen. Every number found appears exactly once,
      taken from its first image if any image carries it, else from its first link. */
  method ExtractCards(images: seq<ImageSource>, links: seq<LinkSource>) returns (cards: seq<ScrapedCard>)
    ensures cards == Extraction(images, links)
    ensures DistinctNumbers(cards)
    ensures NumbersOf(cards) == Numbers(images, ImageNumber) + Numbers(links, LinkNumber)
    ensures forall k :: 0 <= k < |cards| && cards[k].cardNumber in Numbers(images, ImageNumber) ==>
      FromFirst(images, ImageNumber, FromImage, cards[k])
    ensures forall k :: 0 <= k < |cards| && cards[k].cardNumber !in Numbers(images, ImageNumber) ==>
      FromFirst(links, LinkNumber, FromLink, cards[k])
  {
    var afterImages := CollectLoop(images, ImageNumber, FromImage, Pass([], {}));
    var afterLinks := CollectLoop(links, LinkNumber, FromLink, afterImages);
    cards := afterLinks.cards;
    ExtractionFacts(images, links);
  }

  /** One extraction loop over `sources`, continuing from `start`: a source whose
      number was found and not yet seen adds its card and marks the number seen. */
  method CollectLoop<S>(sources: seq<S>, number: S -> Option<string>, make: S -> ScrapedCard, start: Pass)
    returns (p: Pass)
    ensures p == Collect(sources, number, make, start)
  {
    var cards, seen := start.cards, start.seen;
    var i := 0;
    while i < |sources|
      invariant 0 <= i <= |sources|
      invariant Pass(cards, seen) == Collect(sources[..i], number, make, start)
    {
      CollectStep(sources, i, number, make, start);
      var n := number(sources[i]);
      if n.Some? && n.value !in seen {
        cards := cards + [make(sources[i])];
        seen := seen + {n.value};
      }
      i := i + 1;
    }
    assert sources[..i] == sources;
    p := Pass(cards, seen);
  }

  /** One more source: the loop over a longer prefix takes one more step. */
  lemma CollectStep<S>(sources: seq<S>, i: int, number: S -> Option<string>, make: S -> ScrapedCard, start: Pass)
    requires 0 <= i < |sources|
    ensures var p := Collect(sources[..i], number, make, start);
      var x := sources[i];
      Collect(sources[..i + 1], number, make, start)
        == if number(x).Some? && number(x).value !in p.seen then Pass(p.cards + [make(x)], p.seen + {number(x).value}) else p
  {
    assert sources[..i + 1][..i] == sources[..i];
  }

  /** The numbers a loop has seen are those it started with and those its sources carry. */
  lemma {:induction false} CollectSeen<S>(sources: seq<S>, number: S -> Option<string>, make: S -> ScrapedCard, start: Pass)
    ensures Collect(sources, number, make, start).seen == start.seen + Numbers(sources, number)
    decreases |sources|
  {
    if sources != [] {
      CollectSeen(sources[..|sources| - 1], number, make, start);
    }
  }

  /** A loop keeps the cards it starts from, and one card per number it has seen,
      when each card made carries the number of its source. */
  lemma {:induction false} CollectDistinct<S>(sources: seq<S>, number: S -> Option<string>, make: S -> ScrapedCard, start: Pass)
    requires forall x :: number(x).Some? ==> make(x).cardNumber == number(x).value
    requires start.seen == NumbersOf(start.cards) && DistinctNumbers(start.cards)
    ensures Collect(sources, number, make, start).seen == NumbersOf(Collect(sources, number, make, start).cards)
    ensures DistinctNumbers(Collect(sources, number, make, start).cards)
    ensures |start.cards| <= |Collect(sources, number, make, start).cards|
    ensures forall k :: 0 <= k < |start.cards| ==> Collect(sources, number, make, start).cards[k] == start.cards[k]
    decreases |sources|
  {
    if sources != [] {
      var p := Collect(sources[..|sources| - 1], number, make, start);
      var x := sources[|sources| - 1];
      CollectDistinct(sources[..|sources| - 1], number, make, start);
      if number(x).Some? && number(x).value !in p.seen {
        AppendNew(p.cards, make(x));
        var q := p.cards + [make(x)];
        assert forall k :: 0 <= k < |p.cards| ==> q[k] == p.cards[k];
      }
    }
  }

  lemma FromFirstExtends<S>(init: seq<S>, x: S, number: S -> Option<string>, make: S -> ScrapedCard, c: ScrapedCard)
    requires FromFirst(init, number, make, c)
    ensures FromFirst(init + [x], number, make, c)
  {
    var i :| 0 <= i < |init| && number(init[i]).Some? && c == make(init[i])
      && number(init[i]).value !in Numbers(init[..i], number);
    var s := init + [x];
    assert s[..i] == init[..i] && s[i] == init[i];
  }

  /** Each card a loop adds comes from the first of its sources carrying its number. */
  lemma {:induction false} CollectFirst<S>(sources: seq<S>, number: S -> Option<string>, make: S -> ScrapedCard, start: Pass)
    ensures forall k :: |start.cards| <= k < |Collect(sources, number, make, start).cards| ==>
      FromFirst(sources, number, make, Collect(sources, number, make, start).cards[k])
    decreases |sources|
  {
    if sources != [] {
      var init := sources[..|sources| - 1];
      var x := sources[|sources| - 1];
      var p := Collect(init, number, make, start);
      CollectFirst(init, number, make, start);
      assert init + [x] == sources;
      forall k | |start.cards| <= k < |p.cards| ensures FromFirst(sources, number, make, p.cards[k]) {
        FromFirstExtends(init, x, number, make, p.cards[k]);
      }
      if number(x).Some? && number(x).value !in p.seen {
        CollectSeen(init, number, make, start);
        var q := p.cards + [make(x)];
        assert forall k :: 0 <= k < |p.cards| ==> q[k] == p.cards[k];
        assert FromFirst(sources, number, make, make(x)) by {
          assert sources[|sources| - 1] == x && sources[..|sources| - 1] == init;
        }
      }
    }
  }

  /** Every number found appears exactly once, from its first image if any image
      carries it, else from its first link. */
  lemma ExtractionFacts(images: seq<ImageSource>, links: seq<LinkSource>)
    ensures DistinctNumbers(Extraction(images, links))
    ensures NumbersOf(Extraction(images, links)) == Numbers(images, ImageNumber) + Numbers(links, LinkNumber)
    ensures forall k :: 0 <= k < |Extraction(images, links)| && Extraction(images, links)[k].cardNumber in Numbers(images, ImageNumber) ==>
      FromFirst(images, ImageNumber, FromImage, Extraction(images, links)[k])
    ensures forall k :: 0 <= k < |Extraction(images, links)| && Extraction(images, links)[k].cardNumber !in Numbers(images, ImageNumber) ==>
      FromFirst(links, LinkNumber, FromLink, Extraction(images, links)[k])
  {
    ExtractionNumbers(images, links);
    ExtractionFirst(images, links);
  }

  /** The cards' numbers are distinct and are every number the page carries. */
  lemma ExtractionNumbers(images: seq<ImageSource>, links: seq<LinkSource>)
    ensures DistinctNumbers(Extraction(images, links))
    ensures NumbersOf(Extraction(images, links)) == Numbers(images, ImageNumber) + Numbers(links, LinkNumber)
  {
    var empty := Pass([], {});
    var start := Collect(images, ImageNumber, FromImage, empty);
    CollectSeen(images, ImageNumber, FromImage, empty);
    CollectDistinct(images, ImageNumber, FromImage, empty);
    CollectSeen(links, LinkNumber, FromLink, start);
    CollectDistinct(links, LinkNumber, FromLink, start);
  }

  /** A card with a number some image carries comes from the first such image; any
      other card comes from the first link with its number. */
  lemma ExtractionFirst(images: seq<ImageSource>, links: seq<LinkSource>)
    ensures forall k :: 0 <= k < |Extraction(images, links)| && Extraction(images, links)[k].cardNumber in Numbers(images, ImageNumber) ==>
      FromFirst(images, ImageNumber, FromImage, Extraction(images, links)[k])
    ensures forall k :: 0 <= k < |Extraction(images, links)| && Extraction(images, links)[k].cardNumber !in Numbers(images, ImageNumber) ==>
      FromFirst(links, LinkNumber, FromLink, Extraction(images, links)[k])
  {
    var empty := Pass([], {});
    var start := Collect(images, ImageNumber, FromImage, empty);
    var all := Collect(links, LinkNumber, FromLink, start);
    var found := Numbers(images, ImageNumber);
    CollectSeen(images, ImageNumber, FromImage, empty);
    CollectDistinct(images, ImageNumber, FromImage, empty);
    CollectFirst(images, ImageNumber, FromImage, empty);
    CollectDistinct(links, LinkNumber, FromLink, start);
    CollectFirst(links, LinkNumber, FromLink, start);
    forall k | 0 <= k < |all.cards|
      ensures all.cards[k].cardNumber in found ==> FromFirst(images, ImageNumber, FromImage, all.cards[k])
      ensures all.cards[k].cardNumber !in found ==> FromFirst(links, LinkNumber, FromLink, all.cards[k])
    {
      if k < |start.cards| {
        assert all.cards[k] == start.cards[k];
        assert start.cards[k].cardNumber in NumbersOf(start.cards);
      } else {
        forall a | 0 <= a < |start.cards| ensures start.cards[a].cardNumber != all.cards[k].cardNumber {
          assert all.cards[a] == start.cards[a];
        }
        assert all.cards[k].cardNumber !in NumbersOf(start.cards);
      }
    }
  }

  /** Appending a card whose number is new keeps the numbers distinct and adds that number. */
  lemma AppendNew(cards: seq<ScrapedCard>, card: ScrapedCard)
    requires DistinctNumbers(cards) && card.cardNumber !in NumbersOf(cards)
    ensures DistinctNumbers(cards + [card])
    ensures NumbersOf(cards + [card]) == NumbersOf(cards) + {card.cardNumber}
  {
    var s := cards + [card];
    forall a, b | 0 <= a < b < |s| ensures s[a].cardNumber != s[b].cardNumber {
      if b == |cards| {
        assert s[a] == cards[a];
      }
    }
    assert forall k :: 0 <= k < |cards| ==> s[k] == cards[k];
    assert s[|cards|] == card;
  }

  // ---------------------------------------------------------------- type line

  /** The groups of a detail page's type line ("Leader • Red/Green • 5 Life"):
      the kind, the colours and the life or cost. */
  datatype TypeLine = TypeLine(kind: string, colors: string, lifeOrCost: int)

  datatype TypeInfo = TypeInfo(cardType: string, monsterType: string, attribute: Option<string>, level: Option<int>)

  /** The colour checks, in their order: the first colour named in this order decides. */
  function ColorAttribute(colors: string): (r: Option<string>)
    ensures Contains(colors, "Red") ==> r == Some("FIRE")
    ensures !Contains(colors, "Red") && Contains(colors, "Blue") ==> r == Some("WATER")
    ensures r.Some? ==> r.value in ATTRIBUTES
    ensures r.None? <==> (!Contains(colors, "Red") && !Contains(colors, "Blue") && !Contains(colors, "Green")
      && !Contains(colors, "Purple") && !Contains(colors, "Black") && !Contains(colors, "Yellow"))
  {
    if Contains(colors, "Red") then Some("FIRE")
    else if Contains(colors, "Blue") then Some("WATER")
    else if Contains(colors, "Green") then Some("EARTH")
    else if Contains(colors, "Purple") then Some("DARK")
    else if Contains(colors, "Black") then Some("DARK")
    else if Contains(colors, "Yellow") then Some("LIGHT")
    else None
  }

  /** A two-colour card whose colours include red is FIRE whichever colour is written first. */
  lemma RedWins(other: string)
    ensures ColorAttribute(other + "/Red") == Some("FIRE")
  {
    assert OccursAt(other + "/Red", "Red", |other| + 1);
  }

  /** What the type line says: Leader and Character are monsters whose level is the
      life or cost; Event, Stage and Don cards are spells; the colours give the
      attribute. Without a type line the card stays a Character monster. */
  function ReadTypeLine(m: Option<TypeLine>): (r: TypeInfo)
    ensures m.None? ==> r == TypeInfo("MONSTER", "Character", None, None)
    ensures m.Some? && Trim(m.value.kind) == "Leader" ==>
      r.cardType == "MONSTER" && r.monsterType == "Leader" && r.level == Some(m.value.lifeOrCost)
    ensures m.Some? && Trim(m.value.kind) == "Character" ==>
      r.cardType == "MONSTER" && r.monsterType == "Character" && r.level == Some(m.value.lifeOrCost)
    ensures (m.Some? && Trim(m.value.kind) != "Leader" && Trim(m.value.kind) != "Character"
      && (Trim(m.value.kind) == "Event" || Trim(m.value.kind) == "Stage" || Contains(Trim(m.value.kind), "Don"))) ==>
      r.cardType == "SPELL" && r.level == Some(m.value.lifeOrCost)
    ensures m.Some? ==> r.attribute == ColorAttribute(Trim(m.value.colors))
    ensures r.cardType in CARD_TYPES
  {
    if m.None? then TypeInfo("MONSTER", "Character", None, None)
    else
      var kind := Trim(m.value.kind);
      var attribute := ColorAttribute(Trim(m.value.colors));
      if kind == "Leader" then TypeInfo("MONSTER", "Leader", attribute, Some(m.value.lifeOrCost))
      else if kind == "Character" then TypeInfo("MONSTER", "Character", attribute, Some(m.value.lifeOrCost))
      else if kind == "Event" || kind == "Stage" || Contains(kind, "Don") then
        TypeInfo("SPELL", "Character", attribute, Some(m.value.lifeOrCost))
      else TypeInfo("MONSTER", "Character", attribute, None)
  }

  // ---------------------------------------------------------------- enrichment

  /** What a detail page yields. */
  datatype Details = Details(
    nameJp: string,
    name: string,
    cardType: string,
    monsterType: string,
    attribute: Option<string>,
    level: Option<int>,
    atk: Option<string>,
    cardText: string,
    traits: string)

  function PageDetails(nameJp: string, typeLine: Option<TypeLine>, atk: Option<string>, cardText: string, traits: string)
    : (d: Details)
    ensures d.name == d.nameJp == nameJp && d.atk == atk && d.cardText == cardText && d.traits == traits
    ensures d.cardType == ReadTypeLine(typeLine).cardType && d.level == ReadTypeLine(typeLine).level
  {
    var info := ReadTypeLine(typeLine);
    Details(nameJp, nameJp, info.cardType, info.monsterType, info.attribute, info.level, atk, cardText, traits)
  }

  predicate WellFormedTrait(t: string) {
    t != "" && '/' !in t && !IsSpace(t[0]) && !IsSpace(t[|t| - 1])
  }

  predicate NonEmpty(t: string) {
    t != ""
  }

  /** The parts trimmed, empty ones dropped, order kept. */
  function KeepTrimmed(parts: seq<string>): (r: seq<string>)
    ensures r == Filter(MapSeq(parts, Trim), NonEmpty)
  {
    if parts == [] then []
    else
      var t := Trim(parts[0]);
      TrimmedHead(parts);
      if t != "" then [t] + KeepTrimmed(parts[1..]) else KeepTrimmed(parts[1..])
  }

  /** Every part that survives trimming and filtering is a well-formed trait
      when no part holds a '/'. */
  lemma TrimmedTraits(parts: seq<string>)
    requires forall p :: p in parts ==> '/' !in p
    ensures forall t :: t in Filter(MapSeq(parts, Trim), NonEmpty) ==> WellFormedTrait(t)
  {
    var m := MapSeq(parts, Trim);
    forall t | t in Filter(m, NonEmpty)
      ensures WellFormedTrait(t)
    {
      var k :| 0 <= k < |m| && m[k] == t;
      TrimmedTrait(parts[k]);
    }
  }

  /** One step of the trimmed-and-filtered parts: the first part's contribution, then the rest's. */
  lemma TrimmedHead(parts: seq<string>)
    requires parts != []
    ensures Filter(MapSeq(parts, Trim), NonEmpty)
      == (if Trim(parts[0]) != "" then [Trim(parts[0])] else []) + Filter(MapSeq(parts[1..], Trim), NonEmpty)
  {
    var m := MapSeq(parts, Trim);
    assert m[1..] == MapSeq(parts[1..], Trim);
    assert m[0] == Trim(parts[0]);
  }

  /** A part without '/' trims to a well-formed trait unless it trims to nothing. */
  lemma TrimmedTrait(part: string)
    requires '/' !in part
    ensures Trim(part) != "" ==> WellFormedTrait(Trim(part))
  {
    TrimKeepsOut(part, '/');
  }

  /** `traits.split('/').map(t => t.trim()).filter(Boolean)`: the traits string
      split on '/', each part trimmed, empty parts dropped. */
  function Traits(traits: string): (r: seq<string>)
    ensures r == Filter(MapSeq(Split(traits, '/'), Trim), NonEmpty)
    ensures forall i :: 0 <= i < |r| ==> WellFormedTrait(r[i])
  {
    TrimmedTraits(Split(traits, '/'));
    KeepTrimmed(Split(traits, '/'))
  }

  lemma TrimKeepsOut(s: string, c: char)
    requires c !in s
    ensures c !in Trim(s)
  {
    var t := Trim(s);
    var i :| OccursAt(s, t, i);
    assert t == s[i..i + |t|];
  }

  /** `x || keep` for a text the page may leave empty. */
  function OrKeep(x: string, keep: string): string {
    if x != "" then x else keep
  }

  function OrKeepSome(x: string, keep: Option<string>): Option<string> {
    if x != "" then Some(x) else keep
  }

  function OrKeepTruthy(x: Option<string>, keep: Option<string>): Option<string> {
    if Truthy(x) then x else keep
  }

  function OrKeepInt(x: Option<int>, keep: Option<int>): Option<int> {
    if TruthyInt(x) then x else keep
  }

  /** The abilities after the merge: the page's traits when it lists any. */
  function TraitsOrKeep(traits: string, keep: Option<seq<string>>): Option<seq<string>> {
    if traits != "" then Some(Traits(traits)) else keep
  }

  /** The merge of a card with its detail page: each field takes the page's value
      when truthy, else keeps the card's; traits replace the abilities only when
      present. A failed enrichment (None) leaves the card as it was. */
  function Enrich(card: ScrapedCard, details: Option<Details>): (r: ScrapedCard)
    ensures details.None? ==> r == card
    ensures r.cardNumber == card.cardNumber && r.setCode == card.setCode && r.setPosition == card.setPosition
    ensures r.imageUrl == card.imageUrl && r.rarity == card.rarity && r.frameColor == card.frameColor
    ensures details.Some? && details.value.name != "" ==> r.name == details.value.name
    ensures details.Some? && details.value.name == "" ==> r.name == card.name
    ensures details.Some? && details.value.traits != "" ==> r.monsterAbilities == Some(Traits(details.value.traits))
    ensures details.Some? && details.value.traits == "" ==> r.monsterAbilities == card.monsterAbilities
    ensures details.Some? && !TruthyInt(details.value.level) ==> r.level == card.level
    ensures details.Some? && TruthyInt(details.value.level) ==> r.level == details.value.level
    ensures r.tcgLegal == card.tcgLegal && r.ocgLegal == card.ocgLegal
    ensures r.banStatus == card.banStatus && r.language == card.language
    ensures details.Some? ==>
      var d := details.value;
      (r.nameJp == if d.nameJp != "" then d.nameJp else card.nameJp)
      && (r.cardType == if d.cardType != "" then d.cardType else card.cardType)
      && (r.monsterType == if d.monsterType != "" then Some(d.monsterType) else card.monsterType)
      && (r.attribute == if Truthy(d.attribute) then d.attribute else card.attribute)
      && (r.atk == if Truthy(d.atk) then d.atk else card.atk)
      && (r.cardText == if d.cardText != "" then Some(d.cardText) else card.cardText)
  {
    if details.None? then card
    else
      var d := details.value;
      var name := OrKeep(d.name, card.name);
      var nameJp := OrKeep(d.nameJp, card.nameJp);
      var cardType := OrKeep(d.cardType, card.cardType);
      var monsterType := OrKeepSome(d.monsterType, card.monsterType);
      var attribute := OrKeepTruthy(d.attribute, card.attribute);
      var level := OrKeepInt(d.level, card.level);
      var atk := OrKeepTruthy(d.atk, card.atk);
      var cardText := OrKeepSome(d.cardText, card.cardText);
      var abilities := TraitsOrKeep(d.traits, card.monsterAbilities);
      ScrapedCard(card.cardNumber, card.setCode, card.setPosition, name, nameJp, cardType, card.frameColor, card.rarity,
        card.tcgLegal, card.ocgLegal, card.banStatus, card.language, card.imageUrl, monsterType, attribute,
        level, atk, cardText, abilities)
  }

  /** Enriching twice from the same page gives the same card as enriching once. */
  lemma EnrichIdempotent(card: ScrapedCard, details: Option<Details>)
    ensures Enrich(Enrich(card, details), details) == Enrich(card, details)
  {
  }

  // ---------------------------------------------------------------- mapCardData

  /** The scraper's rarity table; anything else becomes COMMON. */
  function MapRarity(r: string): (m: string)
    ensures m in RARITIES
    ensures r == "COMMON" || r !in {"UNCOMMON", "RARE", "SUPER_RARE", "SECRET_RARE", "TREASURE_RARE"} ==> m == "COMMON"
  {
    match r
    case "COMMON" => "COMMON"
    case "UNCOMMON" => "RARE"
    case "RARE" => "SUPER_RARE"
    case "SUPER_RARE" => "ULTRA_RARE"
    case "SECRET_RARE" => "SECRET_RARE"
    case "TREASURE_RARE" => "SECRET_RARE"
    case _ => "COMMON"
  }

  predicate NamesLeader(c: ScrapedCard) { Contains(c.nameJp, "リーダー") || Contains(Lower(c.name), "leader") }

  predicate NamesEvent(c: ScrapedCard) { Contains(c.nameJp, "イベント") || Contains(Lower(c.name), "event") }

  /** `mapCardData`: card type, monster type and frame colour are decided from the
      names alone, the rarity goes through the table, and every other field is kept. */
  function MapCardData(c: ScrapedCard): (r: ScrapedCard)
    ensures r == c.(cardType := r.cardType, monsterType := r.monsterType, frameColor := r.frameColor, rarity := r.rarity)
    ensures r.cardType == (if NamesEvent(c) then "SPELL" else "MONSTER")
    ensures r.monsterType == Some(if NamesLeader(c) then "Leader" else "Character")
    ensures r.frameColor == (if NamesLeader(c) then "EFFECT" else "NORMAL")
    ensures r.rarity == MapRarity(c.rarity) && r.rarity in RARITIES
    ensures r.cardType in CARD_TYPES && r.frameColor in FRAME_COLORS
  {
    var leader := NamesLeader(c);
    c.(cardType := if NamesEvent(c) then "SPELL" else "MONSTER",
       monsterType := Some(if leader then "Leader" else "Character"),
       frameColor := if leader then "EFFECT" else "NORMAL",
       rarity := MapRarity(c.rarity))
  }

  /** The mapping overrides the enrichment: a card the detail page read as a spell
      is stored as a monster unless its names mention an event. */
  lemma MappingOverridesEnrichedType(card: ScrapedCard, d: Details)
    requires d.cardType == "SPELL"
    requires !NamesEvent(Enrich(card, Some(d)))
    ensures Enrich(card, Some(d)).cardType == "SPELL"
    ensures MapCardData(Enrich(card, Some(d))).cardType == "MONSTER"
  {
  }
}
