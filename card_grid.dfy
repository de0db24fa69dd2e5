/** The card grid on the client: the lowest quoted price and the number of
    listings shown on each card, and the sorted, truncated list of cards. */
module CardGrid {
  import opened Common
  import opened Strings
  import opened Sequences
  import opened Prices

  // ---------------------------------------------------------------- getLowestPrice

  /** The pushed value of one field: itself when truthy, nothing otherwise. */
  function Quote(x: Option<real>): (r: seq<real>)
    ensures |r| <= 1 && (r != [] <==> TruthyReal(x))
    ensures r != [] ==> r[0] == x.value && r[0] != 0.0
  {
    if TruthyReal(x) then [x.value] else []
  }

  function TcgMarket(p: PriceRecord): Option<real> { if p.tcgplayer.Some? then p.tcgplayer.value.market else None }
  function TcgLow(p: PriceRecord): Option<real> { if p.tcgplayer.Some? then p.tcgplayer.value.low else None }
  function CmAverage(p: PriceRecord): Option<real> { if p.cardmarket.Some? then p.cardmarket.value.averagePrice else None }
  function CmLow(p: PriceRecord): Option<real> { if p.cardmarket.Some? then p.cardmarket.value.lowPrice else None }
  function YytPrice(p: PriceRecord): Option<real> { if p.yuyutei.Some? then p.yuyutei.value.price else None }

  /** The quotes `getLowestPrice` pushes, in its order: the truthy ones among
      TCGplayer market and low, Cardmarket average and low, and Yuyu-tei. */
  function Candidates(prices: Option<PriceRecord>): (r: seq<real>)
    ensures forall k :: 0 <= k < |r| ==> r[k] != 0.0
    ensures prices.None? ==> r == []
    ensures prices.Some? ==> |r| <= 5
  {
    if prices.None? then []
    else
      var p := prices.value;
      Quote(TcgMarket(p)) + Quote(TcgLow(p)) + Quote(CmAverage(p)) + Quote(CmLow(p)) + Quote(YytPrice(p))
  }

  /** `Math.min` of a non-empty list. */
  function MinOf(s: seq<real>): (r: real)
    requires |s| > 0
    ensures r in s
    ensures forall k :: 0 <= k < |s| ==> r <= s[k]
  {
    if |s| == 1 then s[0]
    else
      var m := MinOf(s[1..]);
      assert forall k :: 1 <= k < |s| ==> s[k] == s[1..][k - 1];
      if s[0] < m then s[0] else m
  }

  /** A member of a list no greater than any member is its minimum. */
  lemma MinUnique(s: seq<real>, m: real)
    requires m in s && forall k :: 0 <= k < |s| ==> m <= s[k]
    ensures MinOf(s) == m
  {
    var j :| 0 <= j < |s| && s[j] == MinOf(s);
    var i :| 0 <= i < |s| && s[i] == m;
  }

  /** The price shown on a card, before rounding to cents: the zero sentinel when
      nothing is quoted, else the smallest quote. */
  function LowestPrice(prices: Option<PriceRecord>): (r: real)
    ensures Candidates(prices) == [] ==> r == 0.0
    ensures Candidates(prices) != [] ==>
      (r in Candidates(prices) && forall k :: 0 <= k < |Candidates(prices)| ==> r <= Candidates(prices)[k])
  {
    if Candidates(prices) == [] then 0.0 else MinOf(Candidates(prices))
  }

  /** `getLowestPrice`: collect the truthy quotes, then take their minimum. */
  method GetLowestPrice(prices: Option<PriceRecord>) returns (lowest: real)
    ensures lowest == LowestPrice(prices)
  {
    if prices.None? {
      return 0.0;
    }
    var priceList := CollectQuotes(prices.value);
    if |priceList| == 0 {
      return 0.0;
    }
    lowest := Minimum(priceList);
  }

  /** The `priceList.push` sequence of `getLowestPrice`. */
  method CollectQuotes(p: PriceRecord) returns (priceList: seq<real>)
    ensures priceList == Candidates(Some(p))
  {
    priceList := [];
    if p.tcgplayer.Some? && TruthyReal(p.tcgplayer.value.market) {
      priceList := priceList + [p.tcgplayer.value.market.value];
    }
    assert priceList == Quote(TcgMarket(p));
    if p.tcgplayer.Some? && TruthyReal(p.tcgplayer.value.low) {
      priceList := priceList + [p.tcgplayer.value.low.value];
    }
    assert priceList == Quote(TcgMarket(p)) + Quote(TcgLow(p));
    if p.cardmarket.Some? && TruthyReal(p.cardmarket.value.averagePrice) {
      priceList := priceList + [p.cardmarket.value.averagePrice.value];
    }
    assert priceList == Quote(TcgMarket(p)) + Quote(TcgLow(p)) + Quote(CmAverage(p));
    if p.cardmarket.Some? && TruthyReal(p.cardmarket.value.lowPrice) {
      priceList := priceList + [p.cardmarket.value.lowPrice.value];
    }
    assert priceList == Quote(TcgMarket(p)) + Quote(TcgLow(p)) + Quote(CmAverage(p)) + Quote(CmLow(p));
    if p.yuyutei.Some? && TruthyReal(p.yuyutei.value.price) {
      priceList := priceList + [p.yuyutei.value.price.value];
    }
  }

  /** `Math.min(...priceList)` as a scan. */
  method Minimum(priceList: seq<real>) returns (lowest: real)
    requires |priceList| > 0
    ensures lowest == MinOf(priceList)
  {
    lowest := priceList[0];
    var i := 1;
    while i < |priceList|
      invariant 1 <= i <= |priceList|
      invariant lowest in priceList[..i]
      invariant forall k :: 0 <= k < i ==> lowest <= priceList[k]
    {
      if priceList[i] < lowest {
        lowest := priceList[i];
      }
      i := i + 1;
    }
    assert priceList[..i] == priceList;
    MinUnique(priceList, lowest);
  }

  /** A zero quote is ignored: a Yuyu-tei price of 0 counts as no Yuyu-tei quote at all. */
  lemma ZeroQuoteIgnored(p: PriceRecord)
    ensures LowestPrice(Some(p.(yuyutei := Some(Yuyutei(Some(0.0)))))) == LowestPrice(Some(p.(yuyutei := None)))
  {
    assert Candidates(Some(p.(yuyutei := Some(Yuyutei(Some(0.0)))))) == Candidates(Some(p.(yuyutei := None)));
  }

  // ---------------------------------------------------------------- getListingsCount

  /** `getListingsCount`: TCGplayer's listings plus Cardmarket's, each when truthy;
      Yuyu-tei never contributes, and no prices means zero. */
  method GetListingsCount(prices: Option<PriceRecord>) returns (count: int)
    ensures prices.None? ==> count == 0
    ensures prices.Some? ==>
      (count == (if prices.value.tcgplayer.Some? && TruthyInt(prices.value.tcgplayer.value.listings)
                 then prices.value.tcgplayer.value.listings.value else 0)
                + (if prices.value.cardmarket.Some? && TruthyInt(prices.value.cardmarket.value.listings)
                   then prices.value.cardmarket.value.listings.value else 0))
  {
    if prices.None? {
      return 0;
    }
    count := 0;
    var p := prices.value;
    if p.tcgplayer.Some? && TruthyInt(p.tcgplayer.value.listings) {
      count := count + p.tcgplayer.value.listings.value;
    }
    if p.cardmarket.Some? && TruthyInt(p.cardmarket.value.listings) {
      count := count + p.cardmarket.value.listings.value;
    }
  }

  // ---------------------------------------------------------------- sortedAndFilteredCards

  /** The fields of a fetched card the grid sorts on. */
  datatype GridCard = GridCard(name: string, rarity: string, setCode: string, setPosition: string, prices: Option<PriceRecord>)

  datatype SortMode = ByName | ByRarity | ByPrice | BySetRelease

  /** The `switch` on `filters.sort`: any unknown value sorts by set release. */
  function ParseSortMode(s: string): (m: SortMode)
    ensures s == "name" <==> m == ByName
    ensures s == "rarity" <==> m == ByRarity
    ensures s == "price" <==> m == ByPrice
  {
    if s == "name" then ByName else if s == "rarity" then ByRarity else if s == "price" then ByPrice else BySetRelease
  }

  /** Rank of a rarity in the grid's table; unknown rarities rank 0. */
  function RarityRank(r: string): (n: int)
    ensures 0 <= n <= 10
    ensures r == "COMMON" ==> n == 1
    ensures r == "STARFOIL_RARE" ==> n == 10
  {
    match r
    case "COMMON" => 1
    case "UNCOMMON" => 2
    case "RARE" => 3
    case "SUPER_RARE" => 4
    case "ULTRA_RARE" => 5
    case "SECRET_RARE" => 6
    case "ULTIMATE_RARE" => 7
    case "GHOST_RARE" => 8
    case "PRISMATIC_SECRET_RARE" => 9
    case "STARFOIL_RARE" => 10
    case _ => 0
  }

  predicate NameLe(a: GridCard, b: GridCard) { StrLe(a.name, b.name) }

  predicate RarityLe(a: GridCard, b: GridCard) { RarityRank(a.rarity) <= RarityRank(b.rarity) }

  /** Higher lowest price first. */
  predicate PriceLe(a: GridCard, b: GridCard) { LowestPrice(b.prices) <= LowestPrice(a.prices) }

  /** Set code first; within a set, the numeric value of the position (non-numeric counts as 0). */
  predicate SetReleaseLe(a: GridCard, b: GridCard) {
    if a.setCode != b.setCode then StrLe(a.setCode, b.setCode)
    else ParseIntOrZero(a.setPosition) <= ParseIntOrZero(b.setPosition)
  }

  /** `compare(a, b) <= 0` for the selected comparator. */
  function Comparator(mode: SortMode): (GridCard, GridCard) -> bool {
    match mode
    case ByName => NameLe
    case ByRarity => RarityLe
    case ByPrice => PriceLe
    case BySetRelease => SetReleaseLe
  }

  /** Every comparator of the grid is a total preorder, so sorting by it is well defined. */
  lemma ComparatorIsPreorder(mode: SortMode)
    ensures TotalPreorder(Comparator(mode))
  {
    match mode
    case ByName =>
      forall a: GridCard, b: GridCard ensures NameLe(a, b) || NameLe(b, a) {
        StrLeTotal(a.name, b.name);
      }
      forall a: GridCard, b: GridCard, c: GridCard | NameLe(a, b) && NameLe(b, c) ensures NameLe(a, c) {
        StrLeTransitive(a.name, b.name, c.name);
      }
    case ByRarity =>
    case ByPrice =>
    case BySetRelease =>
      forall a: GridCard, b: GridCard ensures SetReleaseLe(a, b) || SetReleaseLe(b, a) {
        StrLeTotal(a.setCode, b.setCode);
      }
      forall a: GridCard, b: GridCard, c: GridCard | SetReleaseLe(a, b) && SetReleaseLe(b, c)
        ensures SetReleaseLe(a, c)
      {
        SetReleaseTransitive(a, b, c);
      }
  }

  lemma SetReleaseTransitive(a: GridCard, b: GridCard, c: GridCard)
    requires SetReleaseLe(a, b) && SetReleaseLe(b, c)
    ensures SetReleaseLe(a, c)
  {
    if a.setCode != b.setCode && b.setCode != c.setCode {
      StrLeTransitive(a.setCode, b.setCode, c.setCode);
      if a.setCode == c.setCode {
        StrLeAntisymmetric(a.setCode, b.setCode);
      }
    }
  }

  /** A card listed before another of the same set has a position of no greater value. */
  lemma SameSetByPosition(a: GridCard, b: GridCard)
    requires a.setCode == b.setCode
    ensures SetReleaseLe(a, b) <==> ParseIntOrZero(a.setPosition) <= ParseIntOrZero(b.setPosition)
  {
  }

  /** The `sort` of the copied array: an insertion sort by adjacent swaps. */
  method SortInPlace<T(!new)>(a: array<T>, le: (T, T) -> bool)
    requires TotalPreorder(le)
    modifies a
    ensures Sorted(a[..], le)
    ensures multiset(a[..]) == multiset(old(a[..]))
  {
    var i := 0;
    while i < a.Length
      invariant 0 <= i <= a.Length
      invariant Sorted(a[..i], le)
      invariant multiset(a[..]) == multiset(old(a[..]))
    {
      InsertLast(a, i, le);
      i := i + 1;
    }
    assert a[..i] == a[..];
  }

  /** One pass of the insertion sort: `a[i]` is swapped down into the sorted prefix
      `a[..i]`, after which `a[..i + 1]` is sorted. */
  method InsertLast<T(!new)>(a: array<T>, i: int, le: (T, T) -> bool)
    requires TotalPreorder(le)
    requires 0 <= i < a.Length && Sorted(a[..i], le)
    modifies a
    ensures Sorted(a[..i + 1], le)
    ensures multiset(a[..]) == multiset(old(a[..]))
  {
    var j := i;
    while j > 0 && !le(a[j - 1], a[j])
      invariant 0 <= j <= i
      invariant forall p, q :: 0 <= p < q <= i && p != j && q != j ==> le(a[p], a[q])
      invariant forall q :: j < q <= i ==> le(a[j], a[q])
      invariant multiset(a[..]) == multiset(old(a[..]))
    {
      a[j - 1], a[j] := a[j], a[j - 1];
      j := j - 1;
    }
    forall p | 0 <= p < j ensures le(a[p], a[j]) {
      if p < j - 1 {
        assert le(a[p], a[j - 1]);
      }
    }
  }

  /** How many cards the grid keeps: a number from the per-page selector, or all. */
  datatype PerPage = All | Limit(n: nat)

  /** `sortedAndFilteredCards`: a copy of the fetched cards sorted by the selected
      comparator and, unless all are shown, cut to the page size. The fetched list
      is a value and is not changed. The result is sorted, every card it keeps
      sorts no later than every card it drops, and kept plus dropped cards are
      exactly the fetched ones. */
  method SortedAndFilteredCards(cards: seq<GridCard>, sort: string, perPage: PerPage)
    returns (r: seq<GridCard>, dropped: multiset<GridCard>)
    ensures Sorted(r, Comparator(ParseSortMode(sort)))
    ensures multiset(r) + dropped == multiset(cards)
    ensures perPage.All? ==> |r| == |cards| && dropped == multiset{}
    ensures perPage.Limit? ==> |r| == Min(perPage.n, |cards|)
    ensures forall x, y :: x in r && y in dropped ==> Comparator(ParseSortMode(sort))(x, y)
  {
    var le := Comparator(ParseSortMode(sort));
    ComparatorIsPreorder(ParseSortMode(sort));
    var filtered := new GridCard[|cards|](k requires 0 <= k < |cards| => cards[k]);
    assert filtered[..] == cards;
    SortInPlace(filtered, le);
    var sorted := filtered[..];
    var keep := if perPage.Limit? then Min(perPage.n, |sorted|) else |sorted|;
    r := sorted[..keep];
    dropped := multiset(sorted[keep..]);
    CutSorted(sorted, keep, le);
  }

  /** Cutting a sorted list keeps a sorted prefix, and every kept element sorts no
      later than every dropped one. */
  lemma CutSorted<T>(s: seq<T>, keep: int, le: (T, T) -> bool)
    requires Sorted(s, le) && 0 <= keep <= |s|
    ensures Sorted(s[..keep], le)
    ensures multiset(s[..keep]) + multiset(s[keep..]) == multiset(s)
    ensures forall x, y :: x in s[..keep] && y in multiset(s[keep..]) ==> le(x, y)
  {
    assert s == s[..keep] + s[keep..];
    forall x, y | x in s[..keep] && y in multiset(s[keep..]) ensures le(x, y) {
      var i :| 0 <= i < keep && s[i] == x;
      var j :| keep <= j < |s| && s[j] == y;
    }
  }
}
