/** The price comparison table on a card's page: one row per print and source,
    with the yen quote converted at fixed rates. */
module PriceComparison {
  import opened Common
  import opened Prices

  /** What a table cell shows: a quoted number, the two-decimal text of a
      converted amount, the text 'N/A', or the text of a conversion of a missing
      number ('NaN'). */
  datatype PriceCell = Number(value: real) | Fixed(value: real) | NotAvailable | NotANumber

  datatype PriceRow = PriceRow(printName: string, source: string, usd: PriceCell, eur: PriceCell)

  const USD_PER_JPY: real := 0.0067
  const EUR_PER_JPY: real := 0.0062

  /** `convertJPYtoUSD`, before rounding to cents. */
  function ConvertJpyToUsd(jpy: Option<real>): (r: PriceCell)
    ensures jpy.None? <==> r == NotANumber
    ensures jpy.Some? ==> r == Fixed(jpy.value * USD_PER_JPY)
  {
    if jpy.None? then NotANumber else Fixed(jpy.value * USD_PER_JPY)
  }

  /** `convertJPYtoEUR`, before rounding to cents. */
  function ConvertJpyToEur(jpy: Option<real>): (r: PriceCell)
    ensures jpy.None? <==> r == NotANumber
    ensures jpy.Some? ==> r == Fixed(jpy.value * EUR_PER_JPY)
  {
    if jpy.None? then NotANumber else Fixed(jpy.value * EUR_PER_JPY)
  }

  /** Both conversions scale the same yen amount: the dollar figure is 67/62 of the euro figure,
      and a dearer card converts to a dearer amount in both currencies. */
  lemma ConversionsAgree(jpy: real, other: real)
    ensures ConvertJpyToUsd(Some(jpy)).value * 62.0 == ConvertJpyToEur(Some(jpy)).value * 67.0
    ensures jpy <= other ==> ConvertJpyToUsd(Some(jpy)).value <= ConvertJpyToUsd(Some(other)).value
    ensures jpy <= other ==> ConvertJpyToEur(Some(jpy)).value <= ConvertJpyToEur(Some(other)).value
  {
  }

  /** `a || b || 'N/A'` on two optional quotes. */
  function EitherOrNotAvailable(a: Option<real>, b: Option<real>): (r: PriceCell)
    ensures TruthyReal(a) ==> r == Number(a.value)
    ensures !TruthyReal(a) && TruthyReal(b) ==> r == Number(b.value)
    ensures r == NotAvailable <==> !TruthyReal(a) && !TruthyReal(b)
  {
    if TruthyReal(a) then Number(a.value) else if TruthyReal(b) then Number(b.value) else NotAvailable
  }

  function TcgStandardRow(t: TcgPlayer): PriceRow {
    PriceRow("Standard", "TCGplayer", EitherOrNotAvailable(t.market, t.mid), NotAvailable)
  }

  function TcgAlternativeRow(alt: AlternativePrint): PriceRow {
    PriceRow("Alternative Print", "TCGplayer", EitherOrNotAvailable(alt.market, None), NotAvailable)
  }

  function CardmarketRow(c: Cardmarket): PriceRow {
    PriceRow("Standard", "Cardmarket", NotAvailable, EitherOrNotAvailable(c.averagePrice, c.lowPrice))
  }

  function YuyuteiRow(y: Yuyutei): PriceRow {
    PriceRow("Standard", "Yuyu-tei", ConvertJpyToUsd(y.price), ConvertJpyToEur(y.price))
  }

  /** Number of TCGplayer rows: the standard print and, when quoted, the alternative print. */
  function TcgRowCount(p: PriceRecord): (n: nat)
    ensures n <= 2
    ensures n == 0 <==> p.tcgplayer.None?
  {
    if p.tcgplayer.None? then 0 else if p.tcgplayer.value.alternativePrint.Some? then 2 else 1
  }

  /** The `priceRows` pushes: TCGplayer rows first, then Cardmarket, then Yuyu-tei,
      each present exactly when its source is; an empty table is the
      "No pricing data available" branch. */
  method PriceRows(p: PriceRecord) returns (rows: seq<PriceRow>)
    ensures |rows| == TcgRowCount(p) + (if p.cardmarket.Some? then 1 else 0) + (if p.yuyutei.Some? then 1 else 0)
    ensures rows == [] <==> p.tcgplayer.None? && p.cardmarket.None? && p.yuyutei.None?
    ensures p.tcgplayer.Some? ==> rows[0] == TcgStandardRow(p.tcgplayer.value)
    ensures p.tcgplayer.Some? && p.tcgplayer.value.alternativePrint.Some? ==>
      rows[1] == TcgAlternativeRow(p.tcgplayer.value.alternativePrint.value)
    ensures p.cardmarket.Some? ==> rows[TcgRowCount(p)] == CardmarketRow(p.cardmarket.value)
    ensures p.yuyutei.Some? ==> rows[|rows| - 1] == YuyuteiRow(p.yuyutei.value)
    ensures forall k :: 0 <= k < TcgRowCount(p) ==> rows[k].source == "TCGplayer" && rows[k].eur == NotAvailable
  {
    rows := [];
    if p.tcgplayer.Some? {
      rows := rows + [TcgStandardRow(p.tcgplayer.value)];
      if p.tcgplayer.value.alternativePrint.Some? {
        rows := rows + [TcgAlternativeRow(p.tcgplayer.value.alternativePrint.value)];
      }
    }
    if p.cardmarket.Some? {
      rows := rows + [CardmarketRow(p.cardmarket.value)];
    }
    if p.yuyutei.Some? {
      rows := rows + [YuyuteiRow(p.yuyutei.value)];
    }
  }
}
