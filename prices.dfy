/** The `prices` record a card carries on the client: optional quotes from
    TCGplayer and Cardmarket (in their currencies) and from Yuyu-tei (in yen).
    Every number may be absent; JavaScript treats an absent or zero number as false. */
module Prices {
  import opened Common

  datatype AlternativePrint = AlternativePrint(market: Option<real>)

  datatype TcgPlayer = TcgPlayer(
    market: Option<real>,
    low: Option<real>,
    mid: Option<real>,
    listings: Option<int>,
    alternativePrint: Option<AlternativePrint>)

  datatype Cardmarket = Cardmarket(averagePrice: Option<real>, lowPrice: Option<real>, listings: Option<int>)

  datatype Yuyutei = Yuyutei(price: Option<real>)

  datatype PriceRecord = PriceRecord(tcgplayer: Option<TcgPlayer>, cardmarket: Option<Cardmarket>, yuyutei: Option<Yuyutei>)

  /** `x || y` on optional numbers. */
  function FirstTruthy(x: Option<real>, y: Option<real>): (r: Option<real>)
    ensures TruthyReal(x) ==> r == x
    ensures !TruthyReal(x) ==> r == y
  {
    if TruthyReal(x) then x else y
  }
}
