/** The record shapes of the portfolio tracker (src/types/portfolio.ts) and the two
    pieces of JavaScript number semantics the ledger relies on. */
module PortfolioTypes {
  import opened Wrappers

  /** A sale date, as the time value `new Date(saleDate).getTime()` that the history sort compares. */
  type DateKey = int

  /** One sale booked against a lot; never changed once appended. */
  datatype SellTransaction = SellTransaction(
    id: string,
    positionId: string,
    ticker: string,
    sharesSold: real,
    saleDate: DateKey,
    salePricePerShare: real,
    totalSaleAmount: real,
    purchasePricePerShare: real,   // the lot's per-share cost at the time of the sale
    realizedGainLoss: real,
    realizedGainLossPercentage: real)

  /** One purchase lot. `shares` is what remains after sales, `originalShares` what was bought. */
  datatype StockPosition = StockPosition(
    id: string,
    ticker: string,
    companyName: Option<string>,
    shares: real,
    originalShares: real,
    totalPurchasePrice: real,
    purchaseDate: string,
    purchasePricePerShare: real,
    currentPrice: Option<real>,
    currentValue: Option<real>,
    unrealizedGainLoss: Option<real>,
    unrealizedGainLossPercentage: Option<real>,
    realizedGainLoss: Option<real>,
    lastUpdated: Option<string>,
    sellTransactions: seq<SellTransaction>)

  /** All lots of one ticker with their summed figures. */
  datatype TickerGroup = TickerGroup(
    ticker: string,
    companyName: Option<string>,
    positions: seq<StockPosition>,
    totalShares: real,
    totalCost: real,
    totalCurrentValue: real,
    totalUnrealizedGainLoss: real,
    totalRealizedGainLoss: real,
    averagePurchasePrice: real,
    currentPrice: Option<real>)

  /** Portfolio-wide sums. */
  datatype Portfolio = Portfolio(
    positions: seq<StockPosition>,
    totalValue: real,
    totalCost: real,
    totalUnrealizedGainLoss: real,
    totalRealizedGainLoss: real,
    totalGainLoss: real,
    totalGainLossPercentage: real)

  /** JavaScript truthiness of an optional number: present and not zero. */
  predicate Truthy(o: Option<real>) {
    o.Some? && o.value != 0.0
  }

  /** JavaScript `a || b` on an optional number: `b` when `a` is absent or zero. */
  function OrElse(a: Option<real>, b: real): real {
    if Truthy(a) then a.value else b
  }

  /** JavaScript `a || b` where both sides are optional numbers. */
  function OrElseOpt(a: Option<real>, b: Option<real>): Option<real> {
    if Truthy(a) then a else b
  }

  /** Division as the ledger uses it. Where JavaScript divides by zero it produces
      Infinity or NaN; this model yields 0 there, and every property that depends on a
      quotient is stated under a nonzero denominator. */
  function Div(a: real, b: real): real {
    if b == 0.0 then 0.0 else a / b
  }

  /** `Div(a, b) * b == a` for b != 0. */
  lemma DivTimes(a: real, b: real)
    ensures b != 0.0 ==> Div(a, b) * b == a
  {
  }
}
