/** The list operations of the portfolio hook (src/hooks/usePortfolio.ts): creating,
    replacing and deleting lots, building and applying a sell transaction, and applying
    fetched prices in `refreshPrices`. The hook's `positions` state and the stored list are
    one list here; each operation returns the hook's new list. Fresh ids (`randomUUID`)
    and the formatted refresh time are parameters. */
module UsePortfolio {
  import opened Wrappers
  import opened PortfolioTypes
  import Storage = PortfolioStorage
  import Api = FinnhubApi

  // ---------------------------------------------------------------------------
  // addPosition
  // ---------------------------------------------------------------------------

  /** What `addPosition` receives: a lot without id, per-share cost, original share
      count, transactions and realized figure. */
  datatype PositionData = PositionData(
    ticker: string,
    companyName: Option<string>,
    shares: real,
    totalPurchasePrice: real,
    purchaseDate: string,
    currentPrice: Option<real>,
    currentValue: Option<real>,
    unrealizedGainLoss: Option<real>,
    unrealizedGainLossPercentage: Option<real>,
    lastUpdated: Option<string>)

  /** Lines 73-80: the new lot. */
  function NewLot(data: PositionData, id: string): (p: StockPosition)
    ensures p.id == id && p.ticker == data.ticker && p.companyName == data.companyName
    ensures p.shares == data.shares == p.originalShares
    ensures p.totalPurchasePrice == data.totalPurchasePrice && p.purchaseDate == data.purchaseDate
    ensures data.shares != 0.0 ==> p.purchasePricePerShare * p.shares == p.totalPurchasePrice
    ensures p.sellTransactions == [] && p.realizedGainLoss == Some(0.0)
    ensures p.currentPrice == data.currentPrice && p.currentValue == data.currentValue
    ensures p.unrealizedGainLoss == data.unrealizedGainLoss
    ensures p.unrealizedGainLossPercentage == data.unrealizedGainLossPercentage
    ensures p.lastUpdated == data.lastUpdated
  {
    StockPosition(
      id := id,
      ticker := data.ticker,
      companyName := data.companyName,
      shares := data.shares,
      originalShares := data.shares,
      totalPurchasePrice := data.totalPurchasePrice,
      purchaseDate := data.purchaseDate,
      purchasePricePerShare := Div(data.totalPurchasePrice, data.shares),
      currentPrice := data.currentPrice,
      currentValue := data.currentValue,
      unrealizedGainLoss := data.unrealizedGainLoss,
      unrealizedGainLossPercentage := data.unrealizedGainLossPercentage,
      realizedGainLoss := Some(0.0),
      lastUpdated := data.lastUpdated,
      sellTransactions := [])
  }

  /** Appends exactly one lot; the earlier lots are unchanged. */
  function AddPosition(ps: seq<StockPosition>, data: PositionData, id: string): (r: seq<StockPosition>)
    ensures |r| == |ps| + 1 && r[..|ps|] == ps && r[|ps|] == NewLot(data, id)
  {
    ps + [NewLot(data, id)]
  }

  /** A new lot starts the ledger invariant: nothing sold, nothing realized. */
  lemma NewLotInvariant(data: PositionData, id: string)
    requires data.shares >= 0.0
    ensures Storage.LotInvariant(NewLot(data, id))
  {
  }

  /** A new lot with positive shares and total (no current figures that are zero) survives
      a save and re-load unchanged, so the hook's list and the stored list stay equal. */
  lemma AddKeepsStorageInStep(ps: seq<StockPosition>, data: PositionData, id: string)
    requires forall p | p in ps :: Storage.Canonical(p)
    requires data.shares > 0.0 && data.totalPurchasePrice > 0.0
    requires data.unrealizedGainLoss != Some(0.0) && data.unrealizedGainLossPercentage != Some(0.0)
    ensures Storage.LoadPositions(Storage.Save(AddPosition(ps, data, id))) == AddPosition(ps, data, id)
  {
    var r := AddPosition(ps, data, id);
    var p := NewLot(data, id);
    assert p.purchasePricePerShare != 0.0 by {
      assert p.purchasePricePerShare * p.shares == p.totalPurchasePrice;
    }
    assert forall q | q in r :: q in ps || q == p;
    Storage.LoadSaveRoundTrip(r);
  }

  // ---------------------------------------------------------------------------
  // updatePosition and deletePosition
  // ---------------------------------------------------------------------------

  /** Lines 88-90: every lot with the id is replaced; all others stay, in order. */
  function UpdatePosition(ps: seq<StockPosition>, p: StockPosition): (r: seq<StockPosition>)
    ensures |r| == |ps|
    ensures forall k | 0 <= k < |ps| :: r[k] == if ps[k].id == p.id then p else ps[k]
  {
    seq(|ps|, k requires 0 <= k < |ps| => if ps[k].id == p.id then p else ps[k])
  }

  predicate UniqueIds(ps: seq<StockPosition>) {
    forall k, l | 0 <= k < l < |ps| :: ps[k].id != ps[l].id
  }

  /** With unique ids the hook's replace-all and the storage's replace-first agree. */
  lemma UpdateMatchesStorage(ps: seq<StockPosition>, p: StockPosition)
    requires UniqueIds(ps)
    ensures UpdatePosition(ps, p) == Storage.UpdateFirst(ps, p)
  {
  }

  /** How many lots carry the id. */
  function IdCount(ps: seq<StockPosition>, id: string): nat {
    if ps == [] then 0 else IdCount(ps[..|ps| - 1], id) + (if ps[|ps| - 1].id == id then 1 else 0)
  }

  /** Lines 94-95 (the same filter the storage applies): a lot survives the deletion exactly
      when it was there and carries another id. */
  lemma {:induction false} DeleteRemovesExactly(ps: seq<StockPosition>, id: string)
    ensures forall q :: q in Storage.WithoutId(ps, id) <==> q in ps && q.id != id
  {
    if ps != [] {
      var init := ps[..|ps| - 1];
      var last := ps[|ps| - 1];
      var tail := if last.id == id then [] else [last];
      DeleteRemovesExactly(init, id);
      assert ps == init + [last];
      assert Storage.WithoutId(ps, id) == Storage.WithoutId(init, id) + tail;
      forall q
        ensures q in Storage.WithoutId(ps, id) <==> q in ps && q.id != id
      {
        assert q in Storage.WithoutId(ps, id) <==> q in Storage.WithoutId(init, id) || q in tail;
        assert q in ps <==> q in init || q == last;
      }
    }
  }

  /** The deletion shortens the list by the number of lots with the id, and an absent id
      changes nothing. */
  lemma {:induction false} DeleteCount(ps: seq<StockPosition>, id: string)
    ensures |Storage.WithoutId(ps, id)| == |ps| - IdCount(ps, id)
    ensures IdCount(ps, id) == 0 ==> Storage.WithoutId(ps, id) == ps
  {
    if ps != [] {
      var init := ps[..|ps| - 1];
      DeleteCount(init, id);
      assert ps == init + [ps[|ps| - 1]];
    }
  }

  // ---------------------------------------------------------------------------
  // sellShares
  // ---------------------------------------------------------------------------

  /** The form's sale: shares sold, the sale date as a sortable key, the price. */
  datatype SaleData = SaleData(sharesSold: real, saleDate: DateKey, salePricePerShare: real)

  datatype SellError = PositionNotFound | Oversell

  /** Lines 103-123: find the lot (first match), refuse an oversell, and book the sale at
      the lot's current per-share cost. */
  function BuildSellTransaction(ps: seq<StockPosition>, positionId: string, sale: SaleData, txId: string)
    : (r: Result<SellTransaction, SellError>)
    ensures Storage.FindIndex(ps, positionId).None? <==> r == Err(PositionNotFound)
    ensures Storage.FindIndex(ps, positionId).Some? ==>
              (r == Err(Oversell) <==> sale.sharesSold > ps[Storage.FindIndex(ps, positionId).value].shares)
    ensures r.Ok? ==>
              var lot := ps[Storage.FindIndex(ps, positionId).value];
              var tx := r.value;
              && tx.id == txId && tx.positionId == positionId && tx.ticker == lot.ticker
              && tx.sharesSold == sale.sharesSold && tx.saleDate == sale.saleDate
              && tx.salePricePerShare == sale.salePricePerShare
              && tx.totalSaleAmount == sale.sharesSold * sale.salePricePerShare
              && tx.purchasePricePerShare == lot.purchasePricePerShare
              && tx.realizedGainLoss == tx.totalSaleAmount - tx.purchasePricePerShare * tx.sharesSold
              && (tx.purchasePricePerShare != 0.0 ==>
                    tx.realizedGainLossPercentage * tx.purchasePricePerShare
                      == (tx.salePricePerShare - tx.purchasePricePerShare) * 100.0)
  {
    match Storage.FindIndex(ps, positionId)
    case None => Err(PositionNotFound)
    case Some(k) =>
      var position := ps[k];
      if sale.sharesSold > position.shares then Err(Oversell)
      else
        var pps := position.purchasePricePerShare;
        var tx := SellTransaction(
          id := txId,
          positionId := positionId,
          ticker := position.ticker,
          sharesSold := sale.sharesSold,
          saleDate := sale.saleDate,
          salePricePerShare := sale.salePricePerShare,
          totalSaleAmount := sale.sharesSold * sale.salePricePerShare,
          purchasePricePerShare := pps,
          realizedGainLoss := (sale.salePricePerShare - pps) * sale.sharesSold,
          realizedGainLossPercentage := Div(sale.salePricePerShare - pps, pps) * 100.0);
        DivTimes(sale.salePricePerShare - pps, pps);
        Ok(tx)
  }

  /** Lines 125-130: the storage books the sale on its first lot with the id and returns
      the updated lot, which the hook puts in place of every lot with that id. */
  function SellShares(ps: seq<StockPosition>, positionId: string, sale: SaleData, txId: string)
    : (r: Result<seq<StockPosition>, SellError>)
    ensures BuildSellTransaction(ps, positionId, sale, txId).Err? ==>
              r == Err(BuildSellTransaction(ps, positionId, sale, txId).error)
    ensures BuildSellTransaction(ps, positionId, sale, txId).Ok? ==> r.Ok?
    ensures r.Ok? ==>
              var k := Storage.FindIndex(ps, positionId).value;
              var sold := Storage.ApplySell(ps[k], BuildSellTransaction(ps, positionId, sale, txId).value);
              |r.value| == |ps| &&
              forall l | 0 <= l < |ps| :: r.value[l] == if ps[l].id == positionId then sold else ps[l]
  {
    match BuildSellTransaction(ps, positionId, sale, txId)
    case Err(e) => Err(e)
    case Ok(tx) =>
      var k := Storage.FindIndex(ps, positionId).value;
      var updated := Storage.ApplySell(ps[k], tx);
      Ok(seq(|ps|, l requires 0 <= l < |ps| => if ps[l].id == positionId then updated else ps[l]))
  }

  /** With unique ids the hook's list after a sale is what the storage saves, and the sold
      lot keeps the ledger invariant while every other lot is unchanged. */
  lemma SellMatchesStorage(ps: seq<StockPosition>, positionId: string, sale: SaleData, txId: string)
    requires UniqueIds(ps)
    requires SellShares(ps, positionId, sale, txId).Ok?
    ensures var k := Storage.FindIndex(ps, positionId).value;
            var tx := BuildSellTransaction(ps, positionId, sale, txId).value;
            && SellShares(ps, positionId, sale, txId).value == ps[k := Storage.ApplySell(ps[k], tx)]
            && (Storage.LotInvariant(ps[k]) ==> Storage.LotInvariant(Storage.ApplySell(ps[k], tx)))
  {
    var k := Storage.FindIndex(ps, positionId).value;
    var tx := BuildSellTransaction(ps, positionId, sale, txId).value;
    if Storage.LotInvariant(ps[k]) {
      Storage.SellPreservesInvariant(ps[k], tx);
    }
  }

  // ---------------------------------------------------------------------------
  // refreshPrices
  // ---------------------------------------------------------------------------

  /** Lines 143-156: a lot re-priced at quote c; only the current and unrealized figures and
      the refresh time change. */
  function ApplyQuote(p: StockPosition, c: real, stamp: string): (q: StockPosition)
    ensures q.currentPrice == Some(c) && q.currentValue == Some(c * p.shares)
    ensures q.unrealizedGainLoss == Some(c * p.shares - p.purchasePricePerShare * p.shares)
    ensures q.unrealizedGainLossPercentage.Some?
    ensures p.purchasePricePerShare * p.shares != 0.0 ==>
              q.unrealizedGainLossPercentage.value * (p.purchasePricePerShare * p.shares)
                == q.unrealizedGainLoss.value * 100.0
    ensures q.lastUpdated == Some(stamp)
    ensures q.(currentPrice := p.currentPrice, currentValue := p.currentValue,
               unrealizedGainLoss := p.unrealizedGainLoss,
               unrealizedGainLossPercentage := p.unrealizedGainLossPercentage,
               lastUpdated := p.lastUpdated) == p
  {
    var currentValue := c * p.shares;
    var costBasis := p.purchasePricePerShare * p.shares;
    var unrealized := currentValue - costBasis;
    DivTimes(unrealized, costBasis);
    p.(currentPrice := Some(c),
       currentValue := Some(currentValue),
       unrealizedGainLoss := Some(unrealized),
       unrealizedGainLossPercentage := Some(Div(unrealized, costBasis) * 100.0),
       lastUpdated := Some(stamp))
  }

  /** What `Promise.allSettled` reports for one position's task. */
  datatype Settlement = Fulfilled(value: StockPosition) | Rejected

  /** Lines 141-163: the task for one position. Its own catch returns the position
      unchanged when the quote could not be had, so the task never rejects. */
  function Settle(p: StockPosition, quote: Option<real>, stamp: string): Settlement {
    match quote
    case Some(c) => Fulfilled(ApplyQuote(p, c, stamp))
    case None => Fulfilled(p)
  }

  function FulfilledValues(ss: seq<Settlement>): seq<StockPosition> {
    if ss == [] then []
    else FulfilledValues(ss[..|ss| - 1]) + (if ss[|ss| - 1].Fulfilled? then [ss[|ss| - 1].value] else [])
  }

  function RejectedCount(ss: seq<Settlement>): nat {
    if ss == [] then 0 else RejectedCount(ss[..|ss| - 1]) + (if ss[|ss| - 1].Rejected? then 1 else 0)
  }

  /** How many quotes could not be had. */
  function MissingCount(quotes: seq<Option<real>>): nat {
    if quotes == [] then 0 else MissingCount(quotes[..|quotes| - 1]) + (if quotes[|quotes| - 1].None? then 1 else 0)
  }

  datatype Refresh = Skipped | Refreshed(positions: seq<StockPosition>, failures: nat)

  /** refreshPrices, with `quotes[k]` the outcome of the k-th position's `getQuote`. An
      empty list is left alone; otherwise the fulfilled values become the new list and the
      rejected tasks are counted for the error message. */
  function RefreshPrices(ps: seq<StockPosition>, quotes: seq<Option<real>>, stamp: string): (r: Refresh)
    requires |quotes| == |ps|
    ensures ps == [] <==> r.Skipped?
  {
    if ps == [] then Skipped
    else
      var settled := seq(|ps|, k requires 0 <= k < |ps| => Settle(ps[k], quotes[k], stamp));
      Refreshed(FulfilledValues(settled), RejectedCount(settled))
  }

  lemma {:induction false} AllFulfilled(ss: seq<Settlement>)
    requires forall k | 0 <= k < |ss| :: ss[k].Fulfilled?
    ensures FulfilledValues(ss) == seq(|ss|, k requires 0 <= k < |ss| => ss[k].value)
    ensures RejectedCount(ss) == 0
  {
    if ss != [] {
      AllFulfilled(ss[..|ss| - 1]);
    }
  }

  /** The refreshed list has the same length and order; a position with a quote is
      re-priced, one without is kept as it was. */
  lemma RefreshKeepsPositions(ps: seq<StockPosition>, quotes: seq<Option<real>>, stamp: string)
    requires |quotes| == |ps| && ps != []
    ensures var r := RefreshPrices(ps, quotes, stamp);
            && |r.positions| == |ps|
            && forall k | 0 <= k < |ps| ::
                 r.positions[k] == if quotes[k].Some? then ApplyQuote(ps[k], quotes[k].value, stamp) else ps[k]
  {
    var settled := seq(|ps|, k requires 0 <= k < |ps| => Settle(ps[k], quotes[k], stamp));
    AllFulfilled(settled);
  }

  /** As written, the failure count is always zero, even when every quote failed. */
  lemma RefreshNeverReportsFailures(ps: seq<StockPosition>, quotes: seq<Option<real>>, stamp: string)
    requires |quotes| == |ps| && ps != []
    ensures RefreshPrices(ps, quotes, stamp).failures == 0
  {
    var settled := seq(|ps|, k requires 0 <= k < |ps| => Settle(ps[k], quotes[k], stamp));
    AllFulfilled(settled);
  }

  /** One lot whose quote failed: one position was not updated, yet no failure is reported. */
  lemma OneFailedQuoteGoesUnreported(p: StockPosition, stamp: string)
    ensures MissingCount([None]) == 1
    ensures RefreshPrices([p], [None], stamp).failures == 0
  {
    var quotes: seq<Option<real>> := [None];
    assert quotes[..0] == [];
    RefreshNeverReportsFailures([p], [None], stamp);
  }

  /** The refresh as evidently intended: the same list, with the positions whose quote
      failed counted as failures. */
  function RefreshPricesReporting(ps: seq<StockPosition>, quotes: seq<Option<real>>, stamp: string): (r: Refresh)
    requires |quotes| == |ps|
    ensures ps == [] <==> r.Skipped?
  {
    match RefreshPrices(ps, quotes, stamp)
    case Skipped => Skipped
    case Refreshed(updated, _) => Refreshed(updated, MissingCount(quotes))
  }

  lemma {:induction false} MissingCountPositive(quotes: seq<Option<real>>)
    ensures MissingCount(quotes) > 0 <==> exists k :: 0 <= k < |quotes| && quotes[k].None?
  {
    if quotes != [] {
      var init := quotes[..|quotes| - 1];
      MissingCountPositive(init);
      if exists k :: 0 <= k < |quotes| && quotes[k].None? {
        var k :| 0 <= k < |quotes| && quotes[k].None?;
        if k < |init| { assert init[k].None?; }
      }
      if exists k :: 0 <= k < |init| && init[k].None? {
        var k :| 0 <= k < |init| && init[k].None?;
        assert quotes[k].None?;
      }
    }
  }

  /** The corrected refresh reports a failure exactly when some position's quote failed,
      and keeps the list the source produces. */
  lemma ReportingCountsFailures(ps: seq<StockPosition>, quotes: seq<Option<real>>, stamp: string)
    requires |quotes| == |ps| && ps != []
    ensures RefreshPricesReporting(ps, quotes, stamp).positions == RefreshPrices(ps, quotes, stamp).positions
    ensures RefreshPricesReporting(ps, quotes, stamp).failures > 0 <==>
              exists k :: 0 <= k < |ps| && quotes[k].None?
  {
    MissingCountPositive(quotes);
  }

  function CountSome(quotes: seq<Option<real>>): nat {
    if quotes == [] then 0 else CountSome(quotes[..|quotes| - 1]) + (if quotes[|quotes| - 1].Some? then 1 else 0)
  }

  /** The fan-out of line 141: one `getQuote` per position, in list order, each passing
      the limiter first, all at the instant `now`. `deliveries[k]` is what the k-th request
      would bring back. The k-th quote is obtained exactly when fewer than k requests had
      used up what the limiter had left and the k-th delivery is an accepted quote, and it
      is that delivery's price; the limiter ends where |ps| checks at `now` take it. */
  method FetchQuotes(api: Api.FinnhubClient, ps: seq<StockPosition>, now: int, deliveries: seq<Api.Delivery>)
    returns (quotes: seq<Option<real>>)
    requires api.Valid() && |deliveries| == |ps|
    modifies api
    ensures api.Valid()
    ensures api.Window() == Api.Run(old(api.Window()), Api.Repeat(now, |ps|)).0
    ensures |quotes| == |ps|
    ensures forall k | 0 <= k < |quotes| ::
              quotes[k].Some? <==> k < old(api.RemainingRequests(now)) && Api.AcceptedQuote(deliveries[k])
    ensures forall k | 0 <= k < |quotes| ::
              quotes[k].Some? ==> deliveries[k].Body? && deliveries[k].c.Some? && quotes[k].value == deliveries[k].c.value
    ensures forall k | 0 <= k < |quotes| :: quotes[k].Some? ==> quotes[k].value > 0.0
    ensures CountSome(quotes) <= old(api.RemainingRequests(now))
  {
    ghost var w0 := api.Window();
    ghost var left := api.RemainingRequests(now);
    quotes := [];
    var i := 0;
    while i < |ps|
      invariant 0 <= i <= |ps| && |quotes| == i
      invariant api.Valid()
      invariant api.Window() == Api.Run(w0, Api.Repeat(now, i)).0
      invariant api.RemainingRequests(now) == if i <= left then left - i else 0
      invariant forall k | 0 <= k < i ::
                  (quotes[k].Some? <==> k < left && Api.AcceptedQuote(deliveries[k]))
                  && (quotes[k].Some? ==> quotes[k].value == deliveries[k].c.value)
      invariant CountSome(quotes) + api.RemainingRequests(now) <= left
    {
      ghost var before := api.Window();
      Api.CheckConsumesOne(before, now);
      var r := api.GetQuote(now, now, deliveries[i]);
      var quote := if r.Ok? then Some(r.value) else None;
      assert (quotes + [quote])[..i] == quotes;
      Api.RunRepeatStep(w0, now, i);
      quotes := quotes + [quote];
      i := i + 1;
    }
  }

  // ---------------------------------------------------------------------------
  // A worked example
  // ---------------------------------------------------------------------------

  /** 100 shares bought for 1500 cost 15 a share; selling 40 at 20 realizes 200; the 60
      left re-priced at 18 are worth 1080, 180 (20%) above their cost. */
  lemma WorkedExample(data: PositionData, id: string, txId: string, stamp: string)
    requires data.shares == 100.0 && data.totalPurchasePrice == 1500.0
    ensures var lot := NewLot(data, id);
            var sale := SaleData(40.0, 0, 20.0);
            var tx := BuildSellTransaction([lot], id, sale, txId).value;
            var sold := Storage.ApplySell(lot, tx);
            var priced := ApplyQuote(sold, 18.0, stamp);
            && lot.purchasePricePerShare == 15.0
            && tx.realizedGainLoss == 200.0
            && sold.shares == 60.0 && sold.realizedGainLoss == Some(200.0)
            && priced.currentValue == Some(1080.0)
            && priced.unrealizedGainLoss == Some(180.0)
            && priced.unrealizedGainLossPercentage == Some(20.0)
  {
    var lot := NewLot(data, id);
    assert lot.purchasePricePerShare == 15.0;
    assert Storage.FindIndex([lot], id) == Some(0);
  }
}
