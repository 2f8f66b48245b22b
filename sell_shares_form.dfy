/** The sell dialog of one lot (src/components/SellSharesForm.tsx): its default values, the
    live preview of the sale, the field rules and the submitted sale.

    The number inputs are optional numbers (None while empty). The date input is the
    sortable key of the entered date, None while empty; "today" is a parameter. */
module SellSharesForm {
  import opened Wrappers
  import opened PortfolioTypes
  import Storage = PortfolioStorage
  import Hook = UsePortfolio

  /** The form's fields as `watch` and `handleSubmit` see them. */
  datatype FormData = FormData(sharesSold: Option<real>, saleDate: Option<DateKey>, salePricePerShare: Option<real>)

  /** The price the dialog opens with: the current price when known and nonzero, else the
      lot's per-share cost. */
  function DefaultSalePrice(p: StockPosition): (r: real)
    ensures Truthy(p.currentPrice) ==> r == p.currentPrice.value
    ensures !Truthy(p.currentPrice) ==> r == p.purchasePricePerShare
  {
    OrElse(p.currentPrice, p.purchasePricePerShare)
  }

  /** The default values: no share count, today's date, the default price. */
  function DefaultValues(p: StockPosition, today: DateKey): (f: FormData)
    ensures f.sharesSold.None? && f.saleDate == Some(today)
    ensures f.salePricePerShare == Some(DefaultSalePrice(p))
  {
    FormData(None, Some(today), Some(DefaultSalePrice(p)))
  }

  /** The figures shown under the inputs. */
  datatype SalePreview = SalePreview(
    totalSaleAmount: real,
    costBasis: real,
    realizedGainLoss: real,
    realizedGainLossPercentage: real,
    isGain: bool)

  /** Lines 42-46: proceeds when both inputs are set and nonzero, the cost of the shares
      at the lot's per-share cost, their difference, that difference as a percentage of a
      positive cost, and whether it is not a loss. */
  function Preview(p: StockPosition, sharesSold: Option<real>, salePrice: Option<real>): (v: SalePreview)
    ensures Truthy(sharesSold) && Truthy(salePrice) ==> v.totalSaleAmount == sharesSold.value * salePrice.value
    ensures !(Truthy(sharesSold) && Truthy(salePrice)) ==> v.totalSaleAmount == 0.0
    ensures Truthy(sharesSold) ==> v.costBasis == sharesSold.value * p.purchasePricePerShare
    ensures !Truthy(sharesSold) ==> v.costBasis == 0.0 && v.realizedGainLoss == 0.0
    ensures v.realizedGainLoss == v.totalSaleAmount - v.costBasis
    ensures v.costBasis > 0.0 ==> v.realizedGainLossPercentage * v.costBasis == v.realizedGainLoss * 100.0
    ensures v.costBasis <= 0.0 ==> v.realizedGainLossPercentage == 0.0
    ensures v.isGain <==> v.realizedGainLoss >= 0.0
  {
    var total := if Truthy(sharesSold) && Truthy(salePrice) then sharesSold.value * salePrice.value else 0.0;
    var cost := if Truthy(sharesSold) then sharesSold.value * p.purchasePricePerShare else 0.0;
    var realized := total - cost;
    var percentage := if cost > 0.0 then (realized / cost) * 100.0 else 0.0;
    SalePreview(total, cost, realized, percentage, realized >= 0.0)
  }

  /** The field rules (lines 108-112, 131-134, 149): a share count in [0.001, shares]
      unless sell-all is checked, a price of at least 0.01, and a date. */
  predicate FieldsValid(p: StockPosition, f: FormData, sellAll: bool) {
    && (sellAll || (f.sharesSold.Some? && 0.001 <= f.sharesSold.value <= p.shares))
    && f.salePricePerShare.Some? && f.salePricePerShare.value >= 0.01
    && f.saleDate.Some?
  }

  /** onSubmit (reached only once the fields are valid): everything that remains when
      sell-all is checked, otherwise the entered count. */
  function Submit(p: StockPosition, f: FormData, sellAll: bool): (sale: Hook.SaleData)
    requires FieldsValid(p, f, sellAll)
    ensures sellAll ==> sale.sharesSold == p.shares
    ensures !sellAll ==> sale.sharesSold == f.sharesSold.value
    ensures sale.saleDate == f.saleDate.value && sale.salePricePerShare == f.salePricePerShare.value
  {
    Hook.SaleData(
      sharesSold := if sellAll then p.shares else f.sharesSold.value,
      saleDate := f.saleDate.value,
      salePricePerShare := f.salePricePerShare.value)
  }

  // ---------------------------------------------------------------------------
  // What the dialog promises
  // ---------------------------------------------------------------------------

  /** With no known price the dialog opens at the lot's own cost, so whatever count is
      entered the preview shows a break-even sale. */
  lemma DefaultPriceWithoutQuoteBreaksEven(p: StockPosition, today: DateKey, sharesSold: Option<real>)
    requires !Truthy(p.currentPrice)
    ensures var f := DefaultValues(p, today);
            Preview(p, sharesSold, f.salePricePerShare).realizedGainLoss == 0.0
    ensures Preview(p, sharesSold, DefaultValues(p, today).salePricePerShare).isGain
  {
    var v := Preview(p, sharesSold, DefaultValues(p, today).salePricePerShare);
    if Truthy(sharesSold) && p.purchasePricePerShare != 0.0 {
      assert v.totalSaleAmount == sharesSold.value * p.purchasePricePerShare;
    }
  }

  /** `(s * a) / (s * b) == a / b` for nonzero s and b. */
  lemma CancelCommonFactor(s: real, a: real, b: real)
    requires s != 0.0 && b != 0.0
    ensures (s * a) / (s * b) == a / b
  {
    var r := a / b;
    assert r * b == a;
    assert r * (s * b) == s * a;
  }

  /** For a count sold and a price both nonzero, the preview's realized figure is
      (price - cost) * count; the gain flag is set exactly when the price is at least the
      lot's per-share cost for a positive count. */
  lemma PreviewRealized(p: StockPosition, sharesSold: real, salePrice: real)
    requires sharesSold != 0.0 && salePrice != 0.0
    ensures Preview(p, Some(sharesSold), Some(salePrice)).realizedGainLoss
              == (salePrice - p.purchasePricePerShare) * sharesSold
    ensures sharesSold > 0.0 ==>
              (Preview(p, Some(sharesSold), Some(salePrice)).isGain <==> salePrice >= p.purchasePricePerShare)
  {
    var v := Preview(p, Some(sharesSold), Some(salePrice));
    assert v.realizedGainLoss == sharesSold * (salePrice - p.purchasePricePerShare);
    if sharesSold > 0.0 {
      if salePrice >= p.purchasePricePerShare {
        assert sharesSold * (salePrice - p.purchasePricePerShare) >= 0.0;
      } else {
        assert sharesSold * (p.purchasePricePerShare - salePrice) > 0.0;
      }
    }
  }

  /** When the cost is positive, the preview's percentage is the per-share gain over the
      per-share cost, which is the percentage the hook books (any `x` with
      x * cost = (price - cost) * 100). */
  lemma PreviewPercentage(p: StockPosition, sharesSold: real, salePrice: real, booked: real)
    requires sharesSold != 0.0 && salePrice != 0.0
    requires Preview(p, Some(sharesSold), Some(salePrice)).costBasis > 0.0
    requires booked * p.purchasePricePerShare == (salePrice - p.purchasePricePerShare) * 100.0
    ensures Preview(p, Some(sharesSold), Some(salePrice)).realizedGainLossPercentage == booked
  {
    var pps := p.purchasePricePerShare;
    var v := Preview(p, Some(sharesSold), Some(salePrice));
    PreviewRealized(p, sharesSold, salePrice);
    assert v.costBasis == sharesSold * pps;
    assert pps != 0.0;
    assert v.realizedGainLoss == sharesSold * (salePrice - pps);
    CancelCommonFactor(sharesSold, salePrice - pps, pps);
    assert v.realizedGainLossPercentage == ((salePrice - pps) / pps) * 100.0;
    assert booked == ((salePrice - pps) / pps) * 100.0;
  }

  /** A transaction with the booked figures for a count and a price of at least 0.01 and
      0.001 agrees with the preview of those entries. */
  lemma BookedAgreesWithPreview(p: StockPosition, tx: SellTransaction)
    requires tx.sharesSold >= 0.001 && tx.salePricePerShare >= 0.01
    requires tx.purchasePricePerShare == p.purchasePricePerShare
    requires tx.totalSaleAmount == tx.sharesSold * tx.salePricePerShare
    requires tx.realizedGainLoss == tx.totalSaleAmount - tx.purchasePricePerShare * tx.sharesSold
    requires tx.purchasePricePerShare != 0.0 ==>
               tx.realizedGainLossPercentage * tx.purchasePricePerShare
                 == (tx.salePricePerShare - tx.purchasePricePerShare) * 100.0
    ensures var v := Preview(p, Some(tx.sharesSold), Some(tx.salePricePerShare));
            && tx.totalSaleAmount == v.totalSaleAmount
            && tx.realizedGainLoss == v.realizedGainLoss
            && (v.costBasis > 0.0 ==> tx.realizedGainLossPercentage == v.realizedGainLossPercentage)
  {
    var v := Preview(p, Some(tx.sharesSold), Some(tx.salePricePerShare));
    PreviewRealized(p, tx.sharesSold, tx.salePricePerShare);
    if v.costBasis > 0.0 {
      assert tx.purchasePricePerShare != 0.0;
      PreviewPercentage(p, tx.sharesSold, tx.salePricePerShare, tx.realizedGainLossPercentage);
    }
  }

  /** The preview agrees with the sale the hook books for the same entries: a valid form
      without sell-all on a lot found by its id books a transaction with the preview's
      proceeds and realized figure, and with its percentage whenever the cost is positive. */
  lemma PreviewMatchesBookedSale(ps: seq<StockPosition>, positionId: string, f: FormData, txId: string)
    requires Storage.FindIndex(ps, positionId).Some?
    requires FieldsValid(ps[Storage.FindIndex(ps, positionId).value], f, false)
    ensures var p := ps[Storage.FindIndex(ps, positionId).value];
            var v := Preview(p, f.sharesSold, f.salePricePerShare);
            var r := Hook.BuildSellTransaction(ps, positionId, Submit(p, f, false), txId);
            && r.Ok?
            && r.value.totalSaleAmount == v.totalSaleAmount
            && r.value.realizedGainLoss == v.realizedGainLoss
            && (v.costBasis > 0.0 ==> r.value.realizedGainLossPercentage == v.realizedGainLossPercentage)
  {
    var p := ps[Storage.FindIndex(ps, positionId).value];
    var r := Hook.BuildSellTransaction(ps, positionId, Submit(p, f, false), txId);
    assert r.Ok?;
    BookedAgreesWithPreview(p, r.value);
  }

  /** A valid submission never oversells: the hook books it on the lot it was opened for,
      a count entered by hand is at least 0.001, and sell-all sells exactly what remains. */
  lemma ValidSubmissionBooks(ps: seq<StockPosition>, positionId: string, f: FormData, sellAll: bool, txId: string)
    requires Storage.FindIndex(ps, positionId).Some?
    requires FieldsValid(ps[Storage.FindIndex(ps, positionId).value], f, sellAll)
    ensures var p := ps[Storage.FindIndex(ps, positionId).value];
            var sale := Submit(p, f, sellAll);
            && Hook.BuildSellTransaction(ps, positionId, sale, txId).Ok?
            && Hook.SellShares(ps, positionId, sale, txId).Ok?
            && sale.sharesSold <= p.shares
            && (!sellAll ==> sale.sharesSold >= 0.001)
  {
  }

  /** Selling all of a lot that keeps the ledger invariant closes it and keeps the
      invariant: nothing remains and what its transactions sold is what was bought. */
  lemma SellAllClosesLot(ps: seq<StockPosition>, positionId: string, f: FormData, txId: string)
    requires Storage.FindIndex(ps, positionId).Some?
    requires FieldsValid(ps[Storage.FindIndex(ps, positionId).value], f, true)
    requires Storage.LotInvariant(ps[Storage.FindIndex(ps, positionId).value])
    ensures var p := ps[Storage.FindIndex(ps, positionId).value];
            var tx := Hook.BuildSellTransaction(ps, positionId, Submit(p, f, true), txId).value;
            var q := Storage.ApplySell(p, tx);
            && q.shares == 0.0
            && Storage.LotInvariant(q)
            && Storage.SumSold(q.sellTransactions) == q.originalShares
  {
    var p := ps[Storage.FindIndex(ps, positionId).value];
    var tx := Hook.BuildSellTransaction(ps, positionId, Submit(p, f, true), txId).value;
    Storage.SellPreservesInvariant(p, tx);
  }
}
