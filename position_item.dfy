/** One row of the positions table (src/components/PositionItem.tsx): the lot-edit rule
    behind the save button, the cancel of an edit, and the row's display predicates.

    The row's `editData` and `isEditing` state are fields of a `PositionRow`, and so is
    the position it shows: the parents keep one row mounted while its lot changes (after a
    sale or a saved edit), and a new position reaches the row without touching the edit
    buffer, which only the row's creation and a cancel fill from the lot. What `onUpdate`
    does with the edited lot is the hook's `updatePosition` (UsePortfolio.UpdatePosition). */
module PositionItem {
  import opened Wrappers
  import opened PortfolioTypes
  import Storage = PortfolioStorage

  /** The edit buffer: the three fields the edit row lets the user change. */
  datatype EditData = EditData(shares: real, totalPurchasePrice: real, purchaseDate: string)

  /** The buffer filled from a lot, as at the row's creation and after a cancel. */
  function EditBuffer(p: StockPosition): (e: EditData)
    ensures e.shares == p.shares && e.totalPurchasePrice == p.totalPurchasePrice
    ensures e.purchaseDate == p.purchaseDate
  {
    EditData(p.shares, p.totalPurchasePrice, p.purchaseDate)
  }

  /** The save button is enabled unless the edited share count or total is not positive. */
  predicate CanSave(e: EditData) {
    !(e.shares <= 0.0 || e.totalPurchasePrice <= 0.0)
  }

  /** `isClosed`: nothing left of the lot. */
  predicate IsClosed(p: StockPosition) {
    p.shares == 0.0
  }

  /** The sell action is offered only while shares remain. */
  predicate CanSell(p: StockPosition) {
    p.shares > 0.0
  }

  /** `hasCurrentData`: a price has been fetched for the lot. */
  predicate HasCurrentData(p: StockPosition) {
    p.currentPrice.Some?
  }

  /** The per-share cost shown under the edited total: total / shares while the edited
      share count is positive, 0 otherwise. */
  function PerSharePreview(e: EditData): (r: real)
    ensures e.shares > 0.0 ==> r * e.shares == e.totalPurchasePrice
    ensures e.shares <= 0.0 ==> r == 0.0
    ensures CanSave(e) ==> r > 0.0
  {
    if e.shares > 0.0 then e.totalPurchasePrice / e.shares else 0.0
  }

  /** The lot `handleSave` hands to `onUpdate`: the three edited fields, the per-share cost
      recomputed from them, `originalShares` kept (or taken from the share count when it is
      0), and, when a nonzero current price is known, the current value and the unrealized
      figures recomputed for the new share count. Nothing else changes. */
  function EditedLot(p: StockPosition, e: EditData): (q: StockPosition)
    ensures q.shares == e.shares && q.totalPurchasePrice == e.totalPurchasePrice
    ensures q.purchaseDate == e.purchaseDate
    ensures e.shares != 0.0 ==> q.purchasePricePerShare * e.shares == e.totalPurchasePrice
    ensures q.originalShares == if p.originalShares != 0.0 then p.originalShares else p.shares
    ensures Truthy(p.currentPrice) ==>
              && q.currentValue.Some? && q.currentValue.value == p.currentPrice.value * e.shares
              && q.unrealizedGainLoss.Some?
              && q.unrealizedGainLoss.value == q.currentValue.value - q.purchasePricePerShare * e.shares
              && q.unrealizedGainLossPercentage.Some?
              && (q.purchasePricePerShare * e.shares != 0.0 ==>
                    q.unrealizedGainLossPercentage.value * (q.purchasePricePerShare * e.shares)
                      == q.unrealizedGainLoss.value * 100.0)
    ensures !Truthy(p.currentPrice) ==>
              && q.currentValue == p.currentValue
              && q.unrealizedGainLoss == p.unrealizedGainLoss
              && q.unrealizedGainLossPercentage == p.unrealizedGainLossPercentage
    ensures q.id == p.id && q.ticker == p.ticker && q.companyName == p.companyName
    ensures q.sellTransactions == p.sellTransactions && q.realizedGainLoss == p.realizedGainLoss
    ensures q.currentPrice == p.currentPrice && q.lastUpdated == p.lastUpdated
  {
    var pps := Div(e.totalPurchasePrice, e.shares);
    DivTimes(e.totalPurchasePrice, e.shares);
    var bought := if p.originalShares != 0.0 then p.originalShares else p.shares;
    if Truthy(p.currentPrice) then
      var value := p.currentPrice.value * e.shares;
      var unrealized := value - pps * e.shares;
      DivTimes(unrealized, pps * e.shares);
      p.(shares := e.shares,
         totalPurchasePrice := e.totalPurchasePrice,
         purchaseDate := e.purchaseDate,
         purchasePricePerShare := pps,
         originalShares := bought,
         currentValue := Some(value),
         unrealizedGainLoss := Some(unrealized),
         unrealizedGainLossPercentage := Some(Div(unrealized, pps * e.shares) * 100.0))
    else
      p.(shares := e.shares,
         totalPurchasePrice := e.totalPurchasePrice,
         purchaseDate := e.purchaseDate,
         purchasePricePerShare := pps,
         originalShares := bought)
  }

  /** The row of one lot with its edit state. */
  class PositionRow {
    var position: StockPosition
    var editData: EditData
    var isEditing: bool

    constructor (p: StockPosition)
      ensures position == p && editData == EditBuffer(p) && !isEditing
    {
      position := p;
      editData := EditBuffer(p);
      isEditing := false;
    }

    predicate SaveEnabled()
      reads this
    {
      CanSave(editData)
    }

    /** The edit button. */
    method StartEditing()
      modifies this
      ensures isEditing && editData == old(editData) && position == old(position)
    {
      isEditing := true;
    }

    /** The edit button with the buffer brought up to date: entering edit mode refills the
        buffer from the lot the row now shows. */
    method StartEditingSynced()
      modifies this
      ensures isEditing && editData == EditBuffer(position) && position == old(position)
    {
      editData := EditBuffer(position);
      isEditing := true;
    }

    /** A re-render with a new `position` prop: the row's state, buffer included, stays. */
    method ReceivePosition(p: StockPosition)
      modifies this
      ensures position == p && editData == old(editData) && isEditing == old(isEditing)
    {
      position := p;
    }

    /** An edit of the share-count input. */
    method SetShares(v: real)
      modifies this
      ensures editData == old(editData).(shares := v) && isEditing == old(isEditing)
      ensures position == old(position)
    {
      editData := editData.(shares := v);
    }

    /** An edit of the total-price input. */
    method SetTotalPurchasePrice(v: real)
      modifies this
      ensures editData == old(editData).(totalPurchasePrice := v) && isEditing == old(isEditing)
      ensures position == old(position)
    {
      editData := editData.(totalPurchasePrice := v);
    }

    /** An edit of the date input. */
    method SetPurchaseDate(v: string)
      modifies this
      ensures editData == old(editData).(purchaseDate := v) && isEditing == old(isEditing)
      ensures position == old(position)
    {
      editData := editData.(purchaseDate := v);
    }

    /** handleSave (reachable only through the enabled save button): builds the edited lot
        by a spread and conditional assignments, and leaves edit mode. */
    method HandleSave() returns (updated: StockPosition)
      requires SaveEnabled()
      modifies this
      ensures updated == EditedLot(position, old(editData))
      ensures updated.purchasePricePerShare > 0.0
      ensures !isEditing && editData == old(editData) && position == old(position)
    {
      var shares := editData.shares;
      var pps := editData.totalPurchasePrice / shares;
      assert pps == Div(editData.totalPurchasePrice, shares);
      var bought := if position.originalShares != 0.0 then position.originalShares else position.shares;
      updated := position.(shares := shares,
                           totalPurchasePrice := editData.totalPurchasePrice,
                           purchaseDate := editData.purchaseDate,
                           purchasePricePerShare := pps,
                           originalShares := bought);
      if Truthy(position.currentPrice) {
        var value := position.currentPrice.value * shares;
        updated := updated.(currentValue := Some(value));
        var unrealized := value - pps * shares;
        updated := updated.(unrealizedGainLoss := Some(unrealized));
        var percentage := Div(unrealized, pps * shares) * 100.0;
        updated := updated.(unrealizedGainLossPercentage := Some(percentage));
        ghost var q := EditedLot(position, editData);
        assert q.currentValue.value == value && q.unrealizedGainLoss.value == unrealized;
      }
      isEditing := false;
    }

    /** handleCancel: the buffer is refilled from the lot and edit mode ends. */
    method HandleCancel()
      modifies this
      ensures editData == EditBuffer(position) && !isEditing && position == old(position)
    {
      editData := EditBuffer(position);
      isEditing := false;
    }
  }

  // ---------------------------------------------------------------------------
  // What the edit rule promises
  // ---------------------------------------------------------------------------

  /** Whatever was enabled for saving yields a lot with a positive per-share cost. */
  lemma SavedCostPositive(p: StockPosition, e: EditData)
    requires CanSave(e)
    ensures EditedLot(p, e).purchasePricePerShare > 0.0
    ensures EditedLot(p, e).purchasePricePerShare == PerSharePreview(e)
  {
  }

  /** On a lot with no negative holding, the sell action is offered exactly when the lot is
      not closed. */
  lemma SellOfferedIffOpen(p: StockPosition)
    requires p.shares >= 0.0
    ensures CanSell(p) <==> !IsClosed(p)
  {
  }

  /** With a nonzero current price, the recomputed unrealized figure is the current value
      less the edited total, and the percentage is taken over that total. */
  lemma EditedUnrealizedOverTotal(p: StockPosition, e: EditData)
    requires Truthy(p.currentPrice) && CanSave(e)
    ensures EditedLot(p, e).unrealizedGainLoss.value == p.currentPrice.value * e.shares - e.totalPurchasePrice
    ensures EditedLot(p, e).unrealizedGainLossPercentage.value * e.totalPurchasePrice
              == EditedLot(p, e).unrealizedGainLoss.value * 100.0
  {
    var q := EditedLot(p, e);
    assert q.purchasePricePerShare * e.shares == e.totalPurchasePrice;
  }

  /** An edit of a lot that keeps the ledger invariant keeps it exactly when the share count
      is left as it was: the edit does not touch `originalShares` or the transactions, so
      any other count breaks remaining + sold = bought. */
  lemma EditKeepsLedgerIff(p: StockPosition, e: EditData)
    requires Storage.LotInvariant(p) && p.originalShares != 0.0
    ensures Storage.LotInvariant(EditedLot(p, e)) <==> e.shares == p.shares
  {
  }

  /** A saved edit of a canonical lot reloads unchanged from storage, unless the recomputed
      unrealized figure is exactly 0 (which loading reads as absent). */
  lemma EditKeepsCanonical(p: StockPosition, e: EditData)
    requires Storage.Canonical(p) && CanSave(e)
    requires p.originalShares != 0.0 || p.shares != 0.0
    requires Truthy(p.currentPrice) ==> p.currentPrice.value * e.shares != e.totalPurchasePrice
    ensures Storage.Canonical(EditedLot(p, e))
  {
    if Truthy(p.currentPrice) {
      EditedUnrealizedOverTotal(p, e);
      var q := EditedLot(p, e);
      assert q.unrealizedGainLoss.value != 0.0;
      assert q.unrealizedGainLossPercentage.value != 0.0;
    }
  }

  // ---------------------------------------------------------------------------
  // A save that changes nothing re-prices a partially sold lot
  // ---------------------------------------------------------------------------

  /** Saving the unchanged buffer keeps the per-share cost exactly when that cost times the
      remaining shares is the stored total, which after a partial sale it is not (the total
      is what the whole lot cost). */
  lemma NoOpEditRepricesIff(p: StockPosition)
    requires p.shares > 0.0
    ensures (EditedLot(p, EditBuffer(p)).purchasePricePerShare == p.purchasePricePerShare)
              <==> (p.purchasePricePerShare * p.shares == p.totalPurchasePrice)
  {
    var x := EditedLot(p, EditBuffer(p)).purchasePricePerShare;
    assert x * p.shares == p.totalPurchasePrice;
    if p.purchasePricePerShare * p.shares == p.totalPurchasePrice {
      SameFactor(x, p.purchasePricePerShare, p.shares);
    }
  }

  /** Two numbers with the same product with a nonzero factor are equal. */
  lemma SameFactor(x: real, y: real, s: real)
    requires s != 0.0 && x * s == y * s
    ensures x == y
  {
    assert (x - y) * s == 0.0;
  }

  /** The lot bought as 100 shares for 1500 (15 each) with 40 sold: opening the edit row and
      saving without a change sets its per-share cost to 25. */
  lemma NoOpEditAfterPartialSale(p: StockPosition)
    requires p.shares == 60.0 && p.originalShares == 100.0
    requires p.totalPurchasePrice == 1500.0 && p.purchasePricePerShare == 15.0
    ensures EditedLot(p, EditBuffer(p)).purchasePricePerShare == 25.0
    ensures EditedLot(p, EditBuffer(p)) != p
  {
  }

  /** A row that stays mounted through a sale keeps the buffer of the lot before it: the lot
      bought as 100 shares for 1500, 40 of them sold, then the edit row opened and saved
      without a change, gets its 100 shares back while the sale stays on its ledger, so
      remaining + sold no longer equals what was bought. */
  lemma StaleBufferAfterSale(p: StockPosition, tx: SellTransaction)
    requires p.shares == 100.0 && p.originalShares == 100.0 && p.totalPurchasePrice == 1500.0
    requires p.sellTransactions == [] && tx.sharesSold == 40.0
    ensures var q := EditedLot(Storage.ApplySell(p, tx), EditBuffer(p));
            && q.shares == 100.0
            && q.sellTransactions == [tx]
            && !Storage.LotInvariant(q)
  {
    var q := EditedLot(Storage.ApplySell(p, tx), EditBuffer(p));
    assert q.sellTransactions == [tx];
    assert [tx][..0] == [];
    assert Storage.SumSold(q.sellTransactions) == 40.0;
  }

  /** With the buffer taken from the lot the row shows, a save without a change keeps the
      ledger invariant of a lot that has one. */
  lemma SyncedNoOpEditKeepsLedger(p: StockPosition)
    requires Storage.LotInvariant(p) && p.originalShares != 0.0
    ensures Storage.LotInvariant(EditedLot(p, EditBuffer(p)))
  {
    EditKeepsLedgerIff(p, EditBuffer(p));
  }

  /** The edit with the bought share count kept in step: `originalShares` becomes the
      edited remaining count plus what the lot's transactions sold, and the per-share cost
      is the total over that count. Otherwise as `EditedLot`. */
  function EditedLotCorrected(p: StockPosition, e: EditData): (q: StockPosition)
    ensures q.shares == e.shares && q.totalPurchasePrice == e.totalPurchasePrice
    ensures q.purchaseDate == e.purchaseDate
    ensures q.originalShares == e.shares + Storage.SumSold(p.sellTransactions)
    ensures q.originalShares != 0.0 ==> q.purchasePricePerShare * q.originalShares == e.totalPurchasePrice
    ensures Truthy(p.currentPrice) ==>
              && q.currentValue.Some? && q.currentValue.value == p.currentPrice.value * e.shares
              && q.unrealizedGainLoss.Some?
              && q.unrealizedGainLoss.value == q.currentValue.value - q.purchasePricePerShare * e.shares
    ensures !Truthy(p.currentPrice) ==>
              && q.currentValue == p.currentValue
              && q.unrealizedGainLoss == p.unrealizedGainLoss
              && q.unrealizedGainLossPercentage == p.unrealizedGainLossPercentage
    ensures q.id == p.id && q.ticker == p.ticker && q.companyName == p.companyName
    ensures q.sellTransactions == p.sellTransactions && q.realizedGainLoss == p.realizedGainLoss
    ensures q.currentPrice == p.currentPrice && q.lastUpdated == p.lastUpdated
  {
    var bought := e.shares + Storage.SumSold(p.sellTransactions);
    var pps := Div(e.totalPurchasePrice, bought);
    DivTimes(e.totalPurchasePrice, bought);
    if Truthy(p.currentPrice) then
      var value := p.currentPrice.value * e.shares;
      var unrealized := value - pps * e.shares;
      p.(shares := e.shares,
         totalPurchasePrice := e.totalPurchasePrice,
         purchaseDate := e.purchaseDate,
         purchasePricePerShare := pps,
         originalShares := bought,
         currentValue := Some(value),
         unrealizedGainLoss := Some(unrealized),
         unrealizedGainLossPercentage := Some(Div(unrealized, pps * e.shares) * 100.0))
    else
      p.(shares := e.shares,
         totalPurchasePrice := e.totalPurchasePrice,
         purchaseDate := e.purchaseDate,
         purchasePricePerShare := pps,
         originalShares := bought)
  }

  /** The corrected edit keeps the ledger invariant for every non-negative share count. */
  lemma CorrectedEditKeepsLedger(p: StockPosition, e: EditData)
    requires Storage.LotInvariant(p) && e.shares >= 0.0
    ensures Storage.LotInvariant(EditedLotCorrected(p, e))
  {
    var q := EditedLotCorrected(p, e);
    assert q.sellTransactions == p.sellTransactions && q.realizedGainLoss == p.realizedGainLoss;
  }

  /** Saving the unchanged buffer of a lot that keeps the ledger invariant, and whose cost is
      its total over what was bought, leaves the per-share cost and the bought count as they
      were under the corrected edit. */
  lemma CorrectedNoOpEditKeepsCost(p: StockPosition)
    requires Storage.LotInvariant(p) && p.originalShares != 0.0
    requires p.purchasePricePerShare * p.originalShares == p.totalPurchasePrice
    ensures EditedLotCorrected(p, EditBuffer(p)).originalShares == p.originalShares
    ensures EditedLotCorrected(p, EditBuffer(p)).purchasePricePerShare == p.purchasePricePerShare
  {
    var q := EditedLotCorrected(p, EditBuffer(p));
    assert q.originalShares == p.originalShares;
    assert q.purchasePricePerShare * p.originalShares == p.totalPurchasePrice;
  }
}
