/** The persisted ledger (src/services/portfolioStorage.ts): loading and migrating the
    stored lots, the read-modify-write operations on the list, the authoritative sell,
    and the merged, newest-first transaction history.

    The stored blob is modelled after `JSON.parse`: a sequence of loosely typed records.
    Every operation first re-loads (re-validates and re-migrates) the list, as the source
    does, and then writes the whole list back. */
module PortfolioStorage {
  import opened Wrappers
  import opened PortfolioTypes

  // ---------------------------------------------------------------------------
  // The stored form
  // ---------------------------------------------------------------------------

  /** A field value as `typeof` sees it after `JSON.parse`. */
  datatype JsValue = Undefined | Num(n: real) | Str(s: string) | OtherValue

  /** One parsed array element that is an object. The five checked fields are loosely
      typed; the others are taken to hold their declared type when present.
      `gainLoss` and `gainLossPercentage` are the names an older version stored. */
  datatype RawRecord = RawRecord(
    id: JsValue,
    ticker: JsValue,
    shares: JsValue,
    totalPurchasePrice: JsValue,
    purchaseDate: JsValue,
    companyName: Option<string>,
    originalShares: Option<real>,
    purchasePricePerShare: Option<real>,
    currentPrice: Option<real>,
    currentValue: Option<real>,
    unrealizedGainLoss: Option<real>,
    unrealizedGainLossPercentage: Option<real>,
    gainLoss: Option<real>,
    gainLossPercentage: Option<real>,
    realizedGainLoss: Option<real>,
    lastUpdated: Option<string>,
    sellTransactions: Option<seq<SellTransaction>>)

  /** An array element: an object, or `null`/`undefined`, on which reading `.id` throws. */
  datatype Element = Object(record: RawRecord) | Nullish

  /** What the storage key holds: nothing (missing or empty string), text that does not
      parse as JSON, JSON that is not an array, or an array. */
  datatype Stored = NoData | Unparsable | NotAnArray | Records(elements: seq<Element>)

  // ---------------------------------------------------------------------------
  // loadPositions
  // ---------------------------------------------------------------------------

  /** The required-field check: string id, ticker and purchase date, numeric shares and
      total, no negative share count, a positive total. */
  predicate IsValid(r: RawRecord) {
    && r.id.Str? && r.ticker.Str? && r.shares.Num? && r.totalPurchasePrice.Num? && r.purchaseDate.Str?
    && !(r.shares.n < 0.0)
    && !(r.totalPurchasePrice.n <= 0.0)
  }

  /** Backward-compatible migration of a record that passed the check. */
  function Migrate(r: RawRecord): (p: StockPosition)
    requires IsValid(r)
    ensures p.id == r.id.s && p.ticker == r.ticker.s && p.purchaseDate == r.purchaseDate.s
    ensures p.shares == r.shares.n >= 0.0 && p.totalPurchasePrice == r.totalPurchasePrice.n > 0.0
    ensures Truthy(r.originalShares) ==> p.originalShares == r.originalShares.value
    ensures !Truthy(r.originalShares) ==> p.originalShares == p.shares
    ensures Truthy(r.purchasePricePerShare) ==> p.purchasePricePerShare == r.purchasePricePerShare.value
    ensures !Truthy(r.purchasePricePerShare) && p.shares != 0.0 ==>
              p.purchasePricePerShare == p.totalPurchasePrice / p.shares
    ensures !Truthy(r.purchasePricePerShare) && p.shares == 0.0 ==> p.purchasePricePerShare == 0.0
    ensures r.realizedGainLoss.Some? ==> p.realizedGainLoss == Some(r.realizedGainLoss.value)
    ensures !Truthy(r.realizedGainLoss) ==> p.realizedGainLoss == Some(0.0)
    ensures r.sellTransactions.Some? ==> p.sellTransactions == r.sellTransactions.value
    ensures r.sellTransactions.None? ==> p.sellTransactions == []
    ensures Truthy(r.unrealizedGainLoss) ==> p.unrealizedGainLoss == r.unrealizedGainLoss
    ensures !Truthy(r.unrealizedGainLoss) ==> p.unrealizedGainLoss == r.gainLoss
    ensures Truthy(r.unrealizedGainLossPercentage) ==> p.unrealizedGainLossPercentage == r.unrealizedGainLossPercentage
    ensures !Truthy(r.unrealizedGainLossPercentage) ==> p.unrealizedGainLossPercentage == r.gainLossPercentage
    ensures p.currentPrice == r.currentPrice && p.currentValue == r.currentValue
    ensures p.companyName == r.companyName && p.lastUpdated == r.lastUpdated
  {
    var shares := r.shares.n;
    var total := r.totalPurchasePrice.n;
    StockPosition(
      id := r.id.s,
      ticker := r.ticker.s,
      companyName := r.companyName,
      shares := shares,
      originalShares := OrElse(r.originalShares, shares),
      totalPurchasePrice := total,
      purchaseDate := r.purchaseDate.s,
      purchasePricePerShare := OrElse(r.purchasePricePerShare, Div(total, shares)),
      currentPrice := r.currentPrice,
      currentValue := r.currentValue,
      unrealizedGainLoss := OrElseOpt(r.unrealizedGainLoss, r.gainLoss),
      unrealizedGainLossPercentage := OrElseOpt(r.unrealizedGainLossPercentage, r.gainLossPercentage),
      realizedGainLoss := Some(OrElse(r.realizedGainLoss, 0.0)),
      lastUpdated := r.lastUpdated,
      sellTransactions := if r.sellTransactions.Some? then r.sellTransactions.value else [])
  }

  /** `records.map(validate-and-migrate).filter(Boolean)`. */
  function MigrateAll(rs: seq<RawRecord>): (ps: seq<StockPosition>)
    ensures |ps| <= |rs|
    ensures forall p | p in ps :: p.shares >= 0.0 && p.totalPurchasePrice > 0.0
  {
    if rs == [] then []
    else
      var last := rs[|rs| - 1];
      MigrateAll(rs[..|rs| - 1]) + (if IsValid(last) then [Migrate(last)] else [])
  }

  predicate AllObjects(es: seq<Element>) {
    forall k | 0 <= k < |es| :: es[k].Object?
  }

  function RecordsOf(es: seq<Element>): seq<RawRecord>
    requires AllObjects(es)
  {
    seq(|es|, k requires 0 <= k < |es| => es[k].record)
  }

  /** loadPositions: a missing, unparsable or non-array payload gives the empty list; a
      `null` element makes the mapping throw, which the catch also turns into the empty
      list; otherwise exactly the valid records survive, migrated, in order. */
  function LoadPositions(stored: Stored): (ps: seq<StockPosition>)
    ensures !stored.Records? ==> ps == []
    ensures stored.Records? && !AllObjects(stored.elements) ==> ps == []
    ensures stored.Records? && AllObjects(stored.elements) ==> ps == MigrateAll(RecordsOf(stored.elements))
  {
    match stored
    case Records(es) => if AllObjects(es) then MigrateAll(RecordsOf(es)) else []
    case _ => []
  }

  /** Filtering distributes over concatenation: records are dropped one by one, so the
      survivors keep their relative order. */
  lemma {:induction false} MigrateAllAppend(a: seq<RawRecord>, b: seq<RawRecord>)
    ensures MigrateAll(a + b) == MigrateAll(a) + MigrateAll(b)
    decreases |b|
  {
    if b == [] {
      assert a + b == a;
    } else {
      var b' := b[..|b| - 1];
      assert (a + b)[..|a + b| - 1] == a + b';
      assert (a + b)[|a + b| - 1] == b[|b| - 1];
      MigrateAllAppend(a, b');
    }
  }

  /** A single record survives iff it passes the check; together with MigrateAllAppend
      this says the load drops exactly the invalid records and keeps the others in order. */
  lemma LoadSingle(r: RawRecord)
    ensures MigrateAll([r]) == if IsValid(r) then [Migrate(r)] else []
  {
    assert [r][..0] == [];
  }

  /** The survivors are exactly as many as the valid records. */
  function CountValid(rs: seq<RawRecord>): (n: nat)
    ensures n <= |rs|
  {
    if rs == [] then 0 else CountValid(rs[..|rs| - 1]) + (if IsValid(rs[|rs| - 1]) then 1 else 0)
  }

  lemma {:induction false} LoadCount(rs: seq<RawRecord>)
    ensures |MigrateAll(rs)| == CountValid(rs)
  {
    if rs != [] {
      LoadCount(rs[..|rs| - 1]);
    }
  }

  /** When nothing is dropped, every record was valid and the i-th lot is the i-th record migrated. */
  lemma {:induction false} MigrateAllFull(rs: seq<RawRecord>)
    requires |MigrateAll(rs)| == |rs|
    ensures forall k | 0 <= k < |rs| :: IsValid(rs[k]) && MigrateAll(rs)[k] == Migrate(rs[k])
  {
    if rs != [] {
      var init := rs[..|rs| - 1];
      var last := rs[|rs| - 1];
      assert |MigrateAll(init)| <= |init|;
      assert IsValid(last);
      MigrateAllFull(init);
      forall k | 0 <= k < |rs|
        ensures IsValid(rs[k]) && MigrateAll(rs)[k] == Migrate(rs[k])
      {
        if k < |rs| - 1 {
          assert rs[k] == init[k];
        }
      }
    }
  }

  // ---------------------------------------------------------------------------
  // savePositions (JSON.stringify drops absent fields)
  // ---------------------------------------------------------------------------

  function ToRecord(p: StockPosition): RawRecord {
    RawRecord(
      id := Str(p.id),
      ticker := Str(p.ticker),
      shares := Num(p.shares),
      totalPurchasePrice := Num(p.totalPurchasePrice),
      purchaseDate := Str(p.purchaseDate),
      companyName := p.companyName,
      originalShares := Some(p.originalShares),
      purchasePricePerShare := Some(p.purchasePricePerShare),
      currentPrice := p.currentPrice,
      currentValue := p.currentValue,
      unrealizedGainLoss := p.unrealizedGainLoss,
      unrealizedGainLossPercentage := p.unrealizedGainLossPercentage,
      gainLoss := None,
      gainLossPercentage := None,
      realizedGainLoss := p.realizedGainLoss,
      lastUpdated := p.lastUpdated,
      sellTransactions := Some(p.sellTransactions))
  }

  function Save(ps: seq<StockPosition>): Stored {
    Records(seq(|ps|, k requires 0 <= k < |ps| => Object(ToRecord(ps[k]))))
  }

  /** A lot that loading leaves as it is: it passes the check, and no `||` default fires
      (a zero original share count or per-share cost on an open lot, a zero unrealized
      figure, or a missing realized total would each be rewritten). */
  predicate Canonical(p: StockPosition) {
    && p.shares >= 0.0
    && p.totalPurchasePrice > 0.0
    && (p.originalShares != 0.0 || p.shares == 0.0)
    && (p.purchasePricePerShare != 0.0 || p.shares == 0.0)
    && p.unrealizedGainLoss != Some(0.0)
    && p.unrealizedGainLossPercentage != Some(0.0)
    && p.realizedGainLoss.Some?
  }

  /** Saving and re-loading one lot gives it back exactly when it is canonical. */
  lemma ReloadFixedPoint(p: StockPosition)
    ensures (IsValid(ToRecord(p)) && Migrate(ToRecord(p)) == p) <==> Canonical(p)
  {
    var r := ToRecord(p);
    if Canonical(p) {
      assert IsValid(r);
      var q := Migrate(r);
      assert q.originalShares == p.originalShares;
      assert q.purchasePricePerShare == p.purchasePricePerShare;
      assert q.unrealizedGainLoss == p.unrealizedGainLoss;
      assert q.unrealizedGainLossPercentage == p.unrealizedGainLossPercentage;
      assert q.realizedGainLoss == p.realizedGainLoss;
    }
    if IsValid(r) && Migrate(r) == p {
      var q := Migrate(r);
      assert q.realizedGainLoss.Some?;
      assert p.originalShares == OrElse(Some(p.originalShares), p.shares);
      assert p.purchasePricePerShare == OrElse(Some(p.purchasePricePerShare), Div(p.totalPurchasePrice, p.shares));
    }
  }

  lemma RecordsOfSave(ps: seq<StockPosition>)
    ensures AllObjects(Save(ps).elements)
    ensures RecordsOf(Save(ps).elements) == seq(|ps|, k requires 0 <= k < |ps| => ToRecord(ps[k]))
  {
  }

  lemma {:induction false} MigrateSaved(ps: seq<StockPosition>)
    requires forall p | p in ps :: Canonical(p)
    ensures MigrateAll(seq(|ps|, k requires 0 <= k < |ps| => ToRecord(ps[k]))) == ps
  {
    var rs := seq(|ps|, k requires 0 <= k < |ps| => ToRecord(ps[k]));
    if ps != [] {
      var init := ps[..|ps| - 1];
      assert rs[..|rs| - 1] == seq(|init|, k requires 0 <= k < |init| => ToRecord(init[k]));
      MigrateSaved(init);
      ReloadFixedPoint(ps[|ps| - 1]);
      assert init + [ps[|ps| - 1]] == ps;
    }
  }

  /** The persist/load round trip: loading what was saved gives the list back exactly
      when every lot in it is canonical. */
  lemma LoadSaveRoundTrip(ps: seq<StockPosition>)
    ensures LoadPositions(Save(ps)) == ps <==> forall p | p in ps :: Canonical(p)
  {
    RecordsOfSave(ps);
    var rs := RecordsOf(Save(ps).elements);
    if forall p | p in ps :: Canonical(p) {
      MigrateSaved(ps);
    }
    if LoadPositions(Save(ps)) == ps {
      MigrateAllFull(rs);
      forall p | p in ps ensures Canonical(p) {
        var k :| 0 <= k < |ps| && ps[k] == p;
        assert rs[k] == ToRecord(p);
        ReloadFixedPoint(p);
      }
    }
  }

  // ---------------------------------------------------------------------------
  // List operations shared by the storage and the hook
  // ---------------------------------------------------------------------------

  /** `findIndex(p => p.id === id)`. */
  function FindIndex(ps: seq<StockPosition>, id: string): (r: Option<nat>)
    ensures r.Some? ==> r.value < |ps| && ps[r.value].id == id
    ensures r.Some? ==> forall k | 0 <= k < r.value :: ps[k].id != id
    ensures r.None? ==> forall k | 0 <= k < |ps| :: ps[k].id != id
  {
    if ps == [] then None
    else if ps[0].id == id then Some(0)
    else match FindIndex(ps[1..], id)
      case None => None
      case Some(k) => Some(k + 1)
  }

  /** `filter(p => p.id !== id)`. */
  function WithoutId(ps: seq<StockPosition>, id: string): (r: seq<StockPosition>)
    ensures |r| <= |ps|
    ensures forall i | 0 <= i < |r| :: r[i].id != id
  {
    if ps == [] then []
    else WithoutId(ps[..|ps| - 1], id) + (if ps[|ps| - 1].id == id then [] else [ps[|ps| - 1]])
  }

  /** Filtering by id distributes over concatenation (so order is kept). */
  lemma {:induction false} WithoutIdAppend(a: seq<StockPosition>, b: seq<StockPosition>, id: string)
    ensures WithoutId(a + b, id) == WithoutId(a, id) + WithoutId(b, id)
    decreases |b|
  {
    if b == [] {
      assert a + b == a;
    } else {
      var b' := b[..|b| - 1];
      assert (a + b)[..|a + b| - 1] == a + b';
      assert (a + b)[|a + b| - 1] == b[|b| - 1];
      WithoutIdAppend(a, b', id);
    }
  }

  /** The storage replace of `updatePosition`: the first lot with the id, if any. */
  function UpdateFirst(ps: seq<StockPosition>, p: StockPosition): (r: seq<StockPosition>)
    ensures |r| == |ps|
    ensures FindIndex(ps, p.id).Some? ==> r == ps[FindIndex(ps, p.id).value := p]
    ensures FindIndex(ps, p.id).None? ==> r == ps
  {
    match FindIndex(ps, p.id)
    case Some(k) => ps[k := p]
    case None => ps
  }

  // ---------------------------------------------------------------------------
  // Selling against a lot
  // ---------------------------------------------------------------------------

  /** The lot after one booked sale: fewer shares, the transaction appended, its realized
      figure added. Nothing else changes; a lot sold down to zero is kept. */
  function ApplySell(p: StockPosition, tx: SellTransaction): (q: StockPosition)
    ensures q.shares == p.shares - tx.sharesSold
    ensures q.sellTransactions == p.sellTransactions + [tx]
    ensures q.realizedGainLoss == Some(OrElse(p.realizedGainLoss, 0.0) + tx.realizedGainLoss)
    ensures q.(shares := p.shares, sellTransactions := p.sellTransactions,
               realizedGainLoss := p.realizedGainLoss) == p
  {
    p.(shares := p.shares - tx.sharesSold,
       sellTransactions := p.sellTransactions + [tx],
       realizedGainLoss := Some(OrElse(p.realizedGainLoss, 0.0) + tx.realizedGainLoss))
  }

  function SumSold(txs: seq<SellTransaction>): real {
    if txs == [] then 0.0 else SumSold(txs[..|txs| - 1]) + txs[|txs| - 1].sharesSold
  }

  function SumRealized(txs: seq<SellTransaction>): real {
    if txs == [] then 0.0 else SumRealized(txs[..|txs| - 1]) + txs[|txs| - 1].realizedGainLoss
  }

  /** The ledger invariant of a lot: no negative holding, remaining plus sold equals
      what was bought, and the realized total is the sum over its transactions. */
  predicate LotInvariant(p: StockPosition) {
    && p.shares >= 0.0
    && p.shares + SumSold(p.sellTransactions) == p.originalShares
    && OrElse(p.realizedGainLoss, 0.0) == SumRealized(p.sellTransactions)
  }

  lemma SellPreservesInvariant(p: StockPosition, tx: SellTransaction)
    requires LotInvariant(p)
    requires tx.sharesSold <= p.shares
    ensures LotInvariant(ApplySell(p, tx))
  {
    var txs := p.sellTransactions + [tx];
    assert txs[..|txs| - 1] == p.sellTransactions;
  }

  /** A sale that does not oversell keeps a canonical lot canonical, so a re-load
      between storage operations leaves it untouched. */
  lemma SellPreservesCanonical(p: StockPosition, tx: SellTransaction)
    requires Canonical(p)
    requires 0.0 <= tx.sharesSold <= p.shares
    ensures Canonical(ApplySell(p, tx))
  {
  }

  /** Successive storage sells: each either books the sale or, on an oversell, throws
      and leaves the lot as it was (None here). */
  function SellAll(p: StockPosition, txs: seq<SellTransaction>): Option<StockPosition>
    decreases |txs|
  {
    if txs == [] then Some(p)
    else match SellAll(p, txs[..|txs| - 1])
      case None => None
      case Some(q) =>
        if txs[|txs| - 1].sharesSold > q.shares then None else Some(ApplySell(q, txs[|txs| - 1]))
  }

  /** Over any run of successful sells the invariant holds, the transactions are exactly
      the ones sold in order, and the original share count never changes. */
  lemma {:induction false} SellSequenceInvariant(p: StockPosition, txs: seq<SellTransaction>)
    requires LotInvariant(p)
    requires SellAll(p, txs).Some?
    ensures LotInvariant(SellAll(p, txs).value)
    ensures SellAll(p, txs).value.sellTransactions == p.sellTransactions + txs
    ensures SellAll(p, txs).value.originalShares == p.originalShares
    ensures SellAll(p, txs).value.totalPurchasePrice == p.totalPurchasePrice
    decreases |txs|
  {
    if txs != [] {
      var init := txs[..|txs| - 1];
      SellSequenceInvariant(p, init);
      var q := SellAll(p, init).value;
      SellPreservesInvariant(q, txs[|txs| - 1]);
      assert p.sellTransactions + init + [txs[|txs| - 1]] == p.sellTransactions + txs;
    }
  }

  // ---------------------------------------------------------------------------
  // getAllTransactions
  // ---------------------------------------------------------------------------

  /** All positions' transactions concatenated in position order. */
  function AllTransactions(ps: seq<StockPosition>): seq<SellTransaction> {
    if ps == [] then [] else AllTransactions(ps[..|ps| - 1]) + ps[|ps| - 1].sellTransactions
  }

  function TransactionCount(ps: seq<StockPosition>): nat {
    if ps == [] then 0 else TransactionCount(ps[..|ps| - 1]) + |ps[|ps| - 1].sellTransactions|
  }

  lemma {:induction false} AllTransactionsLength(ps: seq<StockPosition>)
    ensures |AllTransactions(ps)| == TransactionCount(ps)
  {
    if ps != [] {
      AllTransactionsLength(ps[..|ps| - 1]);
    }
  }

  predicate NewestFirst(txs: seq<SellTransaction>) {
    forall k, l | 0 <= k < l < |txs| :: txs[k].saleDate >= txs[l].saleDate
  }

  /** The first n transactions are ordered newest first. */
  predicate SortedPrefix(s: seq<SellTransaction>, n: int)
    requires 0 <= n <= |s|
  {
    forall k, l | 0 <= k < l < n :: s[k].saleDate >= s[l].saleDate
  }

  /** While the transaction at j moves left: positions 0..i without j are ordered, and the
      one at j is newer than everything to its right up to i. */
  predicate Inserting(s: seq<SellTransaction>, i: int, j: int)
    requires 0 <= j <= i < |s|
  {
    && (forall k, l | 0 <= k < l <= i && k != j && l != j :: s[k].saleDate >= s[l].saleDate)
    && (forall l | j < l <= i :: s[j].saleDate > s[l].saleDate)
  }

  lemma InsertStart(s: seq<SellTransaction>, i: int)
    requires 0 <= i < |s| && SortedPrefix(s, i)
    ensures Inserting(s, i, i)
  {
  }

  /** Swapping a newer transaction at j past its older left neighbour keeps the shape. */
  lemma InsertStep(s: seq<SellTransaction>, i: int, j: int)
    requires 0 < j <= i < |s| && Inserting(s, i, j)
    requires s[j - 1].saleDate < s[j].saleDate
    ensures Inserting(s[j - 1 := s[j]][j := s[j - 1]], i, j - 1)
  {
    var t := s[j - 1 := s[j]][j := s[j - 1]];
    forall k, l | 0 <= k < l <= i && k != j - 1 && l != j - 1
      ensures t[k].saleDate >= t[l].saleDate
    {
      if l == j {
        assert t[l] == s[j - 1];
      } else if k == j {
        assert t[k] == s[j - 1];
      }
    }
  }

  /** Once the transaction at j is no newer than its left neighbour, the first i + 1 are
      ordered. */
  lemma InsertDone(s: seq<SellTransaction>, i: int, j: int)
    requires 0 <= j <= i < |s| && Inserting(s, i, j)
    requires j == 0 || s[j - 1].saleDate >= s[j].saleDate
    ensures SortedPrefix(s, i + 1)
  {
    forall k, l | 0 <= k < l < i + 1
      ensures s[k].saleDate >= s[l].saleDate
    {
      if l == j && k < j - 1 {
        assert s[k].saleDate >= s[j - 1].saleDate;
      }
    }
  }

  /** Exchanges the neighbours at k and k + 1, keeping the array's contents. */
  method SwapAdjacent(a: array<SellTransaction>, k: int)
    requires 0 <= k < a.Length - 1
    modifies a
    ensures a[..] == old(a[..])[k := old(a[k + 1])][k + 1 := old(a[k])]
    ensures multiset(a[..]) == old(multiset(a[..]))
  {
    a[k], a[k + 1] := a[k + 1], a[k];
  }

  /** The in-place `sort` with comparator `b.saleDate - a.saleDate`: afterwards the array
      is ordered newest first and holds the same transactions. */
  method SortNewestFirst(a: array<SellTransaction>)
    modifies a
    ensures NewestFirst(a[..])
    ensures multiset(a[..]) == old(multiset(a[..]))
  {
    var i := 0;
    while i < a.Length
      invariant 0 <= i <= a.Length
      invariant SortedPrefix(a[..], i)
      invariant multiset(a[..]) == old(multiset(a[..]))
    {
      InsertStart(a[..], i);
      var j := i;
      while j > 0 && a[j - 1].saleDate < a[j].saleDate
        invariant 0 <= j <= i
        invariant Inserting(a[..], i, j)
        invariant multiset(a[..]) == old(multiset(a[..]))
      {
        InsertStep(a[..], i, j);
        SwapAdjacent(a, j - 1);
        j := j - 1;
      }
      InsertDone(a[..], i, j);
      i := i + 1;
    }
  }

  // ---------------------------------------------------------------------------
  // The storage object
  // ---------------------------------------------------------------------------

  datatype StorageSell = NotFound | Oversold | Sold(updated: StockPosition)

  /** The storage key's content; each operation loads, changes and saves the whole list. */
  class PortfolioStorage {
    var data: Stored

    constructor (initial: Stored)
      ensures data == initial
    {
      data := initial;
    }

    /** What `loadPositions()` returns now. */
    function Positions(): seq<StockPosition>
      reads this
    {
      LoadPositions(data)
    }

    method SavePositions(ps: seq<StockPosition>)
      modifies this
      ensures data == Save(ps)
    {
      data := Save(ps);
    }

    /** Appends at the end of the re-loaded list. */
    method AddPosition(p: StockPosition)
      modifies this
      ensures data == Save(old(Positions()) + [p])
      ensures (forall q | q in old(Positions()) + [p] :: Canonical(q)) ==>
                Positions() == old(Positions()) + [p]
    {
      var positions := LoadPositions(data);
      positions := positions + [p];
      SavePositions(positions);
      LoadSaveRoundTrip(positions);
    }

    /** Overwrites the first lot with the same id; with no such lot nothing is saved. */
    method UpdatePosition(p: StockPosition)
      modifies this
      ensures FindIndex(old(Positions()), p.id).Some? ==>
                data == Save(old(Positions())[FindIndex(old(Positions()), p.id).value := p])
      ensures FindIndex(old(Positions()), p.id).None? ==> data == old(data)
    {
      var positions := LoadPositions(data);
      var index := FindIndex(positions, p.id);
      if index.Some? {
        positions := positions[index.value := p];
        SavePositions(positions);
      }
    }

    /** Removes every lot with the id and always saves. */
    method DeletePosition(positionId: string)
      modifies this
      ensures data == Save(WithoutId(old(Positions()), positionId))
    {
      var positions := LoadPositions(data);
      var filtered := WithoutId(positions, positionId);
      SavePositions(filtered);
    }

    /** The authoritative sell. An unknown id returns NotFound and an oversell throws
      (Oversold), both before anything is saved; otherwise the first lot with the id is
      replaced by ApplySell and the list saved. */
    method SellShares(positionId: string, tx: SellTransaction) returns (r: StorageSell)
      modifies this
      ensures FindIndex(old(Positions()), positionId).None? ==> r == NotFound && data == old(data)
      ensures FindIndex(old(Positions()), positionId).Some? ==>
                var k := FindIndex(old(Positions()), positionId).value;
                var lot := old(Positions())[k];
                if tx.sharesSold > lot.shares then r == Oversold && data == old(data)
                else r == Sold(ApplySell(lot, tx)) && data == Save(old(Positions())[k := ApplySell(lot, tx)])
    {
      var positions := LoadPositions(data);
      var positionIndex := FindIndex(positions, positionId);
      if positionIndex.None? {
        return NotFound;
      }
      var position := positions[positionIndex.value];
      if tx.sharesSold > position.shares {
        return Oversold;
      }
      var updated := ApplySell(position, tx);
      positions := positions[positionIndex.value := updated];
      SavePositions(positions);
      r := Sold(updated);
    }

    /** Every transaction of every lot, newest first. */
    method GetAllTransactions() returns (txs: seq<SellTransaction>)
      ensures multiset(txs) == multiset(AllTransactions(Positions()))
      ensures |txs| == TransactionCount(Positions())
      ensures NewestFirst(txs)
    {
      var positions := LoadPositions(data);
      var all: seq<SellTransaction> := [];
      var i := 0;
      while i < |positions|
        invariant 0 <= i <= |positions|
        invariant all == AllTransactions(positions[..i])
      {
        assert positions[..i + 1][..i] == positions[..i];
        all := all + positions[i].sellTransactions;
        i := i + 1;
      }
      assert positions[..|positions|] == positions;
      var a := new SellTransaction[|all|](k requires 0 <= k < |all| => all[k]);
      assert a[..] == all;
      SortNewestFirst(a);
      txs := a[..];
      AllTransactionsLength(positions);
      assert |txs| == |multiset(txs)| == |multiset(all)| == |all|;
    }
  }
}
