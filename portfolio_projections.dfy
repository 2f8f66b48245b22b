/** The two read-only projections of the portfolio hook (src/hooks/usePortfolio.ts):
    `tickerGroups`, a reduce that groups lots by ticker and sums their figures, followed by
    a pass that sets each group's average purchase price; and `portfolio`, the portfolio-wide
    sums and return percentage. */
module PortfolioProjections {
  import opened Wrappers
  import opened PortfolioTypes

  // ---------------------------------------------------------------------------
  // Per-lot contributions (each `x || y` of the source written out)
  // ---------------------------------------------------------------------------

  function Shares(p: StockPosition): real { p.shares }
  function Cost(p: StockPosition): real { p.totalPurchasePrice }
  /** `currentValue || totalPurchasePrice`: a lot without a (nonzero) value counts at cost. */
  function ValueOrCost(p: StockPosition): real { OrElse(p.currentValue, p.totalPurchasePrice) }
  function Unrealized(p: StockPosition): real { OrElse(p.unrealizedGainLoss, 0.0) }
  function Realized(p: StockPosition): real { OrElse(p.realizedGainLoss, 0.0) }

  /** The cost of the shares still held, at the lot's per-share price. */
  function HeldCost(p: StockPosition): real { p.purchasePricePerShare * p.shares }

  function GroupShares(g: TickerGroup): real { g.totalShares }
  function GroupCost(g: TickerGroup): real { g.totalCost }
  function GroupValue(g: TickerGroup): real { g.totalCurrentValue }
  function GroupUnrealized(g: TickerGroup): real { g.totalUnrealizedGainLoss }
  function GroupRealized(g: TickerGroup): real { g.totalRealizedGainLoss }

  /** `ps.reduce((sum, p) => sum + f(p), 0)`. */
  function Sum(ps: seq<StockPosition>, f: StockPosition -> real): real {
    if ps == [] then 0.0 else Sum(ps[..|ps| - 1], f) + f(ps[|ps| - 1])
  }

  lemma SumSnoc(ps: seq<StockPosition>, p: StockPosition, f: StockPosition -> real)
    ensures Sum(ps + [p], f) == Sum(ps, f) + f(p)
  {
    assert (ps + [p])[..|ps|] == ps;
  }

  // ---------------------------------------------------------------------------
  // The grouping, as a specification
  // ---------------------------------------------------------------------------

  /** The lots of one ticker, in list order. */
  function WithTicker(ps: seq<StockPosition>, t: string): seq<StockPosition> {
    if ps == [] then []
    else WithTicker(ps[..|ps| - 1], t) + (if ps[|ps| - 1].ticker == t then [ps[|ps| - 1]] else [])
  }

  /** A lot is in the selection for t iff it is in the list and has ticker t. */
  lemma {:induction false} WithTickerMembers(ps: seq<StockPosition>, t: string)
    ensures forall q :: q in WithTicker(ps, t) <==> q in ps && q.ticker == t
  {
    if ps != [] {
      var init := ps[..|ps| - 1];
      WithTickerMembers(init, t);
      assert ps == init + [ps[|ps| - 1]];
    }
  }

  lemma WithTickerSnoc(ps: seq<StockPosition>, p: StockPosition, t: string)
    ensures WithTicker(ps + [p], t) == WithTicker(ps, t) + (if p.ticker == t then [p] else [])
  {
    assert (ps + [p])[..|ps|] == ps;
  }

  /** Selecting a ticker distributes over concatenation: a group keeps the list order. */
  lemma {:induction false} WithTickerAppend(a: seq<StockPosition>, b: seq<StockPosition>, t: string)
    ensures WithTicker(a + b, t) == WithTicker(a, t) + WithTicker(b, t)
    decreases |b|
  {
    if b == [] {
      assert a + b == a;
    } else {
      var b' := b[..|b| - 1];
      assert (a + b)[..|a + b| - 1] == a + b';
      assert (a + b)[|a + b| - 1] == b[|b| - 1];
      WithTickerAppend(a, b', t);
    }
  }

  predicate Distinct(ts: seq<string>) {
    forall k, l | 0 <= k < l < |ts| :: ts[k] != ts[l]
  }

  /** The distinct tickers, in order of first occurrence. */
  function Tickers(ps: seq<StockPosition>): seq<string> {
    if ps == [] then []
    else
      var init := Tickers(ps[..|ps| - 1]);
      var t := ps[|ps| - 1].ticker;
      if t in init then init else init + [t]
  }

  /** The tickers are distinct and are exactly the tickers of the lots. */
  lemma {:induction false} TickersExact(ps: seq<StockPosition>)
    ensures Distinct(Tickers(ps))
    ensures forall t :: t in Tickers(ps) <==> exists j :: 0 <= j < |ps| && ps[j].ticker == t
  {
    if ps != [] {
      var init := ps[..|ps| - 1];
      var p := ps[|ps| - 1];
      TickersExact(init);
      forall t ensures t in Tickers(ps) <==> exists j :: 0 <= j < |ps| && ps[j].ticker == t {
        if t in Tickers(ps) && t != p.ticker {
          var j :| 0 <= j < |init| && init[j].ticker == t;
          assert ps[j] == init[j];
        }
        if exists j :: 0 <= j < |ps| && ps[j].ticker == t {
          var j :| 0 <= j < |ps| && ps[j].ticker == t;
          if j < |init| { assert init[j] == ps[j]; }
        }
      }
    }
  }

  /** Every ticker listed has at least one lot. */
  lemma TickersNonEmpty(ps: seq<StockPosition>, t: string)
    requires t in Tickers(ps)
    ensures WithTicker(ps, t) != []
  {
    TickersExact(ps);
    WithTickerMembers(ps, t);
    var j :| 0 <= j < |ps| && ps[j].ticker == t;
    assert ps[j] in WithTicker(ps, t);
  }

  lemma TickersSnoc(ps: seq<StockPosition>, p: StockPosition)
    ensures Tickers(ps + [p]) == if p.ticker in Tickers(ps) then Tickers(ps) else Tickers(ps) + [p.ticker]
    ensures p.ticker !in Tickers(ps) ==> WithTicker(ps, p.ticker) == []
    ensures Distinct(Tickers(ps))
  {
    assert (ps + [p])[..|ps|] == ps;
    TickersExact(ps);
    if WithTicker(ps, p.ticker) != [] {
      WithTickerMembers(ps, p.ticker);
      var q := WithTicker(ps, p.ticker)[0];
      assert q in ps;
      var j :| 0 <= j < |ps| && ps[j] == q;
      assert p.ticker in Tickers(ps);
    }
  }

  /** A group as the reduce leaves it: totals summed over its lots, name, price and
      provisional average taken from its first lot. */
  function RawGroup(ps: seq<StockPosition>, t: string): TickerGroup
    requires t in Tickers(ps)
  {
    TickersNonEmpty(ps, t);
    var lots := WithTicker(ps, t);
    TickerGroup(
      ticker := t,
      companyName := lots[0].companyName,
      positions := lots,
      totalShares := Sum(lots, Shares),
      totalCost := Sum(lots, Cost),
      totalCurrentValue := Sum(lots, ValueOrCost),
      totalUnrealizedGainLoss := Sum(lots, Unrealized),
      totalRealizedGainLoss := Sum(lots, Realized),
      averagePurchasePrice := lots[0].purchasePricePerShare,
      currentPrice := lots[0].currentPrice)
  }

  /** The average pass: total cost over total shares when there are shares. */
  function WithAverage(g: TickerGroup): TickerGroup {
    if g.totalShares > 0.0 then g.(averagePurchasePrice := g.totalCost / g.totalShares) else g
  }

  function TickerGroupsSpec(ps: seq<StockPosition>): seq<TickerGroup> {
    var ts := Tickers(ps);
    seq(|ts|, k requires 0 <= k < |ts| => WithAverage(RawGroup(ps, ts[k])))
  }

  // ---------------------------------------------------------------------------
  // The grouping, as the source computes it
  // ---------------------------------------------------------------------------

  /** `groups.find(g => g.ticker === ticker)`, as an index. */
  function FindGroup(groups: seq<TickerGroup>, t: string): (r: Option<nat>)
    ensures r.Some? ==> r.value < |groups| && groups[r.value].ticker == t
    ensures r.None? ==> forall k | 0 <= k < |groups| :: groups[k].ticker != t
  {
    if groups == [] then None
    else if groups[0].ticker == t then Some(0)
    else match FindGroup(groups[1..], t)
      case None => None
      case Some(k) => Some(k + 1)
  }

  /** Lines 36-42: a lot joins the group of its ticker; name, price and average stay. */
  function AddLot(g: TickerGroup, p: StockPosition): TickerGroup {
    g.(positions := g.positions + [p],
       totalShares := g.totalShares + p.shares,
       totalCost := g.totalCost + p.totalPurchasePrice,
       totalCurrentValue := g.totalCurrentValue + ValueOrCost(p),
       totalUnrealizedGainLoss := g.totalUnrealizedGainLoss + Unrealized(p),
       totalRealizedGainLoss := g.totalRealizedGainLoss + Realized(p))
  }

  /** Lines 30-34: the first lot of a ticker opens a group. */
  function NewGroup(p: StockPosition): TickerGroup {
    TickerGroup(
      ticker := p.ticker,
      companyName := p.companyName,
      positions := [p],
      totalShares := p.shares,
      totalCost := p.totalPurchasePrice,
      totalCurrentValue := ValueOrCost(p),
      totalUnrealizedGainLoss := Unrealized(p),
      totalRealizedGainLoss := Realized(p),
      averagePurchasePrice := p.purchasePricePerShare,
      currentPrice := p.currentPrice)
  }

  /** The groups the reduce holds after the lots ps. */
  predicate Reduced(ps: seq<StockPosition>, groups: seq<TickerGroup>) {
    && |groups| == |Tickers(ps)|
    && forall k | 0 <= k < |groups| :: groups[k] == RawGroup(ps, Tickers(ps)[k])
  }

  lemma RawGroupSnoc(ps: seq<StockPosition>, p: StockPosition, t: string)
    requires t in Tickers(ps)
    ensures t in Tickers(ps + [p])
    ensures RawGroup(ps + [p], t) == if p.ticker == t then AddLot(RawGroup(ps, t), p) else RawGroup(ps, t)
  {
    TickersSnoc(ps, p);
    TickersNonEmpty(ps, t);
    WithTickerSnoc(ps, p, t);
    var lots := WithTicker(ps, t);
    if p.ticker == t {
      SumSnoc(lots, p, Shares);
      SumSnoc(lots, p, Cost);
      SumSnoc(lots, p, ValueOrCost);
      SumSnoc(lots, p, Unrealized);
      SumSnoc(lots, p, Realized);
      assert (lots + [p])[0] == lots[0];
    } else {
      assert lots + [] == lots;
    }
  }

  /** A lot whose ticker already has a group. */
  lemma JoinStep(ps: seq<StockPosition>, p: StockPosition, groups: seq<TickerGroup>, k: nat)
    requires Reduced(ps, groups)
    requires k < |groups| && groups[k].ticker == p.ticker
    ensures Reduced(ps + [p], groups[k := AddLot(groups[k], p)])
  {
    var ts := Tickers(ps);
    TickersSnoc(ps, p);
    assert ts[k] == p.ticker;
    assert Tickers(ps + [p]) == ts;
    forall l | 0 <= l < |groups|
      ensures groups[k := AddLot(groups[k], p)][l] == RawGroup(ps + [p], ts[l])
    {
      RawGroupSnoc(ps, p, ts[l]);
    }
  }

  /** The group a lot with a new ticker opens is its group after the lot. */
  lemma NewTickerGroup(ps: seq<StockPosition>, p: StockPosition)
    requires p.ticker !in Tickers(ps)
    ensures p.ticker in Tickers(ps + [p])
    ensures RawGroup(ps + [p], p.ticker) == NewGroup(p)
  {
    TickersSnoc(ps, p);
    WithTickerSnoc(ps, p, p.ticker);
    assert WithTicker(ps + [p], p.ticker) == [p];
    SumSnoc([], p, Shares);
    SumSnoc([], p, Cost);
    SumSnoc([], p, ValueOrCost);
    SumSnoc([], p, Unrealized);
    SumSnoc([], p, Realized);
    assert [] + [p] == [p];
  }

  /** A lot whose ticker has no group yet. */
  lemma OpenStep(ps: seq<StockPosition>, p: StockPosition, groups: seq<TickerGroup>)
    requires Reduced(ps, groups)
    requires forall k | 0 <= k < |groups| :: groups[k].ticker != p.ticker
    ensures Reduced(ps + [p], groups + [NewGroup(p)])
  {
    var ts := Tickers(ps);
    TickersSnoc(ps, p);
    assert p.ticker !in ts by {
      forall k | 0 <= k < |ts| ensures ts[k] != p.ticker {
        assert groups[k] == RawGroup(ps, ts[k]);
      }
    }
    var ts' := Tickers(ps + [p]);
    assert ts' == ts + [p.ticker];
    forall l | 0 <= l < |ts|
      ensures (groups + [NewGroup(p)])[l] == RawGroup(ps + [p], ts'[l])
    {
      assert ts'[l] == ts[l];
      RawGroupSnoc(ps, p, ts[l]);
    }
    NewTickerGroup(ps, p);
  }

  /** The reduce of lines 20-46, then the average pass. */
  method TickerGroups(ps: seq<StockPosition>) returns (groups: seq<TickerGroup>)
    ensures groups == TickerGroupsSpec(ps)
  {
    groups := [];
    var i := 0;
    while i < |ps|
      invariant 0 <= i <= |ps|
      invariant Reduced(ps[..i], groups)
    {
      var position := ps[i];
      assert ps[..i + 1] == ps[..i] + [position];
      var existing := FindGroup(groups, position.ticker);
      if existing.Some? {
        JoinStep(ps[..i], position, groups, existing.value);
        groups := groups[existing.value := AddLot(groups[existing.value], position)];
      } else {
        OpenStep(ps[..i], position, groups);
        groups := groups + [NewGroup(position)];
      }
      i := i + 1;
    }
    assert ps[..|ps|] == ps;
    groups := SetAverages(groups);
  }

  /** Lines 49-53: each group's average becomes its total cost over its total shares when
      it has shares. */
  method SetAverages(raw: seq<TickerGroup>) returns (groups: seq<TickerGroup>)
    ensures |groups| == |raw|
    ensures forall k | 0 <= k < |raw| :: groups[k] == WithAverage(raw[k])
  {
    groups := raw;
    var j := 0;
    while j < |groups|
      invariant 0 <= j <= |groups| == |raw|
      invariant forall k | 0 <= k < j :: groups[k] == WithAverage(raw[k])
      invariant forall k | j <= k < |groups| :: groups[k] == raw[k]
    {
      if groups[j].totalShares > 0.0 {
        groups := groups[j := groups[j].(averagePurchasePrice := groups[j].totalCost / groups[j].totalShares)];
      }
      j := j + 1;
    }
  }

  // ---------------------------------------------------------------------------
  // What the grouping promises
  // ---------------------------------------------------------------------------

  /** Every lot lies in exactly one group: the group tickers are distinct, there is a group
      for each lot's ticker, and a group holds exactly the lots of its ticker. */
  lemma GroupsPartition(ps: seq<StockPosition>)
    ensures forall k, l | 0 <= k < l < |TickerGroupsSpec(ps)| ::
              TickerGroupsSpec(ps)[k].ticker != TickerGroupsSpec(ps)[l].ticker
    ensures forall i | 0 <= i < |ps| ::
              exists k :: 0 <= k < |TickerGroupsSpec(ps)| && TickerGroupsSpec(ps)[k].ticker == ps[i].ticker
    ensures forall k, q | 0 <= k < |TickerGroupsSpec(ps)| ::
              q in TickerGroupsSpec(ps)[k].positions <==> q in ps && q.ticker == TickerGroupsSpec(ps)[k].ticker
  {
    var gs := TickerGroupsSpec(ps);
    var ts := Tickers(ps);
    TickersExact(ps);
    forall i | 0 <= i < |ps|
      ensures exists k :: 0 <= k < |gs| && gs[k].ticker == ps[i].ticker
    {
      assert ps[i].ticker in ts;
      var k :| 0 <= k < |ts| && ts[k] == ps[i].ticker;
      assert gs[k].ticker == ps[i].ticker;
    }
    forall k | 0 <= k < |gs|
      ensures forall q :: q in gs[k].positions <==> q in ps && q.ticker == gs[k].ticker
    {
      WithTickerMembers(ps, ts[k]);
    }
  }

  /** The index of the first lot with ticker t, or |ps| when there is none. */
  function FirstIndex(ps: seq<StockPosition>, t: string): (r: nat)
    ensures r <= |ps|
    ensures r < |ps| ==> ps[r].ticker == t
    ensures forall j | 0 <= j < r :: ps[j].ticker != t
  {
    if ps == [] then 0
    else if ps[0].ticker == t then 0
    else 1 + FirstIndex(ps[1..], t)
  }

  /** Groups appear in order of the first occurrence of their ticker in the list. */
  lemma {:induction false} GroupsInFirstOccurrenceOrder(ps: seq<StockPosition>)
    ensures forall k | 0 <= k < |Tickers(ps)| :: FirstIndex(ps, Tickers(ps)[k]) < |ps|
    ensures forall k, l | 0 <= k < l < |Tickers(ps)| ::
              FirstIndex(ps, Tickers(ps)[k]) < FirstIndex(ps, Tickers(ps)[l])
  {
    if ps != [] {
      var init := ps[..|ps| - 1];
      var p := ps[|ps| - 1];
      GroupsInFirstOccurrenceOrder(init);
      assert ps == init + [p];
      TickersSnoc(init, p);
      var ts0 := Tickers(init);
      var ts := Tickers(ps);
      // a ticker already present keeps its first index
      forall k | 0 <= k < |ts0|
        ensures FirstIndex(ps, ts0[k]) == FirstIndex(init, ts0[k]) < |init|
      {
        FirstIndexPrefix(init, p, ts0[k]);
      }
      if p.ticker !in ts0 {
        TickersExact(init);
        forall j | 0 <= j < |init| ensures ps[j].ticker != p.ticker {
          assert ps[j] == init[j];
        }
        assert FirstIndex(ps, p.ticker) == |init|;
        assert ts == ts0 + [p.ticker];
      }
      forall k | 0 <= k < |ts| ensures FirstIndex(ps, ts[k]) < |ps| {
        if k < |ts0| { assert ts[k] == ts0[k]; }
      }
      forall k, l | 0 <= k < l < |ts| ensures FirstIndex(ps, ts[k]) < FirstIndex(ps, ts[l]) {
        assert ts[k] == ts0[k];
        if l < |ts0| { assert ts[l] == ts0[l]; }
      }
    }
  }

  /** Appending a lot leaves the first index of a ticker already present unchanged. */
  lemma FirstIndexPrefix(ps: seq<StockPosition>, p: StockPosition, t: string)
    requires FirstIndex(ps, t) < |ps|
    ensures FirstIndex(ps + [p], t) == FirstIndex(ps, t)
  {
    var b := FirstIndex(ps, t);
    var a := FirstIndex(ps + [p], t);
    assert (ps + [p])[b] == ps[b];
  }

  /** Sum over the given tickers of the per-ticker sums. */
  function SumTickers(ps: seq<StockPosition>, ts: seq<string>, f: StockPosition -> real): real {
    if ts == [] then 0.0 else SumTickers(ps, ts[..|ts| - 1], f) + Sum(WithTicker(ps, ts[|ts| - 1]), f)
  }

  lemma {:induction false} SumTickersSnoc(ps: seq<StockPosition>, p: StockPosition, ts: seq<string>, f: StockPosition -> real)
    requires Distinct(ts)
    ensures SumTickers(ps + [p], ts, f) == SumTickers(ps, ts, f) + (if p.ticker in ts then f(p) else 0.0)
  {
    if ts != [] {
      var ts0 := ts[..|ts| - 1];
      var t := ts[|ts| - 1];
      assert ts == ts0 + [t];
      assert Distinct(ts0);
      SumTickersSnoc(ps, p, ts0, f);
      WithTickerSnoc(ps, p, t);
      if p.ticker == t {
        SumSnoc(WithTicker(ps, t), p, f);
        assert p.ticker !in ts0;
      } else {
        assert WithTicker(ps, t) + [] == WithTicker(ps, t);
      }
    }
  }

  /** A lot with a new ticker adds its own figure as that ticker's sum. */
  lemma NewTickerSum(ps: seq<StockPosition>, p: StockPosition, ts: seq<string>, f: StockPosition -> real)
    requires WithTicker(ps, p.ticker) == []
    ensures SumTickers(ps + [p], ts + [p.ticker], f) == SumTickers(ps + [p], ts, f) + f(p)
  {
    var ts' := ts + [p.ticker];
    assert ts'[..|ts'| - 1] == ts;
    WithTickerSnoc(ps, p, p.ticker);
    assert WithTicker(ps + [p], p.ticker) == [p];
    SumSnoc([], p, f);
    assert [] + [p] == [p];
  }

  /** Summing group by group gives the portfolio sum, for any per-lot figure. */
  lemma {:induction false} SumByTicker(ps: seq<StockPosition>, f: StockPosition -> real)
    ensures SumTickers(ps, Tickers(ps), f) == Sum(ps, f)
  {
    if ps != [] {
      var init := ps[..|ps| - 1];
      var p := ps[|ps| - 1];
      assert ps == init + [p];
      SumByTicker(init, f);
      TickersSnoc(init, p);
      SumSnoc(init, p, f);
      SumTickersSnoc(init, p, Tickers(init), f);
      if p.ticker !in Tickers(init) {
        NewTickerSum(init, p, Tickers(init), f);
      }
    }
  }

  /** Sum of one figure over a list of groups. */
  function SumGroups(gs: seq<TickerGroup>, f: TickerGroup -> real): real {
    if gs == [] then 0.0 else SumGroups(gs[..|gs| - 1], f) + f(gs[|gs| - 1])
  }

  /** Group by group, a list of groups whose figure h is the sum of f over the lots of the
      matching ticker adds up to the per-ticker sums. */
  lemma {:induction false} SumGroupsMatch(ps: seq<StockPosition>, gs: seq<TickerGroup>, ts: seq<string>,
                                          f: StockPosition -> real, h: TickerGroup -> real)
    requires |gs| == |ts|
    requires forall k | 0 <= k < |gs| :: h(gs[k]) == Sum(WithTicker(ps, ts[k]), f)
    ensures SumGroups(gs, h) == SumTickers(ps, ts, f)
  {
    if gs != [] {
      var n := |gs| - 1;
      SumGroupsMatch(ps, gs[..n], ts[..n], f, h);
    }
  }

  lemma GroupTotalMatches(ps: seq<StockPosition>, f: StockPosition -> real, h: TickerGroup -> real)
    requires forall k | 0 <= k < |Tickers(ps)| :: h(TickerGroupsSpec(ps)[k]) == Sum(WithTicker(ps, Tickers(ps)[k]), f)
    ensures SumGroups(TickerGroupsSpec(ps), h) == Sum(ps, f)
  {
    SumGroupsMatch(ps, TickerGroupsSpec(ps), Tickers(ps), f, h);
    SumByTicker(ps, f);
  }

  /** Adding up each group's total over all groups gives the matching portfolio total. */
  lemma GroupTotalsMatchPortfolio(ps: seq<StockPosition>)
    ensures SumGroups(TickerGroupsSpec(ps), GroupShares) == Sum(ps, Shares)
    ensures SumGroups(TickerGroupsSpec(ps), GroupCost) == Sum(ps, Cost)
    ensures SumGroups(TickerGroupsSpec(ps), GroupValue) == Sum(ps, ValueOrCost)
    ensures SumGroups(TickerGroupsSpec(ps), GroupUnrealized) == Sum(ps, Unrealized)
    ensures SumGroups(TickerGroupsSpec(ps), GroupRealized) == Sum(ps, Realized)
  {
    GroupTotalMatches(ps, Shares, GroupShares);
    GroupTotalMatches(ps, Cost, GroupCost);
    GroupTotalMatches(ps, ValueOrCost, GroupValue);
    GroupTotalMatches(ps, Unrealized, GroupUnrealized);
    GroupTotalMatches(ps, Realized, GroupRealized);
  }

  /** A group's average purchase price: total cost over total shares when it holds shares,
      otherwise the first lot's per-share price; its current price is the first lot's. */
  lemma GroupAverage(ps: seq<StockPosition>, k: nat)
    requires k < |TickerGroupsSpec(ps)|
    ensures var g := TickerGroupsSpec(ps)[k];
            && g.positions != []
            && (g.totalShares > 0.0 ==> g.averagePurchasePrice * g.totalShares == g.totalCost)
            && (!(g.totalShares > 0.0) ==> g.averagePurchasePrice == g.positions[0].purchasePricePerShare)
            && g.currentPrice == g.positions[0].currentPrice
            && g.companyName == g.positions[0].companyName
  {
    TickersNonEmpty(ps, Tickers(ps)[k]);
  }

  // ---------------------------------------------------------------------------
  // The portfolio summary
  // ---------------------------------------------------------------------------

  /** Lines 56-70: the sums, then the total gain and the return percentage assigned
      after construction. */
  method ComputePortfolio(ps: seq<StockPosition>) returns (pf: Portfolio)
    ensures pf.positions == ps
    ensures pf.totalValue == Sum(ps, ValueOrCost)
    ensures pf.totalCost == Sum(ps, Cost)
    ensures pf.totalUnrealizedGainLoss == Sum(ps, Unrealized)
    ensures pf.totalRealizedGainLoss == Sum(ps, Realized)
    ensures pf.totalGainLoss == pf.totalUnrealizedGainLoss + pf.totalRealizedGainLoss
    ensures pf.totalCost > 0.0 ==> pf.totalGainLossPercentage * pf.totalCost == pf.totalGainLoss * 100.0
    ensures !(pf.totalCost > 0.0) ==> pf.totalGainLossPercentage == 0.0
  {
    pf := Portfolio(
      positions := ps,
      totalValue := Sum(ps, ValueOrCost),
      totalCost := Sum(ps, Cost),
      totalUnrealizedGainLoss := Sum(ps, Unrealized),
      totalRealizedGainLoss := Sum(ps, Realized),
      totalGainLoss := 0.0,
      totalGainLossPercentage := 0.0);
    pf := pf.(totalGainLoss := pf.totalUnrealizedGainLoss + pf.totalRealizedGainLoss);
    if pf.totalCost > 0.0 {
      pf := pf.(totalGainLossPercentage := (pf.totalGainLoss / pf.totalCost) * 100.0);
    }
  }

  // ---------------------------------------------------------------------------
  // Finding: the group average after partial sales
  // ---------------------------------------------------------------------------

  /** The average cost of the shares still held: Σ(per-share cost × shares) / Σ shares. */
  function RemainingCostAverage(lots: seq<StockPosition>): real {
    Div(Sum(lots, HeldCost), Sum(lots, Shares))
  }

  lemma LowerStep(lo: real, s0: real, w0: real, c: real, s: real)
    requires lo * s0 <= w0 && lo <= c && s >= 0.0
    ensures lo * (s0 + s) <= w0 + c * s
  {
    assert lo * (s0 + s) == lo * s0 + lo * s;
    assert (c - lo) * s >= 0.0;
  }

  lemma UpperStep(hi: real, s0: real, w0: real, c: real, s: real)
    requires w0 <= hi * s0 && c <= hi && s >= 0.0
    ensures w0 + c * s <= hi * (s0 + s)
  {
    assert hi * (s0 + s) == hi * s0 + hi * s;
    assert (hi - c) * s >= 0.0;
  }

  lemma {:induction false} HeldCostAtLeast(lots: seq<StockPosition>, lo: real)
    requires forall p | p in lots :: p.shares >= 0.0 && lo <= p.purchasePricePerShare
    ensures lo * Sum(lots, Shares) <= Sum(lots, HeldCost)
  {
    if lots != [] {
      var init := lots[..|lots| - 1];
      var p := lots[|lots| - 1];
      assert forall q | q in init :: q in lots;
      HeldCostAtLeast(init, lo);
      assert p in lots;
      LowerStep(lo, Sum(init, Shares), Sum(init, HeldCost), p.purchasePricePerShare, p.shares);
    }
  }

  lemma {:induction false} HeldCostAtMost(lots: seq<StockPosition>, hi: real)
    requires forall p | p in lots :: p.shares >= 0.0 && p.purchasePricePerShare <= hi
    ensures Sum(lots, HeldCost) <= hi * Sum(lots, Shares)
  {
    if lots != [] {
      var init := lots[..|lots| - 1];
      var p := lots[|lots| - 1];
      assert forall q | q in init :: q in lots;
      HeldCostAtMost(init, hi);
      assert p in lots;
      UpperStep(hi, Sum(init, Shares), Sum(init, HeldCost), p.purchasePricePerShare, p.shares);
    }
  }

  /** The corrected average lies between the cheapest and the dearest lot's per-share
      price; in particular a group whose lots share one per-share price averages to it. */
  lemma RemainingCostAverageBounds(lots: seq<StockPosition>, lo: real, hi: real)
    requires forall p | p in lots :: p.shares >= 0.0 && lo <= p.purchasePricePerShare <= hi
    requires Sum(lots, Shares) > 0.0
    ensures lo <= RemainingCostAverage(lots) <= hi
  {
    HeldCostAtLeast(lots, lo);
    HeldCostAtMost(lots, hi);
    QuotientBounds(lo, hi, Sum(lots, HeldCost), Sum(lots, Shares));
  }

  lemma QuotientBounds(lo: real, hi: real, w: real, s: real)
    requires s > 0.0 && lo * s <= w <= hi * s
    ensures lo <= w / s <= hi
  {
    assert (w / s) * s == w;
  }

  /** As written, one lot of 100 shares bought for 1500 (15 a share) with 40 sold shows a
      group average of 25, while the shares held cost 15 each. */
  lemma AverageAfterPartialSale(p: StockPosition)
    requires p.shares == 60.0 && p.originalShares == 100.0
    requires p.totalPurchasePrice == 1500.0 && p.purchasePricePerShare == 15.0
    ensures TickerGroupsSpec([p])[0].averagePurchasePrice == 25.0
    ensures RemainingCostAverage([p]) == 15.0
  {
    assert [p][..0] == [];
    assert Tickers([p]) == [p.ticker];
    assert WithTicker([p], p.ticker) == [p];
    SumSnoc([], p, Shares);
    SumSnoc([], p, Cost);
    SumSnoc([], p, HeldCost);
    assert [] + [p] == [p];
    assert Sum([p], Shares) == 60.0;
    assert Sum([p], Cost) == 1500.0;
    assert Sum([p], HeldCost) == 900.0;
  }
}
