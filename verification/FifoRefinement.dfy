/** The matcher on a grid produces exactly what the line of lots says. */
module FifoRefinement {
  import opened Seqs
  import opened FifoMatching
  import opened FifoSymbols
  import opened FifoGrid

  /** A position shows the line of `lots` sold up to `lo`, with these results so far. */
  ghost predicate Shows(p: Position, lots: seq<FifoLot>, lo: real, realized: seq<RealizedLot>,
                        unknown: seq<UnknownBasisSale>, step: real) {
    && Map(SliceOf, p.queue) == Overlaps(lots, 0.0, lo, SumReal(LotQuantity, lots))
    && Map(WithoutCost, p.realized) == realized
    && p.unknown == unknown
    && QueueOnGrid(p.queue, step)
    && forall lot :: lot in p.dropped ==> lot.quantity == 0.0
  }

  /** The replay of `trades` shows exactly what the line of lots says. */
  ghost predicate Refines(trades: seq<LiveTrade>, step: real) {
    Shows(Replay(trades), Bought(trades), Consumed(trades), ExpectedRealized(trades), ExpectedUnknown(trades), step)
  }

  lemma {:induction false} LedgerAfterBuy(front: seq<LiveTrade>, t: LiveTrade)
    requires t.Buy?
    ensures Bought(front + [t]) == Bought(front) + [t.lot]
    ensures Consumed(front + [t]) == Consumed(front)
    ensures ExpectedRealized(front + [t]) == ExpectedRealized(front)
    ensures ExpectedUnknown(front + [t]) == ExpectedUnknown(front)
  {
    assert (front + [t])[..|front|] == front;
  }

  lemma {:induction false} LedgerAfterSell(front: seq<LiveTrade>, t: LiveTrade)
    requires t.Sell?
    ensures Bought(front + [t]) == Bought(front)
    ensures Consumed(front + [t]) == Min(Consumed(front) + t.sale.quantity, TotalBought(front))
    ensures ExpectedRealized(front + [t]) == ExpectedRealized(front) + SoldBy(t.sale, Bought(front), Consumed(front))
    ensures ExpectedUnknown(front + [t]) == ExpectedUnknown(front) + BeyondBought(t.sale, Bought(front), Consumed(front))
  {
    assert (front + [t])[..|front|] == front;
  }

  lemma {:induction false} LotExtendsLine(lots: seq<FifoLot>, lot: FifoLot, lo: real)
    requires PositiveLots(lots) && lot.quantity > 0.0 && lo <= SumReal(LotQuantity, lots)
    ensures SumReal(LotQuantity, lots + [lot]) == SumReal(LotQuantity, lots) + lot.quantity
    ensures Overlaps(lots + [lot], 0.0, lo, SumReal(LotQuantity, lots + [lot]))
         == Overlaps(lots, 0.0, lo, SumReal(LotQuantity, lots)) + [SliceOf(lot)]
  {
    SumRealAppend(LotQuantity, lots, [lot]);
    OverlapsSnoc(lots, lot, 0.0, lo);
  }

  lemma {:induction false} RefinesBuy(front: seq<LiveTrade>, t: LiveTrade, step: real)
    requires t.Buy? && OnGrid(t.lot.quantity, step) && Refines(front, step)
    ensures Refines(front + [t], step)
  {
    hide Overlaps, SumReal, Replay, OnGrid;
    LedgerAfterBuy(front, t);
    LedgerShape(front);
    ReplaySnoc(front, t);
    LotExtendsLine(Bought(front), t.lot, Consumed(front));
    MapAppend(SliceOf, Replay(front).queue, [t.lot]);
  }

  /** Selling cuts the open row of slices at the new mark. */
  lemma {:induction false} SellCutsLine(lots: seq<FifoLot>, lo: real, q: real)
    requires PositiveLots(lots) && q > 0.0 && 0.0 <= lo <= SumReal(LotQuantity, lots)
    ensures var hi := SumReal(LotQuantity, lots);
            var slices, mid := Overlaps(lots, 0.0, lo, hi), Min(lo + q, hi);
            && Overlaps(lots, 0.0, lo, mid) == Take(slices, q)
            && Overlaps(lots, 0.0, mid, hi) == Drop(slices, q)
            && SumReal(SliceQuantity, slices) == hi - lo
  {
    hide Overlaps, Take, Drop, SumReal;
    var hi := SumReal(LotQuantity, lots);
    OverlapsTotal(lots, 0.0, lo);
    if q >= hi - lo {
      PositiveOverlaps(lots, 0.0, lo, hi);
      TakeAll(Overlaps(lots, 0.0, lo, hi), q);
      NoOverlaps(lots, 0.0, hi, hi);
    } else {
      OverlapsSplit(lots, 0.0, lo, lo + q, hi);
    }
  }

  /** One sell against a queue that shows the open part of the line. */
  lemma {:induction false} SellMatchesLine(sale: Sale, queue: seq<FifoLot>, lots: seq<FifoLot>, lo: real, step: real)
    requires sale.quantity > EPSILON && Matchable(queue)
    requires step > EPSILON && OnGrid(sale.quantity, step) && QueueOnGrid(queue, step)
    requires PositiveLots(lots) && 0.0 <= lo <= SumReal(LotQuantity, lots)
    requires Map(SliceOf, queue) == Overlaps(lots, 0.0, lo, SumReal(LotQuantity, lots))
    ensures var r, hi := MatchSell(sale, sale.quantity, queue), SumReal(LotQuantity, lots);
            && Map(WithoutCost, r.pieces) == SoldBy(sale, lots, lo)
            && Map(SliceOf, r.queue) == Overlaps(lots, 0.0, Min(lo + sale.quantity, hi), hi)
            && UnknownParts(sale, r.unmatched) == BeyondBought(sale, lots, lo)
            && QueueOnGrid(r.queue, step)
            && forall lot :: lot in r.dropped ==> lot.quantity == 0.0
  {
    hide MatchSell, Overlaps, Take, Drop, UnknownParts, BeyondBought, OnGrid;
    MatchSellTakes(sale, sale.quantity, queue, step);
    MatchSellStaysOnGrid(sale, sale.quantity, queue, step);
    SellCutsLine(lots, lo, sale.quantity);
    UnknownOnGrid(sale, queue, MatchSell(sale, sale.quantity, queue).unmatched, step, lots, lo);
  }

  lemma {:induction false} ShowsAfterSell(
      p: Position, t: LiveTrade, lots: seq<FifoLot>, lo: real, realized: seq<RealizedLot>,
      unknown: seq<UnknownBasisSale>, step: real)
    requires t.Sell? && step > EPSILON && OnGrid(t.sale.quantity, step)
    requires PositiveLots(lots) && 0.0 <= lo <= SumReal(LotQuantity, lots)
    requires Matchable(p.queue) && Shows(p, lots, lo, realized, unknown, step)
    ensures Shows(Advance(p, t), lots, Min(lo + t.sale.quantity, SumReal(LotQuantity, lots)),
                  realized + SoldBy(t.sale, lots, lo), unknown + BeyondBought(t.sale, lots, lo), step)
  {
    SellMatchesLine(t.sale, p.queue, lots, lo, step);
    MapAppend(WithoutCost, p.realized, MatchSell(t.sale, t.sale.quantity, p.queue).pieces);
  }

  lemma {:induction false} RefinesSell(front: seq<LiveTrade>, t: LiveTrade, step: real)
    requires step > EPSILON && t.Sell? && OnGrid(t.sale.quantity, step) && Refines(front, step)
    ensures Refines(front + [t], step)
  {
    hide Shows, Replay, Bought, Consumed, ExpectedRealized, ExpectedUnknown, Advance, OnGrid, SoldBy, BeyondBought;
    LedgerShape(front);
    ShowsAfterSell(Replay(front), t, Bought(front), Consumed(front),
                   ExpectedRealized(front), ExpectedUnknown(front), step);
    ReplaySnoc(front, t);
    LedgerAfterSell(front, t);
  }

  /** On the grid the excess is reported as soon as it is positive. */
  lemma {:induction false} UnknownOnGrid(sale: Sale, queue: seq<FifoLot>, unmatched: real, step: real, lots: seq<FifoLot>, lo: real)
    requires step > EPSILON && sale.quantity > EPSILON && OnGrid(sale.quantity, step) && QueueOnGrid(queue, step)
    requires unmatched == Max(0.0, sale.quantity - SumReal(SliceQuantity, Map(SliceOf, queue)))
    requires SumReal(SliceQuantity, Map(SliceOf, queue)) == SumReal(LotQuantity, lots) - lo
    ensures UnknownParts(sale, unmatched) == BeyondBought(sale, lots, lo)
  {
    TotalOnGrid(queue, step);
    GridMinus(sale.quantity, SumReal(SliceQuantity, Map(SliceOf, queue)), step);
    GridGap(sale.quantity - SumReal(SliceQuantity, Map(SliceOf, queue)), step);
  }

  lemma {:induction false} TotalOnGrid(queue: seq<FifoLot>, step: real)
    requires QueueOnGrid(queue, step)
    ensures OnGrid(SumReal(SliceQuantity, Map(SliceOf, queue)), step)
  {
    assert 0.0 == Multiple(0, step);
    if queue == [] {
    } else {
      TotalOnGrid(queue[1..], step);
      assert Map(SliceOf, queue)[1..] == Map(SliceOf, queue[1..]);
      GridMinus(0.0, queue[0].quantity, step);
      GridMinus(SumReal(SliceQuantity, Map(SliceOf, queue[1..])), -queue[0].quantity, step);
    }
  }

  lemma NothingRefines(step: real)
    ensures Refines([], step)
  {
  }

  lemma {:induction false} ReplayRefines(trades: seq<LiveTrade>, step: real)
    requires step > EPSILON && TradesOnGrid(trades, step)
    ensures Refines(trades, step)
  {
    hide Refines, OnGrid;
    if trades == [] {
      NothingRefines(step);
    } else {
      var front, last := trades[..|trades| - 1], trades[|trades| - 1];
      ReplayRefines(front, step);
      assert trades == front + [last];
      assert OnGrid(Quantity(last), step);
      if last.Buy? {
        RefinesBuy(front, last, step);
      } else {
        RefinesSell(front, last, step);
      }
    }
  }

  /** The queue algorithm on a whole transaction list refines the line of lots, symbol by symbol. */
  lemma {:induction false} MatcherRefinesLineOfLots(txns: seq<Txn>, symbol: string, step: real)
    requires step > EPSILON && TradesOnGrid(TradesOf(txns, symbol), step)
    ensures var st, trades := Run(txns), TradesOf(txns, symbol);
            && Map(WithoutCost, Filter(LotOf(symbol), st.realized)) == ExpectedRealized(trades)
            && Filter(SaleOf(symbol), st.unknown) == ExpectedUnknown(trades)
            && Map(SliceOf, QueueOf(st, symbol))
               == Overlaps(Bought(trades), 0.0, Consumed(trades), TotalBought(trades))
  {
    RunProjects(txns, symbol);
    ReplayRefines(TradesOf(txns, symbol), step);
  }
}
