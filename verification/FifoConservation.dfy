/**
 * Nothing is lost but dust: shares and cost bought are the shares and cost realized,
 * still open, or left on the lots that were dropped for being thinner than `EPSILON`.
 */
module FifoConservation {
  import opened Seqs
  import Rounding
  import opened FifoMatching
  import opened FifoSymbols
  import opened FifoGrid
  import FifoRefinement

  function LotCost(lot: FifoLot): int {
    lot.costBasisCents
  }

  function RealizedQuantity(lot: RealizedLot): real {
    lot.quantity
  }

  function RealizedCost(lot: RealizedLot): int {
    lot.costBasisCents
  }

  function UnknownQuantity(sale: UnknownBasisSale): real {
    sale.quantity
  }

  ghost predicate CostsNonnegative(lots: seq<FifoLot>) {
    forall lot :: lot in lots ==> lot.costBasisCents >= 0
  }

  /** Dust: what a dropped lot can still hold. */
  ghost predicate AllDust(lots: seq<FifoLot>) {
    forall lot :: lot in lots ==>
      0.0 <= lot.quantity < EPSILON && 0 <= lot.costBasisCents && (lot.quantity == 0.0 ==> lot.costBasisCents == 0)
  }

  lemma ReduceKeepsCostInRange(lot: FifoLot, matched: real)
    requires lot.costBasisCents >= 0 && 0.0 <= matched <= lot.quantity && lot.quantity > 0.0
    ensures 0 <= MatchedCost(lot, matched) <= lot.costBasisCents
    ensures matched == lot.quantity ==> MatchedCost(lot, matched) == lot.costBasisCents
  {
    assert 0.0 <= matched / lot.quantity <= 1.0;
    Rounding.RoundShare(lot.costBasisCents, matched / lot.quantity);
  }

  /** What goes into matching `remaining` shares against `queue` comes out in `r`. */
  ghost predicate SellBalanced(remaining: real, queue: seq<FifoLot>, r: SellResult) {
    && SumReal(LotQuantity, queue)
       == SumReal(RealizedQuantity, r.pieces) + SumReal(LotQuantity, r.queue) + SumReal(LotQuantity, r.dropped)
    && SumInt(LotCost, queue)
       == SumInt(RealizedCost, r.pieces) + SumInt(LotCost, r.queue) + SumInt(LotCost, r.dropped)
    && remaining == SumReal(RealizedQuantity, r.pieces) + r.unmatched
    && CostsNonnegative(r.queue) && AllDust(r.dropped)
    && 0.0 <= SumReal(LotQuantity, r.dropped) < EPSILON
  }

  lemma NothingSoldBalances(remaining: real, queue: seq<FifoLot>)
    requires CostsNonnegative(queue)
    ensures SellBalanced(remaining, queue, SellResult([], queue, remaining, []))
  {
  }

  lemma {:induction false} PieceBalances(piece: RealizedLot, lot: FifoLot, reduced: FifoLot, rest: seq<FifoLot>,
                                         remaining: real, r: SellResult, r': SellResult)
    requires lot.quantity == piece.quantity + reduced.quantity
    requires lot.costBasisCents == piece.costBasisCents + reduced.costBasisCents
    requires r'.pieces == [piece] + r.pieces && r'.queue == r.queue && r'.unmatched == r.unmatched
    requires
      || (r'.dropped == r.dropped && SellBalanced(remaining, [reduced] + rest, r))
      || (r'.dropped == [reduced] + r.dropped && SellBalanced(remaining, rest, r)
          && AllDust([reduced]) && (reduced.quantity == 0.0 || r.dropped == []))
    ensures SellBalanced(remaining + piece.quantity, [lot] + rest, r')
  {
    SumsOfCons(piece, r.pieces, reduced, r.dropped, rest);
    SumsOfCons(piece, r.pieces, lot, r.dropped, rest);
  }

  lemma {:induction false} SellConserves(sale: Sale, remaining: real, queue: seq<FifoLot>)
    requires sale.quantity > EPSILON && remaining >= 0.0 && Matchable(queue) && CostsNonnegative(queue)
    ensures SellBalanced(remaining, queue, MatchSell(sale, remaining, queue))
    decreases |queue|, if remaining > EPSILON then 1 else 0
  {
    hide MatchSell, MatchedCost, MatchedProceeds, SellBalanced;
    if remaining > EPSILON && queue != [] {
      var lot, rest := queue[0], queue[1..];
      assert queue == [lot] + rest;
      var matched := Min(remaining, lot.quantity);
      var reduced := Reduce(lot, matched);
      ReduceKeepsCostInRange(lot, matched);
      SellUnfolds(sale, remaining, queue);
      var next := if reduced.quantity < EPSILON then rest else [reduced] + rest;
      SellConserves(sale, remaining - matched, next);
      PieceBalances(Piece(sale, lot, matched), lot, reduced, rest, remaining - matched,
                    MatchSell(sale, remaining - matched, next), MatchSell(sale, remaining, queue));
    } else {
      SellStops(sale, remaining, queue);
      NothingSoldBalances(remaining, queue);
    }
  }

  lemma {:induction false} SumsOfCons(piece: RealizedLot, pieces: seq<RealizedLot>, lot: FifoLot,
                                      dropped: seq<FifoLot>, rest: seq<FifoLot>)
    ensures SumReal(RealizedQuantity, [piece] + pieces) == piece.quantity + SumReal(RealizedQuantity, pieces)
    ensures SumInt(RealizedCost, [piece] + pieces) == piece.costBasisCents + SumInt(RealizedCost, pieces)
    ensures SumReal(LotQuantity, [lot] + dropped) == lot.quantity + SumReal(LotQuantity, dropped)
    ensures SumInt(LotCost, [lot] + dropped) == lot.costBasisCents + SumInt(LotCost, dropped)
    ensures SumReal(LotQuantity, [lot] + rest) == lot.quantity + SumReal(LotQuantity, rest)
    ensures SumInt(LotCost, [lot] + rest) == lot.costBasisCents + SumInt(LotCost, rest)
  {
  }

  function Sells(trades: seq<LiveTrade>): nat {
    if trades == [] then 0
    else Sells(trades[..|trades| - 1]) + if trades[|trades| - 1].Sell? then 1 else 0
  }

  function TotalSold(trades: seq<LiveTrade>): real {
    if trades == [] then 0.0
    else
      var last := trades[|trades| - 1];
      TotalSold(trades[..|trades| - 1]) + if last.Sell? then last.sale.quantity else 0.0
  }

  /** The books of one symbol after a list of trades: shares in, cost in, shares out. */
  ghost predicate Balanced(p: Position, bought: seq<FifoLot>, sold: real, sells: nat) {
    && SumReal(LotQuantity, bought)
       == SumReal(RealizedQuantity, p.realized) + SumReal(LotQuantity, p.queue) + SumReal(LotQuantity, p.dropped)
    && SumInt(LotCost, bought)
       == SumInt(RealizedCost, p.realized) + SumInt(LotCost, p.queue) + SumInt(LotCost, p.dropped)
    && 0.0 <= sold - SumReal(RealizedQuantity, p.realized) - SumReal(UnknownQuantity, p.unknown)
            <= EPSILON * sells as real
    && CostsNonnegative(p.queue) && AllDust(p.dropped)
    && 0.0 <= SumReal(LotQuantity, p.dropped) <= EPSILON * sells as real
    && (sells > 0 ==> SumReal(LotQuantity, p.dropped) < EPSILON * sells as real)
  }

  lemma {:induction false} BuyBalances(p: Position, t: LiveTrade, bought: seq<FifoLot>, sold: real, sells: nat)
    requires t.Buy? && Matchable(p.queue) && Balanced(p, bought, sold, sells)
    ensures Balanced(Advance(p, t), bought + [t.lot], sold, sells)
  {
    SumRealAppend(LotQuantity, bought, [t.lot]);
    SumIntAppend(LotCost, bought, [t.lot]);
    SumRealAppend(LotQuantity, p.queue, [t.lot]);
    SumIntAppend(LotCost, p.queue, [t.lot]);
  }

  lemma {:induction false} SellBalances(p: Position, t: LiveTrade, bought: seq<FifoLot>, sold: real, sells: nat)
    requires t.Sell? && Matchable(p.queue) && Balanced(p, bought, sold, sells)
    ensures Balanced(Advance(p, t), bought, sold + t.sale.quantity, sells + 1)
  {
    var sale := t.sale;
    var r := MatchSell(sale, sale.quantity, p.queue);
    SellConserves(sale, sale.quantity, p.queue);
    SumRealAppend(RealizedQuantity, p.realized, r.pieces);
    SumIntAppend(RealizedCost, p.realized, r.pieces);
    SumRealAppend(LotQuantity, p.dropped, r.dropped);
    SumIntAppend(LotCost, p.dropped, r.dropped);
    SumRealAppend(UnknownQuantity, p.unknown, UnknownParts(sale, r.unmatched));
  }

  lemma {:induction false} TradesConserve(trades: seq<LiveTrade>)
    ensures Balanced(Replay(trades), Bought(trades), TotalSold(trades), Sells(trades))
  {
    if trades == [] {
    } else {
      var front, last := trades[..|trades| - 1], trades[|trades| - 1];
      TradesConserve(front);
      if last.Buy? {
        BuyBalances(Replay(front), last, Bought(front), TotalSold(front), Sells(front));
      } else {
        SellBalances(Replay(front), last, Bought(front), TotalSold(front), Sells(front));
        assert Bought(trades) == Bought(front);
      }
    }
  }

  lemma {:induction false} SumsOfSpentLots(lots: seq<FifoLot>)
    requires AllDust(lots) && forall lot :: lot in lots ==> lot.quantity == 0.0
    ensures SumReal(LotQuantity, lots) == 0.0 && SumInt(LotCost, lots) == 0
  {
    if lots == [] {
    } else {
      SumsOfSpentLots(lots[1..]);
    }
  }

  /**
   * Per symbol, over all years: the share shortfall is dust of less than `EPSILON` a sell,
   * and the missing cost is the cost left on the lots dropped as dust.
   */
  lemma SharesAndCostAreConserved(txns: seq<Txn>, symbol: string)
    ensures var st, trades := Run(txns), TradesOf(txns, symbol);
            var lost := Replay(trades).dropped;
            && TotalBought(trades)
               == SumReal(RealizedQuantity, Filter(LotOf(symbol), st.realized))
                  + SumReal(LotQuantity, QueueOf(st, symbol)) + SumReal(LotQuantity, lost)
            && SumInt(LotCost, Bought(trades))
               == SumInt(RealizedCost, Filter(LotOf(symbol), st.realized))
                  + SumInt(LotCost, QueueOf(st, symbol)) + SumInt(LotCost, lost)
            && AllDust(lost)
            && 0.0 <= SumReal(LotQuantity, lost) <= EPSILON * Sells(trades) as real
            && (Sells(trades) > 0 ==> SumReal(LotQuantity, lost) < EPSILON * Sells(trades) as real)
  {
    RunProjects(txns, symbol);
    TradesConserve(TradesOf(txns, symbol));
  }

  /** Shares sold are the shares realized or reported without basis, up to `EPSILON` a sell. */
  lemma SoldSharesAreAccountedFor(txns: seq<Txn>, symbol: string)
    ensures var st, trades := Run(txns), TradesOf(txns, symbol);
            0.0 <= TotalSold(trades) - SumReal(RealizedQuantity, Filter(LotOf(symbol), st.realized))
                   - SumReal(UnknownQuantity, Filter(SaleOf(symbol), st.unknown))
                <= EPSILON * Sells(trades) as real
  {
    RunProjects(txns, symbol);
    TradesConserve(TradesOf(txns, symbol));
  }

  /** On a grid conservation is exact. */
  lemma ConservationIsExactOnGrid(txns: seq<Txn>, symbol: string, step: real)
    requires step > EPSILON && TradesOnGrid(TradesOf(txns, symbol), step)
    ensures var st, trades := Run(txns), TradesOf(txns, symbol);
            && TotalBought(trades)
               == SumReal(RealizedQuantity, Filter(LotOf(symbol), st.realized))
                  + SumReal(LotQuantity, QueueOf(st, symbol))
            && SumInt(LotCost, Bought(trades))
               == SumInt(RealizedCost, Filter(LotOf(symbol), st.realized)) + SumInt(LotCost, QueueOf(st, symbol))
  {
    SharesAndCostAreConserved(txns, symbol);
    FifoRefinement.ReplayRefines(TradesOf(txns, symbol), step);
    SumsOfSpentLots(Replay(TradesOf(txns, symbol)).dropped);
  }
}
