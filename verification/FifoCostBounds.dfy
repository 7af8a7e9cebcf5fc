/**
 * Rounding to cents stays bounded: an open lot that has been sold from k times is within k/2
 * cents of its exact pro-rata cost, and the n parts of one sell bring in within n/2 cents of
 * the exact share of its proceeds.
 */
module FifoCostBounds {
  import opened Seqs
  import Rounding
  import opened FifoMatching
  import opened FifoSymbols
  import opened FifoGrid
  import opened FifoConservation

  // ---- One lot, sold from again and again ----

  /** `ms` are partial matches of `lot`: each takes some of what is left, never all of it. */
  ghost predicate Splits(lot: FifoLot, ms: seq<real>)
    decreases ms
  {
    ms != [] ==> 0.0 < ms[0] < lot.quantity && Splits(Reduce(lot, ms[0]), ms[1..])
  }

  ghost function AfterMatches(lot: FifoLot, ms: seq<real>): FifoLot
    requires Splits(lot, ms)
    decreases ms
  {
    if ms == [] then lot else AfterMatches(Reduce(lot, ms[0]), ms[1..])
  }

  lemma {:induction false} AfterOneMore(lot: FifoLot, ms: seq<real>, m: real)
    requires Splits(lot, ms) && 0.0 < m < AfterMatches(lot, ms).quantity
    ensures Splits(lot, ms + [m]) && AfterMatches(lot, ms + [m]) == Reduce(AfterMatches(lot, ms), m)
    decreases ms
  {
    hide MatchedCost;
    if ms == [] {
      assert [m][1..] == [];
      assert ms + [m] == [m];
    } else {
      assert (ms + [m])[1..] == ms[1..] + [m];
      AfterOneMore(Reduce(lot, ms[0]), ms[1..], m);
    }
  }

  /** The cost that `q` of the lot's shares carry before any rounding. */
  function ProRataCost(lot: FifoLot, q: real): real
    requires lot.quantity > 0.0
  {
    lot.costBasisCents as real * (q / lot.quantity)
  }

  lemma ReduceIsNearProRata(lot: FifoLot, m: real)
    requires 0.0 < m < lot.quantity
    ensures var reduced := Reduce(lot, m);
            -0.5 <= reduced.costBasisCents as real - ProRataCost(lot, reduced.quantity) <= 0.5
  {
    var c, q := lot.costBasisCents as real, lot.quantity;
    Rounding.RoundError(c * (m / q));
    Rounding.SharesAdd(q - m, m, q);
    assert (q - m) + m == q;
    assert c * ((q - m) / q) == c - c * (m / q);
  }

  lemma ScalingShrinksError(c: real, c1: real, q: real, q1: real, r: real)
    requires 0.0 <= r <= q1 <= q && 0.0 < q1
    requires -0.5 <= c1 - c * (q1 / q) <= 0.5
    ensures -0.5 <= c1 * (r / q1) - c * (r / q) <= 0.5
  {
    var s, e := r / q1, c1 - c * (q1 / q);
    assert 0.0 <= s <= 1.0;
    assert r / q == (q1 / q) * s by {
      assert r == q1 * s;
    }
    assert c1 * s - c * (r / q) == e * s by {
      assert c * (r / q) == (c * (q1 / q)) * s;
    }
    assert -0.5 <= e * s <= 0.5 by {
      if e >= 0.0 {
        assert e * s <= e * 1.0;
      } else {
        assert e * s >= e * 1.0;
      }
    }
  }

  /** A cost that is off by half a cent stays within half a cent when scaled down to fewer shares. */
  lemma ProRataStaysNear(lot: FifoLot, reduced: FifoLot, r: real)
    requires 0.0 <= r <= reduced.quantity <= lot.quantity && 0.0 < reduced.quantity
    requires -0.5 <= reduced.costBasisCents as real - ProRataCost(lot, reduced.quantity) <= 0.5
    ensures -0.5 <= ProRataCost(reduced, r) - ProRataCost(lot, r) <= 0.5
  {
    ScalingShrinksError(lot.costBasisCents as real, reduced.costBasisCents as real, lot.quantity, reduced.quantity, r);
  }

  lemma {:induction false} OpenLotCostBound(lot: FifoLot, ms: seq<real>)
    requires Splits(lot, ms) && lot.quantity > 0.0 && lot.costBasisCents >= 0
    ensures var open := AfterMatches(lot, ms);
            && 0.0 < open.quantity <= lot.quantity
            && -(|ms| as real) / 2.0 <= open.costBasisCents as real - ProRataCost(lot, open.quantity)
                                     <= |ms| as real / 2.0
            && 0 <= open.costBasisCents <= lot.costBasisCents
    decreases ms
  {
    if ms == [] {
      Rounding.SharesAdd(lot.quantity, 0.0, lot.quantity);
    } else {
      hide MatchedCost, ProRataCost;
      var reduced, open := Reduce(lot, ms[0]), AfterMatches(lot, ms);
      ReduceKeepsCostInRange(lot, ms[0]);
      OpenLotCostBound(reduced, ms[1..]);
      ReduceIsNearProRata(lot, ms[0]);
      ProRataStaysNear(lot, reduced, open.quantity);
    }
  }

  // ---- Which lots are open ----

  /** The open queue is the buys from the i-th on, the i-th of them sold from as `ms` says. */
  ghost predicate OpenFrom(queue: seq<FifoLot>, bought: seq<FifoLot>, i: nat, ms: seq<real>) {
    if i < |bought| then
      Splits(bought[i], ms) && queue == [AfterMatches(bought[i], ms)] + bought[i + 1..]
    else i == |bought| && queue == [] && ms == []
  }

  /** `ms` are the quantities of the last realized lots. */
  ghost predicate LastSold(realized: seq<RealizedLot>, ms: seq<real>) {
    |ms| <= |realized| && Map(RealizedQuantity, realized[|realized| - |ms|..]) == ms
  }

  lemma {:induction false} NextLotOpens(bought: seq<FifoLot>, i: nat)
    requires i < |bought|
    ensures OpenFrom(bought[i + 1..], bought, i + 1, [])
  {
    if i + 1 < |bought| {
      assert bought[i + 1..] == [bought[i + 1]] + bought[i + 2..];
    }
  }

  lemma {:induction false} SellKeepsShape(sale: Sale, remaining: real, queue: seq<FifoLot>, bought: seq<FifoLot>,
                                          i: nat, ms: seq<real>, realized: seq<RealizedLot>)
      returns (i': nat, ms': seq<real>)
    requires sale.quantity > EPSILON && remaining >= 0.0 && Matchable(queue)
    requires OpenFrom(queue, bought, i, ms) && LastSold(realized, ms)
    ensures var r := MatchSell(sale, remaining, queue);
            OpenFrom(r.queue, bought, i', ms') && LastSold(realized + r.pieces, ms')
    decreases |queue|, if remaining > EPSILON then 1 else 0
  {
    hide MatchSell, MatchedCost, MatchedProceeds, IsLongTerm, Splits, AfterMatches;
    if remaining > EPSILON && queue != [] {
      var lot := queue[0];
      var matched := Min(remaining, lot.quantity);
      var reduced := Reduce(lot, matched);
      var piece := Piece(sale, lot, matched);
      assert queue[1..] == bought[i + 1..];
      SellUnfolds(sale, remaining, queue);
      if reduced.quantity < EPSILON {
        NextLotOpens(bought, i);
        i', ms' := SellKeepsShape(sale, remaining - matched, queue[1..], bought, i + 1, [], realized + [piece]);
        assert realized + [piece] + MatchSell(sale, remaining - matched, queue[1..]).pieces
            == realized + MatchSell(sale, remaining, queue).pieces;
      } else {
        var next := [reduced] + queue[1..];
        AfterOneMore(bought[i], ms, matched);
        LastSoldSnoc(realized, ms, piece);
        i', ms' := SellKeepsShape(sale, remaining - matched, next, bought, i, ms + [matched], realized + [piece]);
        assert realized + [piece] + MatchSell(sale, remaining - matched, next).pieces
            == realized + MatchSell(sale, remaining, queue).pieces;
      }
    } else {
      SellStops(sale, remaining, queue);
      assert realized + [] == realized;
      i', ms' := i, ms;
    }
  }

  lemma LastSoldSnoc(realized: seq<RealizedLot>, ms: seq<real>, piece: RealizedLot)
    requires LastSold(realized, ms)
    ensures LastSold(realized + [piece], ms + [piece.quantity])
  {
    var k := |realized| - |ms|;
    assert (realized + [piece])[k..] == realized[k..] + [piece];
    MapAppend(RealizedQuantity, realized[k..], [piece]);
  }

  lemma {:induction false} BuyKeepsShape(queue: seq<FifoLot>, bought: seq<FifoLot>, i: nat, ms: seq<real>, lot: FifoLot)
    requires OpenFrom(queue, bought, i, ms)
    ensures OpenFrom(queue + [lot], bought + [lot], i, ms)
  {
    if i < |bought| {
      assert (bought + [lot])[i + 1..] == bought[i + 1..] + [lot];
    } else {
      assert (bought + [lot])[i + 1..] == [];
    }
  }

  lemma {:induction false} OpenQueueShape(trades: seq<LiveTrade>) returns (i: nat, ms: seq<real>)
    ensures OpenFrom(Replay(trades).queue, Bought(trades), i, ms)
    ensures LastSold(Replay(trades).realized, ms)
  {
    hide OpenFrom, LastSold;
    if trades == [] {
      i, ms := 0, [];
      NothingOpen();
    } else {
      var front, last := trades[..|trades| - 1], trades[|trades| - 1];
      i, ms := OpenQueueShape(front);
      var p := Replay(front);
      if last.Buy? {
        BuyKeepsShape(p.queue, Bought(front), i, ms, last.lot);
      } else {
        assert Bought(trades) == Bought(front);
        i, ms := SellKeepsShape(last.sale, last.sale.quantity, p.queue, Bought(front), i, ms, p.realized);
      }
    }
  }

  lemma NothingOpen()
    ensures OpenFrom([], [], 0, []) && LastSold([], [])
  {
  }

  /**
   * Every open lot of a symbol is one of its buys. Only the oldest open one can have been sold
   * from; its cost is within k/2 cents of pro rata, k the number of realized lots cut from it.
   */
  lemma OpenLotsKeepTheirCost(txns: seq<Txn>, symbol: string) returns (i: nat, ms: seq<real>)
    ensures var bought, queue := Bought(TradesOf(txns, symbol)), QueueOf(Run(txns), symbol);
            && OpenFrom(queue, bought, i, ms)
            && LastSold(Filter(LotOf(symbol), Run(txns).realized), ms)
            && (i < |bought| ==>
                  && bought[i].quantity > 0.0
                  && 0 <= queue[0].costBasisCents <= bought[i].costBasisCents
                  && -(|ms| as real) / 2.0
                     <= queue[0].costBasisCents as real - ProRataCost(bought[i], queue[0].quantity)
                     <= |ms| as real / 2.0)
  {
    var trades := TradesOf(txns, symbol);
    RunProjects(txns, symbol);
    i, ms := OpenQueueShape(trades);
    LedgerShape(trades);
    BoughtCosts(trades);
    if i < |Bought(trades)| {
      assert Bought(trades)[i] in Bought(trades);
      OpenLotCostBound(Bought(trades)[i], ms);
    }
  }

  lemma {:induction false} BoughtCosts(trades: seq<LiveTrade>)
    ensures CostsNonnegative(Bought(trades))
  {
    if trades == [] {
    } else {
      BoughtCosts(trades[..|trades| - 1]);
    }
  }

  // ---- The proceeds of one sell ----

  function RealizedProceeds(lot: RealizedLot): int {
    lot.proceedsCents
  }

  function UnknownProceeds(sale: UnknownBasisSale): int {
    sale.proceedsCents
  }

  /** Net proceeds times the share of the sell that `q` shares are. */
  function ExactProceeds(sale: Sale, q: real): real
    requires sale.quantity > 0.0
  {
    sale.netProceeds as real * (q / sale.quantity)
  }

  lemma {:induction false} PiecesSplitProceeds(sale: Sale, remaining: real, queue: seq<FifoLot>)
    requires sale.quantity > EPSILON && remaining >= 0.0 && Matchable(queue)
    ensures forall p :: p in MatchSell(sale, remaining, queue).pieces ==>
              && p.proceedsCents == MatchedProceeds(sale, p.quantity)
              && p.gainCents == p.proceedsCents - p.costBasisCents
              && p.closeDate == sale.closeDate && p.source == Fifo && p.txnId == None
    decreases |queue|, if remaining > EPSILON then 1 else 0
  {
    hide MatchSell, MatchedCost, MatchedProceeds, IsLongTerm;
    if remaining > EPSILON && queue != [] {
      var matched := Min(remaining, queue[0].quantity);
      var reduced := Reduce(queue[0], matched);
      SellUnfolds(sale, remaining, queue);
      PiecesSplitProceeds(sale, remaining - matched,
                          if reduced.quantity < EPSILON then queue[1..] else [reduced] + queue[1..]);
    } else {
      SellStops(sale, remaining, queue);
    }
  }

  lemma ProceedsAddUp(sale: Sale, a: real, b: real)
    requires sale.quantity > 0.0
    ensures ExactProceeds(sale, a + b) == ExactProceeds(sale, a) + ExactProceeds(sale, b)
    ensures -0.5 <= MatchedProceeds(sale, a) as real - ExactProceeds(sale, a) <= 0.5
  {
    Rounding.RoundError(sale.netProceeds as real * (a / sale.quantity));
    Rounding.SharesAdd(a, b, sale.quantity);
  }

  lemma {:induction false} PieceProceedsBound(sale: Sale, pieces: seq<RealizedLot>)
    requires sale.quantity > 0.0
    requires forall p :: p in pieces ==> p.proceedsCents == MatchedProceeds(sale, p.quantity)
    ensures -(|pieces| as real) / 2.0
         <= SumInt(RealizedProceeds, pieces) as real - ExactProceeds(sale, SumReal(RealizedQuantity, pieces))
         <= |pieces| as real / 2.0
  {
    if pieces == [] {
      assert 0.0 / sale.quantity == 0.0;
    } else {
      hide MatchedProceeds, ExactProceeds;
      PieceProceedsBound(sale, pieces[1..]);
      ProceedsAddUp(sale, pieces[0].quantity, SumReal(RealizedQuantity, pieces[1..]));
    }
  }

  /** The n parts a sell is split into, the one without basis included, sum to within n/2 cents. */
  lemma SellProceedsBound(sale: Sale, queue: seq<FifoLot>)
    requires sale.quantity > EPSILON && Matchable(queue)
    ensures var r := MatchSell(sale, sale.quantity, queue);
            var parts := UnknownParts(sale, r.unmatched);
            var accounted := SumReal(RealizedQuantity, r.pieces) + SumReal(UnknownQuantity, parts);
            var n := |r.pieces| + |parts|;
            -(n as real) / 2.0
              <= (SumInt(RealizedProceeds, r.pieces) + SumInt(UnknownProceeds, parts)) as real
                 - ExactProceeds(sale, accounted)
              <= n as real / 2.0
  {
    hide MatchSell, MatchedProceeds, ExactProceeds;
    var r := MatchSell(sale, sale.quantity, queue);
    PiecesSplitProceeds(sale, sale.quantity, queue);
    PieceProceedsBound(sale, r.pieces);
    if r.unmatched > EPSILON {
      assert SumInt(UnknownProceeds, [UnknownPart(sale, r.unmatched)]) == MatchedProceeds(sale, r.unmatched);
      assert SumReal(UnknownQuantity, [UnknownPart(sale, r.unmatched)]) == r.unmatched;
      ProceedsAddUp(sale, r.unmatched, SumReal(RealizedQuantity, r.pieces));
    }
  }
}
