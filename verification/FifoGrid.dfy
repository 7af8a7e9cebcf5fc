/**
 * What FIFO matching means. Lay a symbol's buys end to end on a line and keep the mark
 * up to which shares have been sold; a sell takes the next stretch of the line. When all
 * quantities are multiples of one step larger than `EPSILON`, the queue algorithm
 * produces exactly the overlaps of those stretches with the lots.
 */
module FifoGrid {
  import opened Seqs
  import Calendar
  import opened FifoMatching
  import FifoSymbols

  // ---- Quantities on a grid ----

  function Multiple(k: int, step: real): real {
    k as real * step
  }

  ghost predicate OnGrid(q: real, step: real) {
    exists k :: q == Multiple(k, step)
  }

  lemma {:induction false} GridMinus(a: real, b: real, step: real)
    requires OnGrid(a, step) && OnGrid(b, step)
    ensures OnGrid(a - b, step)
  {
    var j, k :| a == Multiple(j, step) && b == Multiple(k, step);
    assert a - b == Multiple(j - k, step);
  }

  /** On the grid the dust tests against `EPSILON` are tests against zero. */
  lemma {:induction false} GridGap(q: real, step: real)
    requires OnGrid(q, step) && step > EPSILON
    ensures q > 0.0 <==> q > EPSILON
    ensures q > 0.0 <==> q >= EPSILON
  {
    var k :| q == Multiple(k, step);
    if k >= 1 {
      assert (k - 1) as real * step >= 0.0;
    } else {
      assert (-k) as real * step >= 0.0;
    }
  }

  ghost predicate QueueOnGrid(queue: seq<FifoLot>, step: real) {
    forall lot :: lot in queue ==> OnGrid(lot.quantity, step)
  }

  function Quantity(t: FifoSymbols.LiveTrade): real {
    match t
    case Buy(lot) => lot.quantity
    case Sell(sale) => sale.quantity
  }

  ghost predicate TradesOnGrid(trades: seq<FifoSymbols.LiveTrade>, step: real) {
    forall t :: t in trades ==> OnGrid(Quantity(t), step)
  }

  // ---- The line of lots ----

  /** A stretch of one lot: the lot's identity and how many of its shares. */
  datatype Slice = Slice(symbol: Option<string>, securityName: Option<string>, openDate: Calendar.Date, quantity: real)

  function SliceOf(lot: FifoLot): Slice {
    Slice(lot.symbol, lot.securityName, lot.openDate, lot.quantity)
  }

  function LotQuantity(lot: FifoLot): real {
    lot.quantity
  }

  function SliceQuantity(s: Slice): real {
    s.quantity
  }

  /** The nonempty overlaps of [lo, hi) with the lots laid end to end from `at`, in lot order. */
  function Overlaps(lots: seq<FifoLot>, at: real, lo: real, hi: real): seq<Slice> {
    if lots == [] then []
    else
      var end := at + lots[0].quantity;
      var from, to := Max(at, lo), Min(end, hi);
      (if from < to then [SliceOf(lots[0]).(quantity := to - from)] else []) + Overlaps(lots[1..], end, lo, hi)
  }

  function Bought(trades: seq<FifoSymbols.LiveTrade>): seq<FifoLot> {
    if trades == [] then []
    else
      var last := trades[|trades| - 1];
      Bought(trades[..|trades| - 1]) + if last.Buy? then [last.lot] else []
  }

  function TotalBought(trades: seq<FifoSymbols.LiveTrade>): real {
    SumReal(LotQuantity, Bought(trades))
  }

  /** The consumed mark. */
  function Consumed(trades: seq<FifoSymbols.LiveTrade>): real {
    if trades == [] then 0.0
    else
      var front, last := trades[..|trades| - 1], trades[|trades| - 1];
      if last.Sell? then Min(Consumed(front) + last.sale.quantity, TotalBought(front)) else Consumed(front)
  }

  // ---- The results a list of trades should give ----

  function WithoutCost(lot: RealizedLot): RealizedLot {
    lot.(costBasisCents := 0, gainCents := 0)
  }

  /** The realized lot for one overlap, but for its cost and gain. */
  function SoldSlice(sale: Sale): Slice -> RealizedLot
    requires sale.quantity > 0.0
  {
    (s: Slice) =>
      RealizedLot(s.symbol, s.securityName, Some(s.openDate), sale.closeDate, s.quantity,
                  0, MatchedProceeds(sale, s.quantity), 0, IsLongTerm(s.openDate, sale.closeDate), Fifo, None)
  }

  function SoldBy(sale: Sale, bought: seq<FifoLot>, consumed: real): seq<RealizedLot>
    requires sale.quantity > 0.0
  {
    var upTo := Min(consumed + sale.quantity, SumReal(LotQuantity, bought));
    Map(SoldSlice(sale), Overlaps(bought, 0.0, consumed, upTo))
  }

  function BeyondBought(sale: Sale, bought: seq<FifoLot>, consumed: real): seq<UnknownBasisSale>
    requires sale.quantity > 0.0
  {
    var excess := consumed + sale.quantity - SumReal(LotQuantity, bought);
    if excess > 0.0 then [UnknownPart(sale, excess)] else []
  }

  function ExpectedRealized(trades: seq<FifoSymbols.LiveTrade>): seq<RealizedLot> {
    if trades == [] then []
    else
      var front, last := trades[..|trades| - 1], trades[|trades| - 1];
      ExpectedRealized(front) + if last.Sell? then SoldBy(last.sale, Bought(front), Consumed(front)) else []
  }

  function ExpectedUnknown(trades: seq<FifoSymbols.LiveTrade>): seq<UnknownBasisSale> {
    if trades == [] then []
    else
      var front, last := trades[..|trades| - 1], trades[|trades| - 1];
      ExpectedUnknown(front) + if last.Sell? then BeyondBought(last.sale, Bought(front), Consumed(front)) else []
  }

  // ---- Taking shares off the front of a row of slices ----

  function Take(slices: seq<Slice>, q: real): seq<Slice> {
    if slices == [] || q <= 0.0 then []
    else if q < slices[0].quantity then [slices[0].(quantity := q)]
    else [slices[0]] + Take(slices[1..], q - slices[0].quantity)
  }

  function Drop(slices: seq<Slice>, q: real): seq<Slice> {
    if slices == [] || q <= 0.0 then slices
    else if q < slices[0].quantity then [slices[0].(quantity := slices[0].quantity - q)] + slices[1..]
    else Drop(slices[1..], q - slices[0].quantity)
  }

  ghost predicate PositiveSlices(slices: seq<Slice>) {
    forall s :: s in slices ==> s.quantity > 0.0
  }

  ghost predicate PositiveLots(lots: seq<FifoLot>) {
    forall lot :: lot in lots ==> lot.quantity > 0.0
  }

  lemma {:induction false} TakeAll(slices: seq<Slice>, q: real)
    requires PositiveSlices(slices) && q >= SumReal(SliceQuantity, slices)
    ensures Take(slices, q) == slices && Drop(slices, q) == []
    ensures SumReal(SliceQuantity, slices) >= 0.0
  {
    if slices == [] {
    } else {
      if q < slices[0].quantity || q <= 0.0 {
        NonnegativeSum(slices[1..]);
      }
      TakeAll(slices[1..], q - slices[0].quantity);
      assert slices == [slices[0]] + slices[1..];
    }
  }

  lemma {:induction false} NonnegativeSum(slices: seq<Slice>)
    requires PositiveSlices(slices)
    ensures SumReal(SliceQuantity, slices) >= 0.0
  {
    if slices == [] {
    } else {
      NonnegativeSum(slices[1..]);
    }
  }

  /** A sell matched against a queue: pieces, queue and excess are those of taking slices. */
  ghost predicate TakesSlices(sale: Sale, remaining: real, queue: seq<FifoLot>)
    requires sale.quantity > EPSILON && remaining >= 0.0 && Matchable(queue)
  {
    var r, slices := MatchSell(sale, remaining, queue), Map(SliceOf, queue);
    && Map(WithoutCost, r.pieces) == Map(SoldSlice(sale), Take(slices, remaining))
    && Map(SliceOf, r.queue) == Drop(slices, remaining)
    && r.unmatched == Max(0.0, remaining - SumReal(SliceQuantity, slices))
    && forall lot :: lot in r.dropped ==> lot.quantity == 0.0
  }

  lemma {:induction false} TakesPart(sale: Sale, remaining: real, queue: seq<FifoLot>)
    requires sale.quantity > EPSILON && remaining > EPSILON && Matchable(queue)
    requires queue != [] && queue[0].quantity - remaining >= EPSILON
    ensures TakesSlices(sale, remaining, queue)
  {
    var lot, slices := queue[0], Map(SliceOf, queue);
    var reduced := Reduce(lot, remaining);
    assert MatchSell(sale, 0.0, [reduced] + queue[1..]) == SellResult([], [reduced] + queue[1..], 0.0, []);
    assert MatchSell(sale, remaining, queue)
        == SellResult([Piece(sale, lot, remaining)] + [], [reduced] + queue[1..], 0.0, []);
    NonnegativeSum(slices[1..]);
    assert WithoutCost(Piece(sale, lot, remaining)) == SoldSlice(sale)(slices[0].(quantity := remaining));
  }

  lemma {:induction false} TakesWholeLot(sale: Sale, remaining: real, queue: seq<FifoLot>)
    requires sale.quantity > EPSILON && remaining > EPSILON && Matchable(queue)
    requires queue != [] && queue[0].quantity <= remaining
    requires TakesSlices(sale, remaining - queue[0].quantity, queue[1..])
    ensures TakesSlices(sale, remaining, queue)
  {
    hide MatchSell, MatchedCost, MatchedProceeds, IsLongTerm, Take, Drop;
    var lot, slices := queue[0], Map(SliceOf, queue);
    var left := remaining - lot.quantity;
    var piece, r := Piece(sale, lot, lot.quantity), MatchSell(sale, left, queue[1..]);
    SellUnfolds(sale, remaining, queue);
    assert slices[1..] == Map(SliceOf, queue[1..]);
    TakeWhole(slices, remaining);
    assert WithoutCost(piece) == SoldSlice(sale)(slices[0]);
    MapAppend(WithoutCost, [piece], r.pieces);
    MapAppend(SoldSlice(sale), [slices[0]], Take(slices[1..], left));
    NonnegativeSum(slices[1..]);
  }

  lemma TakeWhole(slices: seq<Slice>, q: real)
    requires slices != [] && 0.0 < slices[0].quantity <= q
    ensures Take(slices, q) == [slices[0]] + Take(slices[1..], q - slices[0].quantity)
    ensures Drop(slices, q) == Drop(slices[1..], q - slices[0].quantity)
  {
  }

  /** Matching a sell on the grid takes its quantity off the front of the queue's slices. */
  lemma {:induction false} MatchSellTakes(sale: Sale, remaining: real, queue: seq<FifoLot>, step: real)
    requires sale.quantity > EPSILON && remaining >= 0.0 && Matchable(queue)
    requires step > EPSILON && OnGrid(remaining, step) && QueueOnGrid(queue, step)
    ensures TakesSlices(sale, remaining, queue)
    decreases |queue|
  {
    GridGap(remaining, step);
    NonnegativeSum(Map(SliceOf, queue));
    if remaining > EPSILON && queue != [] {
      var lot := queue[0];
      if remaining < lot.quantity {
        GridMinus(lot.quantity, remaining, step);
        GridGap(lot.quantity - remaining, step);
        TakesPart(sale, remaining, queue);
      } else {
        GridMinus(remaining, lot.quantity, step);
        MatchSellTakes(sale, remaining - lot.quantity, queue[1..], step);
        TakesWholeLot(sale, remaining, queue);
      }
    }
  }

  lemma {:induction false} MatchSellStaysOnGrid(sale: Sale, remaining: real, queue: seq<FifoLot>, step: real)
    requires sale.quantity > EPSILON && remaining >= 0.0 && Matchable(queue)
    requires OnGrid(remaining, step) && QueueOnGrid(queue, step)
    ensures QueueOnGrid(MatchSell(sale, remaining, queue).queue, step)
    decreases |queue|, if remaining > EPSILON then 1 else 0
  {
    if remaining > EPSILON && queue != [] {
      var matched := Min(remaining, queue[0].quantity);
      var reduced := Reduce(queue[0], matched);
      GridMinus(queue[0].quantity, matched, step);
      GridMinus(remaining, matched, step);
      if reduced.quantity < EPSILON {
        MatchSellStaysOnGrid(sale, remaining - matched, queue[1..], step);
      } else {
        MatchSellStaysOnGrid(sale, remaining - matched, [reduced] + queue[1..], step);
      }
    }
  }

  // ---- Overlaps as taking and dropping ----

  /** Nothing of the lots lies before the point they are laid from. */
  lemma {:induction false} OverlapsFromStart(lots: seq<FifoLot>, at: real, lo: real, hi: real)
    requires PositiveLots(lots) && lo <= at
    ensures Overlaps(lots, at, lo, hi) == Overlaps(lots, at, at, hi)
  {
    if lots == [] {
    } else {
      var end := at + lots[0].quantity;
      OverlapsFromStart(lots[1..], end, lo, hi);
      OverlapsFromStart(lots[1..], end, at, hi);
    }
  }

  lemma {:induction false} NoOverlaps(lots: seq<FifoLot>, at: real, lo: real, hi: real)
    requires PositiveLots(lots) && hi <= Max(at, lo)
    ensures Overlaps(lots, at, lo, hi) == []
  {
    if lots == [] {
    } else {
      NoOverlaps(lots[1..], at + lots[0].quantity, lo, hi);
    }
  }

  lemma {:induction false} PositiveOverlaps(lots: seq<FifoLot>, at: real, lo: real, hi: real)
    ensures PositiveSlices(Overlaps(lots, at, lo, hi))
  {
    if lots == [] {
    } else {
      PositiveOverlaps(lots[1..], at + lots[0].quantity, lo, hi);
    }
  }

  lemma {:induction false} LotBelow(lots: seq<FifoLot>, at: real, lo: real, hi: real)
    requires lots != [] && at + lots[0].quantity <= lo
    ensures Overlaps(lots, at, lo, hi) == Overlaps(lots[1..], at + lots[0].quantity, lo, hi)
  {
  }

  lemma {:induction false} LotCrossed(lots: seq<FifoLot>, at: real, lo: real, hi: real)
    requires PositiveLots(lots) && lots != [] && at <= lo < at + lots[0].quantity <= hi
    ensures var end := at + lots[0].quantity;
            Overlaps(lots, at, lo, hi)
            == [SliceOf(lots[0]).(quantity := end - lo)] + Overlaps(lots[1..], end, end, hi)
  {
    OverlapsFromStart(lots[1..], at + lots[0].quantity, lo, hi);
  }

  lemma {:induction false} LotEndsLine(lots: seq<FifoLot>, at: real, lo: real, hi: real)
    requires PositiveLots(lots) && lots != [] && at <= lo < hi <= at + lots[0].quantity
    ensures Overlaps(lots, at, lo, hi) == [SliceOf(lots[0]).(quantity := hi - lo)]
  {
    NoOverlaps(lots[1..], at + lots[0].quantity, lo, hi);
  }

  /** Cutting [lo, hi) at `mid` cuts the row of overlaps at `mid - lo` shares. */
  lemma {:induction false} OverlapsSplit(lots: seq<FifoLot>, at: real, lo: real, mid: real, hi: real)
    requires PositiveLots(lots) && at <= lo <= mid <= hi
    ensures Overlaps(lots, at, lo, mid) == Take(Overlaps(lots, at, lo, hi), mid - lo)
    ensures Overlaps(lots, at, mid, hi) == Drop(Overlaps(lots, at, lo, hi), mid - lo)
  {
    hide Overlaps;
    if mid == lo {
      NoOverlaps(lots, at, lo, mid);
    } else if lots == [] {
      NothingOverlaps(at, lo, mid);
      NothingOverlaps(at, lo, hi);
      NothingOverlaps(at, mid, hi);
    } else {
      var end, rest := at + lots[0].quantity, lots[1..];
      if end <= lo {
        LotBelow(lots, at, lo, mid);
        LotBelow(lots, at, lo, hi);
        LotBelow(lots, at, mid, hi);
        OverlapsSplit(rest, end, lo, mid, hi);
      } else if end <= mid {
        LotCrossed(lots, at, lo, mid);
        LotCrossed(lots, at, lo, hi);
        LotBelow(lots, at, mid, hi);
        OverlapsSplit(rest, end, end, mid, hi);
      } else {
        LotEndsLine(lots, at, lo, mid);
        if end <= hi {
          LotCrossed(lots, at, lo, hi);
          LotCrossed(lots, at, mid, hi);
        } else {
          LotEndsLine(lots, at, lo, hi);
          if mid < hi {
            LotEndsLine(lots, at, mid, hi);
          } else {
            NoOverlaps(lots, at, mid, hi);
          }
        }
      }
    }
  }

  lemma NothingOverlaps(at: real, lo: real, hi: real)
    ensures Overlaps([], at, lo, hi) == []
  {
  }

  lemma {:induction false} OverlapsTotal(lots: seq<FifoLot>, at: real, lo: real)
    requires PositiveLots(lots)
    requires lo <= at + SumReal(LotQuantity, lots)
    ensures var end := at + SumReal(LotQuantity, lots);
            at <= end && SumReal(SliceQuantity, Overlaps(lots, at, lo, end)) == end - Max(at, lo)
  {
    if lots == [] {
    } else {
      var next := at + lots[0].quantity;
      LotTotalNonnegative(lots[1..]);
      OverlapsTotal(lots[1..], next, lo);
      var rest := Overlaps(lots[1..], next, lo, at + SumReal(LotQuantity, lots));
      if lo < next {
        var first := SliceOf(lots[0]).(quantity := next - Max(at, lo));
        assert Overlaps(lots, at, lo, at + SumReal(LotQuantity, lots)) == [first] + rest;
        SumRealAppend(SliceQuantity, [first], rest);
      } else {
        assert Overlaps(lots, at, lo, at + SumReal(LotQuantity, lots)) == rest;
      }
    }
  }

  lemma {:induction false} LotTotalNonnegative(lots: seq<FifoLot>)
    requires PositiveLots(lots)
    ensures SumReal(LotQuantity, lots) >= 0.0
  {
    if lots == [] {
    } else {
      LotTotalNonnegative(lots[1..]);
    }
  }

  /** Laying one more lot at the end adds one more slice. */
  lemma {:induction false} OverlapsSnoc(lots: seq<FifoLot>, lot: FifoLot, at: real, lo: real)
    requires PositiveLots(lots + [lot]) && lo <= at + SumReal(LotQuantity, lots)
    ensures var end := at + SumReal(LotQuantity, lots);
            Overlaps(lots + [lot], at, lo, end + lot.quantity) == Overlaps(lots, at, lo, end) + [SliceOf(lot)]
  {
    if lots == [] {
      OneLotOverlaps(lot, at, lo);
    } else {
      hide Overlaps, SumReal, PositiveLots;
      var end, first := at + lots[0].quantity, at + SumReal(LotQuantity, lots);
      assert (lots + [lot])[1..] == lots[1..] + [lot] && (lots + [lot])[0] == lots[0];
      SumOfLots(lots);
      PositiveParts(lots, lot);
      LotTotalNonnegative(lots[1..]);
      OverlapsSnoc(lots[1..], lot, end, lo);
      OverlapsUnfold(lots, at, lo, first);
      OverlapsUnfold(lots + [lot], at, lo, first + lot.quantity);
    }
  }

  lemma PositiveParts(lots: seq<FifoLot>, lot: FifoLot)
    requires PositiveLots(lots + [lot])
    ensures lot.quantity > 0.0
    ensures lots != [] ==> lots[0].quantity > 0.0 && PositiveLots(lots[1..]) && PositiveLots(lots[1..] + [lot])
  {
    assert forall x :: x in lots + [lot] <==> x in lots || x == lot;
    assert lots != [] ==> lots == [lots[0]] + lots[1..];
  }

  lemma SumOfLots(lots: seq<FifoLot>)
    requires lots != []
    ensures SumReal(LotQuantity, lots) == lots[0].quantity + SumReal(LotQuantity, lots[1..])
  {
  }

  lemma OneLotOverlaps(lot: FifoLot, at: real, lo: real)
    requires PositiveLots([] + [lot]) && lo <= at
    ensures Overlaps([] + [lot], at, lo, at + lot.quantity) == [SliceOf(lot)]
  {
    assert [] + [lot] == [lot] && lot in [lot];
  }

  /** The first lot's overlap and the rest, as long as the interval reaches past the first lot. */
  lemma OverlapsUnfold(lots: seq<FifoLot>, at: real, lo: real, hi: real)
    requires lots != [] && at + lots[0].quantity <= hi
    ensures var end := at + lots[0].quantity;
            Overlaps(lots, at, lo, hi) == Overlaps([lots[0]], at, lo, end) + Overlaps(lots[1..], end, lo, hi)
  {
    hide LotQuantity;
    assert [lots[0]][1..] == [];
  }

  // ---- The ledger of the line ----

  lemma {:induction false} LedgerShape(trades: seq<FifoSymbols.LiveTrade>)
    ensures PositiveLots(Bought(trades))
    ensures 0.0 <= Consumed(trades) <= TotalBought(trades)
  {
    if trades == [] {
    } else {
      var front, last := trades[..|trades| - 1], trades[|trades| - 1];
      LedgerShape(front);
      if last.Buy? {
        SumRealAppend(LotQuantity, Bought(front), [last.lot]);
      } else {
        assert Bought(trades) == Bought(front);
      }
    }
  }
}
