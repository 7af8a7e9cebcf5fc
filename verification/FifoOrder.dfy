/**
 * Order of dates in the results, for transactions sorted by date: lots leave oldest first,
 * never before they open, and a sell's long-term pieces come before its short-term ones.
 */
module FifoOrder {
  import opened Seqs
  import opened Calendar
  import opened FifoMatching
  import opened FifoSymbols

  function TradeDate(t: LiveTrade): Date {
    match t
    case Buy(lot) => lot.openDate
    case Sell(sale) => sale.closeDate
  }

  ghost predicate TradesSorted(trades: seq<LiveTrade>) {
    forall i, j :: 0 <= i < j < |trades| ==> DayNumber(TradeDate(trades[i])) <= DayNumber(TradeDate(trades[j]))
  }

  ghost predicate TxnsSorted(txns: seq<Txn>) {
    forall i, j :: 0 <= i < j < |txns| && txns[i].date.Some? && txns[j].date.Some?
      ==> NotAfter(txns[i].date.value, txns[j].date.value)
  }

  ghost predicate QueueSorted(queue: seq<FifoLot>) {
    forall i, j :: 0 <= i < j < |queue| ==> DayNumber(queue[i].openDate) <= DayNumber(queue[j].openDate)
  }

  ghost predicate AllFifo(lots: seq<RealizedLot>) {
    forall lot :: lot in lots ==> lot.openDate.Some?
  }

  ghost predicate OpenDatesAscend(lots: seq<RealizedLot>)
    requires AllFifo(lots)
  {
    forall i, j :: 0 <= i < j < |lots| ==>
      DayNumber(lots[i].openDate.value) <= DayNumber(lots[j].openDate.value)
  }

  ghost predicate OpenBetween(lots: seq<RealizedLot>, lo: int, hi: int)
    requires AllFifo(lots)
  {
    forall lot :: lot in lots ==> lo <= DayNumber(lot.openDate.value) <= hi
  }

  ghost predicate QueueBetween(queue: seq<FifoLot>, lo: int, hi: int) {
    forall lot :: lot in queue ==> lo <= DayNumber(lot.openDate) <= hi
  }

  /** The result of a sell is in date order; `pivot` separates what was sold from what stays. */
  ghost predicate SellOrdered(sale: Sale, r: SellResult, lo: int, pivot: int, hi: int) {
    && lo <= pivot <= hi && QueueSorted(r.queue) && QueueBetween(r.queue, pivot, hi)
    && AllFifo(r.pieces) && OpenDatesAscend(r.pieces) && OpenBetween(r.pieces, lo, pivot)
    && forall p :: p in r.pieces ==>
         p.closeDate == sale.closeDate && p.isLongTerm == IsLongTerm(p.openDate.value, p.closeDate)
  }

  lemma {:induction false} PieceKeepsOrder(sale: Sale, piece: RealizedLot, r: SellResult, r': SellResult,
                                           lo: int, open: Date, pivot: int, hi: int)
    requires lo <= DayNumber(open) && SellOrdered(sale, r, DayNumber(open), pivot, hi)
    requires piece.openDate == Some(open) && piece.closeDate == sale.closeDate
    requires piece.isLongTerm == IsLongTerm(open, sale.closeDate)
    requires r'.pieces == [piece] + r.pieces && r'.queue == r.queue
    ensures SellOrdered(sale, r', lo, pivot, hi)
  {
    forall j | 0 < j < |r'.pieces|
      ensures r'.pieces[j] in r.pieces && DayNumber(open) <= DayNumber(r'.pieces[j].openDate.value)
    {
      assert r'.pieces[j] == r.pieces[j - 1];
    }
  }

  lemma NothingSoldIsOrdered(sale: Sale, remaining: real, queue: seq<FifoLot>, lo: int, hi: int)
    requires lo <= hi && QueueSorted(queue) && QueueBetween(queue, lo, hi)
    ensures SellOrdered(sale, SellResult([], queue, remaining, []), lo, lo, hi)
  {
  }

  lemma RestKeepsOrder(queue: seq<FifoLot>, reduced: FifoLot, lo: int, hi: int)
    requires queue != [] && QueueSorted(queue) && QueueBetween(queue, lo, hi) && reduced.openDate == queue[0].openDate
    ensures var day := DayNumber(queue[0].openDate);
            && lo <= day <= hi
            && QueueSorted(queue[1..]) && QueueBetween(queue[1..], day, hi)
            && QueueSorted([reduced] + queue[1..]) && QueueBetween([reduced] + queue[1..], day, hi)
  {
    hide DayNumber;
    assert queue[0] in queue;
    forall i | 0 < i < |queue| ensures DayNumber(queue[0].openDate) <= DayNumber(queue[i].openDate) <= hi {
      assert queue[i] in queue;
    }
  }

  lemma {:induction false} SellKeepsOrder(sale: Sale, remaining: real, queue: seq<FifoLot>, lo: int, hi: int)
      returns (pivot: int)
    requires sale.quantity > EPSILON && remaining >= 0.0 && Matchable(queue)
    requires lo <= hi && QueueSorted(queue) && QueueBetween(queue, lo, hi)
    ensures SellOrdered(sale, MatchSell(sale, remaining, queue), lo, pivot, hi)
    decreases |queue|, if remaining > EPSILON then 1 else 0
  {
    hide MatchSell, MatchedCost, MatchedProceeds, SellOrdered, DayNumber, IsLongTerm, QueueSorted, QueueBetween;
    pivot := lo;
    if remaining > EPSILON && queue != [] {
      var lot := queue[0];
      var matched := Min(remaining, lot.quantity);
      var reduced := Reduce(lot, matched);
      var next := if reduced.quantity < EPSILON then queue[1..] else [reduced] + queue[1..];
      RestKeepsOrder(queue, reduced, lo, hi);
      pivot := SellKeepsOrder(sale, remaining - matched, next, DayNumber(lot.openDate), hi);
      SellUnfolds(sale, remaining, queue);
      PieceKeepsOrder(sale, Piece(sale, lot, matched), MatchSell(sale, remaining - matched, next),
                      MatchSell(sale, remaining, queue), lo, lot.openDate, pivot, hi);
    } else {
      SellStops(sale, remaining, queue);
      NothingSoldIsOrdered(sale, remaining, queue, lo, hi);
    }
  }

  /** The order invariants of one symbol, with every trade so far no later than day `now`. */
  ghost predicate Ordered(p: Position, pivot: int, now: int) {
    && pivot <= now
    && QueueSorted(p.queue) && QueueBetween(p.queue, pivot, now)
    && AllFifo(p.realized) && OpenDatesAscend(p.realized)
    && (forall lot :: lot in p.realized ==> DayNumber(lot.openDate.value) <= pivot)
    && forall lot :: lot in p.realized ==>
         DayNumber(lot.openDate.value) <= DayNumber(lot.closeDate)
         && lot.isLongTerm == IsLongTerm(lot.openDate.value, lot.closeDate)
  }

  lemma {:induction false} AdvanceKeepsOrder(p: Position, t: LiveTrade, pivot: int, now: int) returns (pivot': int)
    requires Matchable(p.queue) && Ordered(p, pivot, now) && now <= DayNumber(TradeDate(t))
    ensures Ordered(Advance(p, t), pivot', DayNumber(TradeDate(t)))
  {
    pivot' := pivot;
    if t.Sell? {
      pivot' := SellKeepsOrder(t.sale, t.sale.quantity, p.queue, pivot, now);
    }
  }

  lemma {:induction false} ReplayKeepsOrder(trades: seq<LiveTrade>) returns (pivot: int)
    requires TradesSorted(trades)
    ensures trades == [] ==> Replay(trades) == FLAT
    ensures trades != [] ==> Ordered(Replay(trades), pivot, DayNumber(TradeDate(trades[|trades| - 1])))
  {
    pivot := 0;
    if trades == [] {
    } else {
      var n := |trades| - 1;
      var front, last := trades[..n], trades[n];
      var before := ReplayKeepsOrder(front);
      if front == [] {
        pivot := AdvanceKeepsOrder(FLAT, last, DayNumber(TradeDate(last)), DayNumber(TradeDate(last)));
      } else {
        pivot := AdvanceKeepsOrder(Replay(front), last, before, DayNumber(TradeDate(front[n - 1])));
      }
    }
  }

  lemma {:induction false} TradesOfSorted(txns: seq<Txn>, symbol: string)
    requires TxnsSorted(txns)
    ensures TradesSorted(TradesOf(txns, symbol))
    ensures forall t :: t in TradesOf(txns, symbol) ==>
              exists i :: 0 <= i < |txns| && txns[i].date == Some(TradeDate(t))
  {
    if txns == [] {
    } else {
      var n := |txns| - 1;
      var front, last := txns[..n], txns[n];
      TradesOfSorted(front, symbol);
      var earlier := TradesOf(front, symbol);
      if TradesIn(last, symbol) {
        var t := TradeOf(last);
        assert last.date == Some(TradeDate(t));
        forall e | e in earlier ensures DayNumber(TradeDate(e)) <= DayNumber(TradeDate(t)) {
          var i :| 0 <= i < |front| && front[i].date == Some(TradeDate(e));
          assert txns[i].date == Some(TradeDate(e));
          BeforeIsDayOrder(TradeDate(e), TradeDate(t));
        }
      }
      forall t | t in TradesOf(txns, symbol)
        ensures exists i :: 0 <= i < |txns| && txns[i].date == Some(TradeDate(t))
      {
        if t in earlier {
          var i :| 0 <= i < |front| && front[i].date == Some(TradeDate(t));
          assert txns[i].date == Some(TradeDate(t));
        } else {
          assert txns[n].date == Some(TradeDate(t));
        }
      }
    }
  }

  /** For date-sorted transactions, every symbol's queue and realized lots are in date order. */
  lemma SortedTransactionsGiveSortedLots(txns: seq<Txn>, symbol: string)
    requires TxnsSorted(txns)
    ensures var st := Run(txns);
            var queue, lots := QueueOf(st, symbol), Filter(LotOf(symbol), st.realized);
            && QueueSorted(queue) && Matchable(queue)
            && AllFifo(lots) && OpenDatesAscend(lots)
            && (forall lot :: lot in lots ==> NotAfter(lot.openDate.value, lot.closeDate))
            && (forall lot, open :: lot in lots && open in queue ==> NotAfter(lot.openDate.value, open.openDate))
  {
    TradesOfSorted(txns, symbol);
    RunProjects(txns, symbol);
    var trades := TradesOf(txns, symbol);
    var p := Replay(trades);
    var pivot := ReplayKeepsOrder(trades);
    forall lot | lot in p.realized ensures NotAfter(lot.openDate.value, lot.closeDate) {
      NotAfterFromDays(lot.openDate.value, lot.closeDate);
    }
    forall lot, open | lot in p.realized && open in p.queue ensures NotAfter(lot.openDate.value, open.openDate) {
      NotAfterFromDays(lot.openDate.value, open.openDate);
    }
  }

  lemma NotAfterFromDays(a: Date, b: Date)
    requires DayNumber(a) <= DayNumber(b)
    ensures NotAfter(a, b)
  {
    BeforeIsDayOrder(a, b);
    BeforeIsDayOrder(b, a);
  }

  ghost predicate LongTermFirst(pieces: seq<RealizedLot>) {
    forall i, j :: 0 <= i < j < |pieces| && pieces[j].isLongTerm ==> pieces[i].isLongTerm
  }

  /** Within one sell out of a sorted queue, long-term pieces come before short-term ones. */
  lemma LongTermPiecesComeFirst(sale: Sale, queue: seq<FifoLot>)
    requires sale.quantity > EPSILON && Matchable(queue) && QueueSorted(queue)
    ensures LongTermFirst(MatchSell(sale, sale.quantity, queue).pieces)
  {
    var pieces := MatchSell(sale, sale.quantity, queue).pieces;
    if queue != [] {
      var lo, hi := DayNumber(queue[0].openDate), DayNumber(queue[|queue| - 1].openDate);
      var pivot := SellKeepsOrder(sale, sale.quantity, queue, lo, hi);
      assert forall i :: 0 <= i < |pieces| ==> pieces[i] in pieces;
    } else {
      SellStops(sale, sale.quantity, queue);
    }
  }

  /** So it is for every sell of a date-sorted list: the lots it adds are long-term first. */
  lemma LongTermFirstInEverySell(txns: seq<Txn>, k: nat)
    requires TxnsSorted(txns) && k < |txns| && TradeOf(txns[k]).Sell?
    ensures var before, after := Run(txns[..k]).realized, Run(txns[..k + 1]).realized;
            before <= after && LongTermFirst(after[|before|..])
  {
    hide Run, MatchSell, QueueSorted, LongTermFirst;
    var symbol, sale := txns[k].symbol.value, TradeOf(txns[k]).sale;
    var before, queue := Run(txns[..k]).realized, QueueOf(Run(txns[..k]), symbol);
    SortedTransactionsGiveSortedLots(txns[..k], symbol);
    RunSnoc(txns, k);
    LongTermPiecesComeFirst(sale, queue);
    var pieces := MatchSell(sale, sale.quantity, queue).pieces;
    assert Run(txns[..k + 1]).realized == before + pieces;
    assert (before + pieces)[|before|..] == pieces;
  }
}
