/**
 * The matcher's books, in the columns of the transactions: what was paid for the buys and
 * received for the sells is what the realized lots, unknown sales and open lots say.
 */
module FifoBooks {
  import opened Seqs
  import opened Calendar
  import opened FifoMatching
  import opened FifoSymbols
  import opened FifoGrid
  import opened FifoConservation
  import opened FifoCostBounds
  import FifoRefinement

  // ---- Rows that count, and their columns ----

  predicate Moves(txn: Txn, symbol: string) {
    && txn.symbol == Some(symbol) && symbol !in ["CASH", "DEBT", "N/A"]
    && txn.date.Some? && txn.quantity.Some? && txn.quantity.value > 0.000001
  }

  /** A row that says "buy" in either column is a buy, whatever the other says. */
  function BuyRow(symbol: string): Txn -> bool {
    (txn: Txn) => Moves(txn, symbol) && (txn.txnType == "buy" || txn.subtype == Some("buy"))
  }

  function SellRow(symbol: string): Txn -> bool {
    (txn: Txn) =>
      Moves(txn, symbol) && txn.txnType != "buy" && txn.subtype != Some("buy")
      && (txn.txnType == "sell" || txn.subtype == Some("sell"))
  }

  function Shares(txn: Txn): real {
    txn.quantity.GetOr(0.0)
  }

  function Size(cents: int): nat {
    if cents < 0 then -cents else cents
  }

  /** A buy costs its amount and its fees, whatever signs the bank gives them. */
  function Paid(txn: Txn): int {
    Size(txn.amount) + Size(txn.fees.GetOr(0))
  }

  function Received(txn: Txn): int {
    Size(txn.amount) - Size(txn.fees.GetOr(0))
  }

  /** The shares of the symbol's buys and sells are multiples of `step`. */
  ghost predicate RowsOnGrid(txns: seq<Txn>, symbol: string, step: real) {
    forall txn :: txn in txns && (BuyRow(symbol)(txn) || SellRow(symbol)(txn)) ==> OnGrid(Shares(txn), step)
  }

  // ---- The trades are the rows ----

  function LotOfRow(txn: Txn): FifoLot {
    FifoLot(txn.symbol, txn.securityName, txn.date.GetOr(EPOCH), Shares(txn), Paid(txn))
  }

  function SaleOfRow(txn: Txn): Sale {
    Sale(txn.id, txn.symbol, txn.securityName, txn.date.GetOr(EPOCH), Shares(txn), Received(txn))
  }

  function Sales(trades: seq<LiveTrade>): seq<Sale> {
    if trades == [] then []
    else
      var last := trades[|trades| - 1];
      Sales(trades[..|trades| - 1]) + if last.Sell? then [last.sale] else []
  }

  lemma TradeIsRow(txn: Txn, symbol: string)
    ensures TradesIn(txn, symbol) <==> BuyRow(symbol)(txn) || SellRow(symbol)(txn)
    ensures BuyRow(symbol)(txn) ==> TradeOf(txn) == Buy(LotOfRow(txn)) && !SellRow(symbol)(txn)
    ensures SellRow(symbol)(txn) ==> TradeOf(txn) == Sell(SaleOfRow(txn))
  {
  }

  /** The line of lots is the buy rows, and what is sold off it the sell rows, in their order. */
  lemma {:induction false} TradesAreRows(txns: seq<Txn>, symbol: string)
    ensures Bought(TradesOf(txns, symbol)) == Map(LotOfRow, Filter(BuyRow(symbol), txns))
    ensures Sales(TradesOf(txns, symbol)) == Map(SaleOfRow, Filter(SellRow(symbol), txns))
  {
    if txns == [] {
    } else {
      hide TradeOf, BuyRow, SellRow, TradesIn, Bought, Sales, Filter, Map;
      var n := |txns| - 1;
      var front, last, trades := txns[..n], txns[n], TradesOf(txns[..n], symbol);
      TradesAreRows(front, symbol);
      TradeIsRow(last, symbol);
      assert txns == front + [last];
      FilterSnoc(BuyRow(symbol), front, last);
      FilterSnoc(SellRow(symbol), front, last);
      MapSnoc(LotOfRow, Filter(BuyRow(symbol), front), last);
      MapSnoc(SaleOfRow, Filter(SellRow(symbol), front), last);
      if TradesIn(last, symbol) {
        TradesSnoc(trades, TradeOf(last));
      } else {
        assert TradesOf(txns, symbol) == trades;
      }
    }
  }

  lemma MapSnoc<T, U>(f: T -> U, xs: seq<T>, x: T)
    ensures Map(f, xs + [x]) == Map(f, xs) + [f(x)]
  {
  }

  lemma TradesSnoc(trades: seq<LiveTrade>, t: LiveTrade)
    ensures Bought(trades + [t]) == Bought(trades) + if t.Buy? then [t.lot] else []
    ensures Sales(trades + [t]) == Sales(trades) + if t.Sell? then [t.sale] else []
  {
    assert (trades + [t])[..|trades|] == trades;
  }

  lemma {:induction false} GridRowsGiveGridTrades(txns: seq<Txn>, symbol: string, step: real)
    requires RowsOnGrid(txns, symbol, step)
    ensures TradesOnGrid(TradesOf(txns, symbol), step)
  {
    if txns == [] {
    } else {
      hide TradeOf, BuyRow, SellRow, OnGrid;
      var n := |txns| - 1;
      GridRowsGiveGridTrades(txns[..n], symbol, step);
      TradeIsRow(txns[n], symbol);
      assert txns[n] in txns;
    }
  }

  function NetProceeds(sale: Sale): int {
    sale.netProceeds
  }

  function SaleQuantity(sale: Sale): real {
    sale.quantity
  }

  lemma {:induction false} TotalOfSales(trades: seq<LiveTrade>)
    ensures TotalSold(trades) == SumReal(SaleQuantity, Sales(trades)) && Sells(trades) == |Sales(trades)|
  {
    if trades == [] {
    } else {
      var n := |trades| - 1;
      TotalOfSales(trades[..n]);
      if trades[n].Sell? {
        SumRealSnoc(SaleQuantity, Sales(trades[..n]), trades[n].sale);
      } else {
        assert Sales(trades) == Sales(trades[..n]);
      }
    }
  }

  /** Totals over the trades are totals over columns. */
  lemma RowTotals(txns: seq<Txn>, symbol: string)
    ensures var trades, buys, sells := TradesOf(txns, symbol), Filter(BuyRow(symbol), txns), Filter(SellRow(symbol), txns);
            && TotalBought(trades) == SumReal(Shares, buys) && SumInt(LotCost, Bought(trades)) == SumInt(Paid, buys)
            && TotalSold(trades) == SumReal(Shares, sells) && Sells(trades) == |sells|
            && SumInt(NetProceeds, Sales(trades)) == SumInt(Received, sells)
  {
    hide BuyRow, SellRow, Paid, Received;
    var buys, sells := Filter(BuyRow(symbol), txns), Filter(SellRow(symbol), txns);
    TradesAreRows(txns, symbol);
    TotalOfSales(TradesOf(txns, symbol));
    SumRealOfMap(LotOfRow, LotQuantity, Shares, buys);
    SumIntOfMap(LotOfRow, LotCost, Paid, buys);
    SumRealOfMap(SaleOfRow, SaleQuantity, Shares, sells);
    SumIntOfMap(SaleOfRow, NetProceeds, Received, sells);
  }

  // ---- Shares and cost ----

  /** Up to dust of less than EPSILON a sell, shares in are shares out, and no cent is made up. */
  lemma BooksBalance(txns: seq<Txn>, symbol: string)
    ensures var buys, sells := Filter(BuyRow(symbol), txns), Filter(SellRow(symbol), txns);
            var lots, sales := Filter(LotOf(symbol), Run(txns).realized), Filter(SaleOf(symbol), Run(txns).unknown);
            var open, dust := QueueOf(Run(txns), symbol), 0.000001 * |sells| as real;
            && 0.0 <= SumReal(Shares, buys) - SumReal(RealizedQuantity, lots) - SumReal(LotQuantity, open) <= dust
            && 0.0 <= SumReal(Shares, sells) - SumReal(RealizedQuantity, lots) - SumReal(UnknownQuantity, sales) <= dust
            && SumInt(RealizedCost, lots) + SumInt(LotCost, open) <= SumInt(Paid, buys)
  {
    RowTotals(txns, symbol);
    SharesAndCostAreConserved(txns, symbol);
    SoldSharesAreAccountedFor(txns, symbol);
    DustCosts(Replay(TradesOf(txns, symbol)).dropped);
  }

  lemma {:induction false} DustCosts(lots: seq<FifoLot>)
    requires AllDust(lots)
    ensures SumInt(LotCost, lots) >= 0
  {
    if lots != [] {
      DustCosts(lots[1..]);
    }
  }

  /** On a grid the cost of the buy rows is the cost realized and the cost still open, to the cent. */
  lemma CostIsWhatWasPaid(txns: seq<Txn>, symbol: string, step: real)
    requires step > EPSILON && RowsOnGrid(txns, symbol, step)
    ensures var buys, lots := Filter(BuyRow(symbol), txns), Filter(LotOf(symbol), Run(txns).realized);
            && SumInt(Paid, buys) == SumInt(RealizedCost, lots) + SumInt(LotCost, QueueOf(Run(txns), symbol))
            && SumReal(Shares, buys) == SumReal(RealizedQuantity, lots) + SumReal(LotQuantity, QueueOf(Run(txns), symbol))
  {
    GridRowsGiveGridTrades(txns, symbol, step);
    RowTotals(txns, symbol);
    ConservationIsExactOnGrid(txns, symbol, step);
  }

  // ---- Proceeds ----

  /** On a grid a sell is split into parts without remainder. */
  lemma SellIsSplitWhole(sale: Sale, queue: seq<FifoLot>, step: real)
    requires step > EPSILON && sale.quantity > EPSILON && Matchable(queue) && CostsNonnegative(queue)
    requires OnGrid(sale.quantity, step) && QueueOnGrid(queue, step)
    ensures var r := MatchSell(sale, sale.quantity, queue);
            SumReal(RealizedQuantity, r.pieces) + SumReal(UnknownQuantity, UnknownParts(sale, r.unmatched)) == sale.quantity
  {
    hide MatchSell, OnGrid, UnknownParts;
    var r, held := MatchSell(sale, sale.quantity, queue), SumReal(SliceQuantity, Map(SliceOf, queue));
    SellConserves(sale, sale.quantity, queue);
    MatchSellTakes(sale, sale.quantity, queue, step);
    FifoRefinement.TotalOnGrid(queue, step);
    GridMinus(sale.quantity, held, step);
    GridGap(sale.quantity - held, step);
    UnknownShares(sale, r.unmatched);
  }

  lemma UnknownShares(sale: Sale, unmatched: real)
    requires sale.quantity > EPSILON
    ensures SumReal(UnknownQuantity, UnknownParts(sale, unmatched)) == if unmatched > EPSILON then unmatched else 0.0
  {
  }

  ghost predicate ProceedsNear(lots: seq<RealizedLot>, sales: seq<UnknownBasisSale>, received: int) {
    -((|lots| + |sales|) as real) / 2.0
      <= (SumInt(RealizedProceeds, lots) + SumInt(UnknownProceeds, sales) - received) as real
      <= (|lots| + |sales|) as real / 2.0
  }

  lemma SellProceedsNear(sale: Sale, queue: seq<FifoLot>, step: real)
    requires step > EPSILON && sale.quantity > EPSILON && Matchable(queue) && CostsNonnegative(queue)
    requires OnGrid(sale.quantity, step) && QueueOnGrid(queue, step)
    ensures var r := MatchSell(sale, sale.quantity, queue);
            ProceedsNear(r.pieces, UnknownParts(sale, r.unmatched), sale.netProceeds)
  {
    hide MatchSell, UnknownParts, OnGrid;
    SellIsSplitWhole(sale, queue, step);
    WholeSaleIsExact(sale);
    hide ExactProceeds;
    SellProceedsBound(sale, queue);
  }

  lemma WholeSaleIsExact(sale: Sale)
    requires sale.quantity > 0.0
    ensures ExactProceeds(sale, sale.quantity) == sale.netProceeds as real
  {
    Rounding.SharesAdd(sale.quantity, 0.0, sale.quantity);
  }

  /** Every share sold is realized or reported. */
  ghost predicate SharesOut(lots: seq<RealizedLot>, sales: seq<UnknownBasisSale>, sold: real) {
    SumReal(RealizedQuantity, lots) + SumReal(UnknownQuantity, sales) == sold
  }

  lemma SharesOutAppend(a: seq<RealizedLot>, b: seq<RealizedLot>, s: seq<UnknownBasisSale>, u: seq<UnknownBasisSale>,
                        n: real, m: real)
    requires SharesOut(a, s, n) && SharesOut(b, u, m)
    ensures SharesOut(a + b, s + u, n + m)
  {
    SumRealAppend(RealizedQuantity, a, b);
    SumRealAppend(UnknownQuantity, s, u);
  }

  /** One more sell keeps both books. */
  lemma SellKeepsBooks(p: Position, sale: Sale, received: int, sold: real, step: real)
    requires step > EPSILON && sale.quantity > EPSILON && Matchable(p.queue) && CostsNonnegative(p.queue)
    requires OnGrid(sale.quantity, step) && QueueOnGrid(p.queue, step)
    requires ProceedsNear(p.realized, p.unknown, received) && SharesOut(p.realized, p.unknown, sold)
    ensures var p' := Advance(p, Sell(sale));
            && ProceedsNear(p'.realized, p'.unknown, received + sale.netProceeds)
            && SharesOut(p'.realized, p'.unknown, sold + sale.quantity)
  {
    hide ProceedsNear, OnGrid, MatchSell, UnknownParts, SharesOut;
    var r := MatchSell(sale, sale.quantity, p.queue);
    var parts := UnknownParts(sale, r.unmatched);
    SellProceedsNear(sale, p.queue, step);
    SellSharesOut(sale, p.queue, step);
    ProceedsAppend(p.realized, r.pieces, p.unknown, parts, received, sale.netProceeds);
    SharesOutAppend(p.realized, r.pieces, p.unknown, parts, sold, sale.quantity);
  }

  lemma SellSharesOut(sale: Sale, queue: seq<FifoLot>, step: real)
    requires step > EPSILON && sale.quantity > EPSILON && Matchable(queue) && CostsNonnegative(queue)
    requires OnGrid(sale.quantity, step) && QueueOnGrid(queue, step)
    ensures var r := MatchSell(sale, sale.quantity, queue);
            SharesOut(r.pieces, UnknownParts(sale, r.unmatched), sale.quantity)
  {
    hide MatchSell, UnknownParts, OnGrid;
    SellIsSplitWhole(sale, queue, step);
  }

  lemma ProceedsAppend(a: seq<RealizedLot>, b: seq<RealizedLot>, s: seq<UnknownBasisSale>, u: seq<UnknownBasisSale>,
                       n: int, m: int)
    requires ProceedsNear(a, s, n) && ProceedsNear(b, u, m)
    ensures ProceedsNear(a + b, s + u, n + m)
  {
    SumIntAppend(RealizedProceeds, a, b);
    SumIntAppend(UnknownProceeds, s, u);
  }

  lemma {:induction false} ReplayProceeds(trades: seq<LiveTrade>, step: real)
    requires step > EPSILON && TradesOnGrid(trades, step)
    ensures ProceedsNear(Replay(trades).realized, Replay(trades).unknown, SumInt(NetProceeds, Sales(trades)))
    ensures SharesOut(Replay(trades).realized, Replay(trades).unknown, TotalSold(trades))
  {
    hide ProceedsNear, SharesOut, OnGrid, Advance;
    if trades == [] {
      NothingReceived();
    } else {
      var front, last := trades[..|trades| - 1], trades[|trades| - 1];
      ReplayProceeds(front, step);
      if last.Sell? {
        assert OnGrid(Quantity(last), step);
        SellMeetsGoodBooks(front, step);
        SellKeepsBooks(Replay(front), last.sale, SumInt(NetProceeds, Sales(front)), TotalSold(front), step);
        SumIntSnoc(NetProceeds, Sales(front), last.sale);
      } else {
        BuyKeepsBooks(Replay(front), last);
        assert Sales(trades) == Sales(front);
      }
    }
  }

  lemma SellMeetsGoodBooks(trades: seq<LiveTrade>, step: real)
    requires step > EPSILON && TradesOnGrid(trades, step)
    ensures QueueOnGrid(Replay(trades).queue, step) && CostsNonnegative(Replay(trades).queue)
  {
    hide Replay, OnGrid;
    FifoRefinement.ReplayRefines(trades, step);
    TradesConserve(trades);
  }

  lemma BuyKeepsBooks(p: Position, t: LiveTrade)
    requires t.Buy? && Matchable(p.queue)
    ensures Advance(p, t).realized == p.realized && Advance(p, t).unknown == p.unknown
  {
  }

  lemma NothingReceived()
    ensures ProceedsNear([], [], 0) && SharesOut([], [], 0.0)
  {
  }

  /** On a grid the proceeds of a symbol are within half a cent a part of what its sell rows brought in. */
  lemma ProceedsAreWhatWasReceived(txns: seq<Txn>, symbol: string, step: real)
    requires step > EPSILON && RowsOnGrid(txns, symbol, step)
    ensures var sells, lots := Filter(SellRow(symbol), txns), Filter(LotOf(symbol), Run(txns).realized);
            var sales := Filter(SaleOf(symbol), Run(txns).unknown);
            ProceedsNear(lots, sales, SumInt(Received, sells)) && SharesOut(lots, sales, SumReal(Shares, sells))
  {
    hide ProceedsNear, SharesOut, BuyRow, SellRow, Run, Replay, Filter, OnGrid;
    GridRowsGiveGridTrades(txns, symbol, step);
    RowTotals(txns, symbol);
    RunProjects(txns, symbol);
    ReplayProceeds(TradesOf(txns, symbol), step);
  }

  // ---- Each lot and each sale has its rows ----

  /** The lot was bought by a row of the list. */
  ghost predicate HasBuyRow(lot: FifoLot, symbol: string, txns: seq<Txn>) {
    exists i :: 0 <= i < |txns| && BuyRow(symbol)(txns[i]) && ShowsRow(lot, txns[i])
  }

  predicate ShowsRow(lot: FifoLot, txn: Txn) {
    && lot.symbol == txn.symbol && lot.securityName == txn.securityName && Some(lot.openDate) == txn.date
    && 0.0 < lot.quantity <= Shares(txn)
  }

  ghost predicate QueuesHaveRows(queues: LotQueues, txns: seq<Txn>) {
    forall s, lot :: s in queues && lot in queues[s] ==> HasBuyRow(lot, s, txns)
  }

  predicate ClosesRows(lot: RealizedLot, bought: Txn, sold: Txn) {
    && lot.symbol == bought.symbol && lot.securityName == bought.securityName
    && lot.openDate == bought.date && Some(lot.closeDate) == sold.date
    && 0.0 < lot.quantity <= Min(Shares(bought), Shares(sold))
  }

  /** The lot pairs a buy row with a later row that sells. */
  ghost predicate HasRows(lot: RealizedLot, txns: seq<Txn>) {
    && lot.symbol.Some?
    && exists i, j :: 0 <= i < j < |txns| && BuyRow(lot.symbol.value)(txns[i]) && SellRow(lot.symbol.value)(txns[j])
                      && ClosesRows(lot, txns[i], txns[j])
  }

  /** Long-term from the 365th day on; the gain is what came in less what was paid. */
  predicate FiguresAgree(lot: RealizedLot) {
    && lot.openDate.Some? && lot.source == Fifo && lot.txnId == None
    && lot.gainCents == lot.proceedsCents - lot.costBasisCents
    && (lot.isLongTerm <==> DayNumber(lot.closeDate) - DayNumber(lot.openDate.value) >= 365)
  }

  ghost predicate HasSellRow(sale: UnknownBasisSale, txns: seq<Txn>) {
    && sale.symbol.Some? && sale.userCostBasisCents == None && sale.userIsLongTerm == None
    && exists j :: 0 <= j < |txns| && SellRow(sale.symbol.value)(txns[j]) && ReportsRow(sale, txns[j])
  }

  predicate ReportsRow(sale: UnknownBasisSale, txn: Txn) {
    && sale.txnId == txn.id && sale.symbol == txn.symbol && sale.securityName == txn.securityName
    && Some(sale.closeDate) == txn.date && 0.000001 < sale.quantity <= Shares(txn)
  }

  /** Of each of `lots`, a lot of `queue` with as many shares or more. */
  ghost predicate CutFrom(lots: seq<FifoLot>, queue: seq<FifoLot>) {
    forall lot :: lot in lots ==> exists from :: from in queue && IsCutOf(lot, from)
  }

  predicate IsCutOf(lot: FifoLot, from: FifoLot) {
    && lot.symbol == from.symbol && lot.securityName == from.securityName && lot.openDate == from.openDate
    && 0.0 < lot.quantity <= from.quantity
  }

  ghost predicate SoldFrom(pieces: seq<RealizedLot>, queue: seq<FifoLot>, sale: Sale) {
    forall p :: p in pieces ==> FiguresAgree(p) && exists from :: from in queue && IsPieceOf(p, from, sale)
  }

  predicate IsPieceOf(p: RealizedLot, from: FifoLot, sale: Sale) {
    && p.symbol == from.symbol && p.securityName == from.securityName && p.openDate == Some(from.openDate)
    && p.closeDate == sale.closeDate && 0.0 < p.quantity <= Min(from.quantity, sale.quantity)
  }

  lemma {:induction false} SellCutsLots(sale: Sale, remaining: real, queue: seq<FifoLot>)
    requires sale.quantity > EPSILON && 0.0 <= remaining <= sale.quantity && Matchable(queue)
    ensures var r := MatchSell(sale, remaining, queue);
            CutFrom(r.queue, queue) && SoldFrom(r.pieces, queue, sale)
    decreases |queue|, if remaining > EPSILON then 1 else 0
  {
    hide MatchSell, MatchedCost, MatchedProceeds, CutFrom, SoldFrom;
    if remaining > EPSILON && queue != [] {
      var lot := queue[0];
      var matched := Min(remaining, lot.quantity);
      var reduced, piece := Reduce(lot, matched), Piece(sale, lot, matched);
      var next := if reduced.quantity < EPSILON then queue[1..] else [reduced] + queue[1..];
      SellUnfolds(sale, remaining, queue);
      SellCutsLots(sale, remaining - matched, next);
      PieceFigures(sale, lot, matched);
      FirstLotIsCut(sale, queue, reduced, piece, next, MatchSell(sale, remaining - matched, next));
    } else {
      SellStops(sale, remaining, queue);
      NothingIsCut(sale, queue);
    }
  }

  lemma PieceFigures(sale: Sale, lot: FifoLot, matched: real)
    requires sale.quantity > 0.0 && lot.quantity > 0.0
    ensures FiguresAgree(Piece(sale, lot, matched))
  {
    hide MatchedCost, MatchedProceeds, DayNumber;
  }

  lemma NothingIsCut(sale: Sale, queue: seq<FifoLot>)
    requires Matchable(queue)
    ensures CutFrom(queue, queue) && SoldFrom([], queue, sale)
  {
    forall lot | lot in queue ensures exists from :: from in queue && IsCutOf(lot, from) {
      assert IsCutOf(lot, lot);
    }
  }

  lemma FirstLotIsCut(sale: Sale, queue: seq<FifoLot>, reduced: FifoLot, piece: RealizedLot, next: seq<FifoLot>, r: SellResult)
    requires queue != [] && IsPieceOf(piece, queue[0], sale) && FiguresAgree(piece)
    requires next == queue[1..] || (next == [reduced] + queue[1..] && IsCutOf(reduced, queue[0]))
    requires CutFrom(r.queue, next) && SoldFrom(r.pieces, next, sale)
    ensures CutFrom(r.queue, queue) && SoldFrom([piece] + r.pieces, queue, sale)
  {
    hide FiguresAgree;
    forall lot | lot in r.queue ensures exists from :: from in queue && IsCutOf(lot, from) {
      var from :| from in next && IsCutOf(lot, from);
      if from == reduced && next != queue[1..] {
        assert queue[0] in queue && IsCutOf(lot, queue[0]);
      } else {
        assert from in queue;
      }
    }
    forall p | p in [piece] + r.pieces ensures FiguresAgree(p) && exists from :: from in queue && IsPieceOf(p, from, sale) {
      if p in r.pieces {
        var from :| from in next && IsPieceOf(p, from, sale);
        if from == reduced && next != queue[1..] {
          assert queue[0] in queue && IsPieceOf(p, queue[0], sale);
        } else {
          assert from in queue;
        }
      } else {
        assert queue[0] in queue;
      }
    }
  }

  // ---- over the whole list ----

  lemma RowsStay(txns: seq<Txn>, txn: Txn)
    ensures forall lot, s :: HasBuyRow(lot, s, txns) ==> HasBuyRow(lot, s, txns + [txn])
    ensures forall lot :: HasRows(lot, txns) ==> HasRows(lot, txns + [txn])
    ensures forall sale :: HasSellRow(sale, txns) ==> HasSellRow(sale, txns + [txn])
  {
    hide BuyRow, SellRow, ShowsRow, ClosesRows, ReportsRow;
    var more := txns + [txn];
    assert forall i :: 0 <= i < |txns| ==> more[i] == txns[i];
    forall lot, s | HasBuyRow(lot, s, txns) ensures HasBuyRow(lot, s, more) {
      var i :| 0 <= i < |txns| && BuyRow(s)(txns[i]) && ShowsRow(lot, txns[i]);
      assert BuyRow(s)(more[i]) && ShowsRow(lot, more[i]);
    }
    forall lot | HasRows(lot, txns) ensures HasRows(lot, more) {
      var i, j :| 0 <= i < j < |txns| && BuyRow(lot.symbol.value)(txns[i]) && SellRow(lot.symbol.value)(txns[j])
                  && ClosesRows(lot, txns[i], txns[j]);
      assert BuyRow(lot.symbol.value)(more[i]) && SellRow(lot.symbol.value)(more[j]) && ClosesRows(lot, more[i], more[j]);
    }
    forall sale | HasSellRow(sale, txns) ensures HasSellRow(sale, more) {
      var j :| 0 <= j < |txns| && SellRow(sale.symbol.value)(txns[j]) && ReportsRow(sale, txns[j]);
      assert SellRow(sale.symbol.value)(more[j]) && ReportsRow(sale, more[j]);
    }
  }

  lemma QueueKeepsRows(queue: seq<FifoLot>, from: seq<FifoLot>, symbol: string, txns: seq<Txn>)
    requires CutFrom(queue, from) && forall lot :: lot in from ==> HasBuyRow(lot, symbol, txns)
    ensures forall lot :: lot in queue ==> HasBuyRow(lot, symbol, txns)
  {
    hide BuyRow;
    forall lot | lot in queue ensures HasBuyRow(lot, symbol, txns) {
      var whole :| whole in from && IsCutOf(lot, whole);
      var i :| 0 <= i < |txns| && BuyRow(symbol)(txns[i]) && ShowsRow(whole, txns[i]);
      assert ShowsRow(lot, txns[i]);
    }
  }

  /** The pieces of a sale by the last row close rows of the list. */
  lemma PiecesHaveRows(pieces: seq<RealizedLot>, from: seq<FifoLot>, sale: Sale, symbol: string, front: seq<Txn>, last: Txn)
    requires SellRow(symbol)(last) && sale == SaleOfRow(last)
    requires SoldFrom(pieces, from, sale) && forall lot :: lot in from ==> HasBuyRow(lot, symbol, front)
    ensures forall p :: p in pieces ==> HasRows(p, front + [last]) && FiguresAgree(p)
  {
    hide FiguresAgree;
    var txns := front + [last];
    forall p | p in pieces ensures HasRows(p, txns) && FiguresAgree(p) {
      var lot :| lot in from && IsPieceOf(p, lot, sale);
      var i :| 0 <= i < |front| && BuyRow(symbol)(front[i]) && ShowsRow(lot, front[i]);
      assert BuyRow(symbol)(txns[i]) && SellRow(symbol)(txns[|front|]) && ClosesRows(p, txns[i], txns[|front|]);
    }
  }

  lemma UnknownPartHasRow(sale: Sale, unmatched: real, symbol: string, front: seq<Txn>, last: Txn)
    requires SellRow(symbol)(last) && sale == SaleOfRow(last) && unmatched <= sale.quantity && sale.quantity > EPSILON
    ensures forall u :: u in UnknownParts(sale, unmatched) ==> HasSellRow(u, front + [last])
  {
    hide MatchedProceeds;
    if unmatched > EPSILON {
      assert (front + [last])[|front|] == last;
      assert ReportsRow(UnknownPart(sale, unmatched), last);
    }
  }

  ghost predicate StateHasRows(st: MatchState, txns: seq<Txn>) {
    && QueuesHaveRows(st.queues, txns)
    && (forall lot :: lot in st.realized ==> HasRows(lot, txns) && FiguresAgree(lot))
    && (forall sale :: sale in st.unknown ==> HasSellRow(sale, txns))
  }

  lemma StepHasRows(st: MatchState, front: seq<Txn>, last: Txn)
    requires MatchableState(st) && StateHasRows(st, front)
    ensures StateHasRows(Step(st, last), front + [last])
  {
    hide FiguresAgree, HasRows, HasSellRow, HasBuyRow, BuyRow, SellRow, TradeOf, MatchSell, UnknownParts;
    RowsStay(front, last);
    if last.symbol.Some? {
      var s := last.symbol.value;
      var queue := QueueOf(st, s);
      TradeIsRow(last, s);
      TradeTypes(last, s);
      if BuyRow(s)(last) {
        BuyHasRow(front, last, s);
      } else if SellRow(s)(last) {
        var sale := SaleOfRow(last);
        var r := MatchSell(sale, sale.quantity, queue);
        SellCutsLots(sale, sale.quantity, queue);
        QueueKeepsRows(r.queue, queue, s, front);
        PiecesHaveRows(r.pieces, queue, sale, s, front, last);
        UnknownPartHasRow(sale, r.unmatched, s, front, last);
      }
    } else {
      TradeTypes(last, "");
    }
  }

  lemma TradeTypes(txn: Txn, symbol: string)
    ensures txn.symbol == None || (txn.symbol == Some(symbol) && !BuyRow(symbol)(txn) && !SellRow(symbol)(txn)) ==>
              TradeOf(txn) == Skip
  {
  }

  lemma BuyHasRow(front: seq<Txn>, last: Txn, symbol: string)
    requires BuyRow(symbol)(last)
    ensures HasBuyRow(LotOfRow(last), symbol, front + [last])
  {
    assert (front + [last])[|front|] == last;
    assert ShowsRow(LotOfRow(last), last);
  }

  lemma {:induction false} RunHasRows(txns: seq<Txn>)
    ensures StateHasRows(Run(txns), txns)
  {
    hide StateHasRows, Step;
    if txns == [] {
      NothingHasRows();
    } else {
      var n := |txns| - 1;
      RunHasRows(txns[..n]);
      StepHasRows(Run(txns[..n]), txns[..n], txns[n]);
      assert txns == txns[..n] + [txns[n]];
    }
  }

  lemma NothingHasRows()
    ensures StateHasRows(MatchState([], [], map[]), [])
  {
  }

  /**
   * Every realized lot pairs a buy row with a later sell row of its symbol and carries their dates,
   * name and no more than their shares; every unknown sale is a sell row's.
   */
  lemma LotsHaveRows(txns: seq<Txn>)
    ensures forall lot :: lot in Run(txns).realized ==> HasRows(lot, txns) && FiguresAgree(lot)
    ensures forall sale :: sale in Run(txns).unknown ==> HasSellRow(sale, txns)
    ensures forall s, lot :: s in Run(txns).queues && lot in Run(txns).queues[s] ==> HasBuyRow(lot, s, txns)
  {
    hide HasRows, FiguresAgree, HasSellRow, HasBuyRow, Run;
    RunHasRows(txns);
  }
}
