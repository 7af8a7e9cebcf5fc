/**
 * Symbols do not interfere: what the matcher does to one symbol is what it would do
 * to that symbol's buys and sells alone. Later modules reason about one symbol's trades.
 */
module FifoSymbols {
  import opened Seqs
  import Calendar
  import opened FifoMatching

  predicate IsTrade(t: Trade) {
    && !t.Skip?
    && (t.Buy? ==> t.lot.quantity > EPSILON && t.lot.costBasisCents >= 0)
    && (t.Sell? ==> t.sale.quantity > EPSILON)
  }

  /** A buy or sell that the matcher acts on. */
  type LiveTrade = t: Trade | IsTrade(t) witness Buy(FifoLot(None, None, Calendar.EPOCH, 1.0, 0))

  /** Everything the matcher has produced for one symbol. */
  datatype Position = Position(
    queue: seq<FifoLot>,
    realized: seq<RealizedLot>,
    unknown: seq<UnknownBasisSale>,
    dropped: seq<FifoLot>)

  const FLAT := Position([], [], [], [])

  function Advance(p: Position, t: LiveTrade): (p': Position)
    requires Matchable(p.queue)
    ensures Matchable(p'.queue)
  {
    match t
    case Buy(lot) => p.(queue := p.queue + [lot])
    case Sell(sale) =>
      var r := MatchSell(sale, sale.quantity, p.queue);
      Position(r.queue, p.realized + r.pieces, p.unknown + UnknownParts(sale, r.unmatched), p.dropped + r.dropped)
  }

  function Replay(trades: seq<LiveTrade>): (p: Position)
    ensures Matchable(p.queue)
  {
    if trades == [] then FLAT
    else Advance(Replay(trades[..|trades| - 1]), trades[|trades| - 1])
  }

  lemma ReplaySnoc(trades: seq<LiveTrade>, t: LiveTrade)
    ensures Replay(trades + [t]) == Advance(Replay(trades), t)
  {
    assert (trades + [t])[..|trades|] == trades;
  }

  predicate TradesIn(txn: Txn, symbol: string) {
    !TradeOf(txn).Skip? && txn.symbol == Some(symbol)
  }

  function TradesOf(txns: seq<Txn>, symbol: string): seq<LiveTrade> {
    if txns == [] then []
    else
      var last := txns[|txns| - 1];
      TradesOf(txns[..|txns| - 1], symbol) + if TradesIn(last, symbol) then [TradeOf(last)] else []
  }

  function LotOf(symbol: string): RealizedLot -> bool {
    (lot: RealizedLot) => lot.symbol == Some(symbol)
  }

  function SaleOf(symbol: string): UnknownBasisSale -> bool {
    (sale: UnknownBasisSale) => sale.symbol == Some(symbol)
  }

  function TxnOf(symbol: string): Txn -> bool {
    (txn: Txn) => txn.symbol == Some(symbol)
  }

  ghost predicate AllOf(queue: seq<FifoLot>, symbol: Option<string>) {
    forall lot :: lot in queue ==> lot.symbol == symbol
  }

  lemma {:induction false} PiecesKeepSymbol(sale: Sale, remaining: real, queue: seq<FifoLot>, symbol: Option<string>)
    requires sale.quantity > EPSILON && remaining >= 0.0 && Matchable(queue) && AllOf(queue, symbol)
    ensures var r := MatchSell(sale, remaining, queue);
            AllOf(r.queue, symbol) && forall p :: p in r.pieces ==> p.symbol == symbol
    decreases |queue|, if remaining > EPSILON then 1 else 0
  {
    hide MatchSell, MatchedCost, MatchedProceeds;
    if remaining > EPSILON && queue != [] {
      var matched := Min(remaining, queue[0].quantity);
      var reduced := Reduce(queue[0], matched);
      SellUnfolds(sale, remaining, queue);
      if reduced.quantity < EPSILON {
        PiecesKeepSymbol(sale, remaining - matched, queue[1..], symbol);
      } else {
        PiecesKeepSymbol(sale, remaining - matched, [reduced] + queue[1..], symbol);
      }
    } else {
      SellStops(sale, remaining, queue);
    }
  }

  ghost predicate ShowsOnly(st: MatchState, symbol: string, p: Position) {
    && QueueOf(st, symbol) == p.queue
    && Filter(LotOf(symbol), st.realized) == p.realized
    && Filter(SaleOf(symbol), st.unknown) == p.unknown
  }

  ghost predicate QueuesKeyedBySymbol(st: MatchState) {
    forall s :: s in st.queues ==> AllOf(st.queues[s], Some(s))
  }

  lemma StepProjects(st: MatchState, txn: Txn, symbol: string, p: Position)
    requires MatchableState(st) && QueuesKeyedBySymbol(st) && Matchable(p.queue) && ShowsOnly(st, symbol, p)
    ensures QueuesKeyedBySymbol(Step(st, txn))
    ensures TradesIn(txn, symbol) ==> ShowsOnly(Step(st, txn), symbol, Advance(p, TradeOf(txn)))
    ensures !TradesIn(txn, symbol) ==> ShowsOnly(Step(st, txn), symbol, p)
  {
    var trade := TradeOf(txn);
    if trade.Sell? {
      var s := txn.symbol.value;
      var sale := trade.sale;
      var r := MatchSell(sale, sale.quantity, QueueOf(st, s));
      PiecesKeepSymbol(sale, sale.quantity, QueueOf(st, s), Some(s));
      FilterAppend(LotOf(symbol), st.realized, r.pieces);
      FilterAppend(SaleOf(symbol), st.unknown, UnknownParts(sale, r.unmatched));
      if s == symbol {
        FilterAll(LotOf(symbol), r.pieces);
        FilterAll(SaleOf(symbol), UnknownParts(sale, r.unmatched));
      } else {
        FilterNone(LotOf(symbol), r.pieces);
        FilterNone(SaleOf(symbol), UnknownParts(sale, r.unmatched));
      }
    }
  }

  /** The symbol's share of the full run is the replay of its own trades. */
  lemma {:induction false} RunProjects(txns: seq<Txn>, symbol: string)
    ensures QueuesKeyedBySymbol(Run(txns))
    ensures ShowsOnly(Run(txns), symbol, Replay(TradesOf(txns, symbol)))
  {
    if txns == [] {
    } else {
      var n := |txns| - 1;
      RunProjects(txns[..n], symbol);
      StepProjects(Run(txns[..n]), txns[n], symbol, Replay(TradesOf(txns[..n], symbol)));
      if TradesIn(txns[n], symbol) {
        ReplaySnoc(TradesOf(txns[..n], symbol), TradeOf(txns[n]));
      } else {
        assert TradesOf(txns, symbol) == TradesOf(txns[..n], symbol);
      }
    }
  }

  lemma {:induction false} TradesOfOwnTxns(txns: seq<Txn>, symbol: string)
    ensures TradesOf(Filter(TxnOf(symbol), txns), symbol) == TradesOf(txns, symbol)
  {
    if txns == [] {
    } else {
      var n := |txns| - 1;
      var last, front := txns[n], Filter(TxnOf(symbol), txns[..n]);
      TradesOfOwnTxns(txns[..n], symbol);
      assert txns == txns[..n] + [last];
      FilterAppend(TxnOf(symbol), txns[..n], [last]);
      assert Filter(TxnOf(symbol), [last]) == if last.symbol == Some(symbol) then [last] else [];
      if last.symbol == Some(symbol) {
        assert (front + [last])[..|front|] == front;
      } else {
        assert Filter(TxnOf(symbol), txns) == front;
        assert TradesOf(txns, symbol) == TradesOf(txns[..n], symbol);
      }
    }
  }

  /** Running the matcher on one symbol's transactions alone gives that symbol the same result. */
  lemma SymbolsDoNotInterfere(txns: seq<Txn>, symbol: string)
    ensures var whole, alone := Run(txns), Run(Filter(TxnOf(symbol), txns));
            && QueueOf(whole, symbol) == QueueOf(alone, symbol)
            && Filter(LotOf(symbol), whole.realized) == alone.realized
            && Filter(SaleOf(symbol), whole.unknown) == alone.unknown
  {
    var own := Filter(TxnOf(symbol), txns);
    TradesOfOwnTxns(txns, symbol);
    RunProjects(txns, symbol);
    RunProjects(own, symbol);
    FilterMembers(TxnOf(symbol), txns);
    OneSymbolOnly(own, symbol);
    FilterAll(LotOf(symbol), Run(own).realized);
    FilterAll(SaleOf(symbol), Run(own).unknown);
  }

  lemma {:induction false} OneSymbolOnly(txns: seq<Txn>, symbol: string)
    requires forall txn :: txn in txns ==> txn.symbol == Some(symbol)
    ensures forall lot :: lot in Run(txns).realized ==> lot.symbol == Some(symbol)
    ensures forall sale :: sale in Run(txns).unknown ==> sale.symbol == Some(symbol)
  {
    if txns == [] {
    } else {
      var n := |txns| - 1;
      OneSymbolOnly(txns[..n], symbol);
      RunProjects(txns[..n], symbol);
      var t := TradeOf(txns[n]);
      if t.Sell? {
        PiecesKeepSymbol(t.sale, t.sale.quantity, QueueOf(Run(txns[..n]), symbol), Some(symbol));
      }
    }
  }

  /** Two lists that interleave the same per-symbol lists give every symbol the same result. */
  lemma InterleavingsAgree(txns: seq<Txn>, others: seq<Txn>, symbol: string)
    requires Filter(TxnOf(symbol), txns) == Filter(TxnOf(symbol), others)
    ensures var a, b := Run(txns), Run(others);
            && QueueOf(a, symbol) == QueueOf(b, symbol)
            && Filter(LotOf(symbol), a.realized) == Filter(LotOf(symbol), b.realized)
            && Filter(SaleOf(symbol), a.unknown) == Filter(SaleOf(symbol), b.unknown)
  {
    SymbolsDoNotInterfere(txns, symbol);
    SymbolsDoNotInterfere(others, symbol);
  }
}
