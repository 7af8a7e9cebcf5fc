/** The FIFO lot matcher: the loop over transactions, and the fold it computes. */
module FifoMatching {
  import opened Seqs
  import opened Calendar
  import Rounding

  const EPSILON: real := 0.000001
  const LONG_TERM_DAYS := 365

  /** One investment transaction after decryption. A date that does not parse is `None`. */
  datatype Txn = Txn(
    id: string,
    date: Option<Date>,
    symbol: Option<string>,
    securityName: Option<string>,
    txnType: string,
    subtype: Option<string>,
    quantity: Option<real>,
    fees: Option<int>,
    amount: int)

  datatype FifoLot = FifoLot(
    symbol: Option<string>,
    securityName: Option<string>,
    openDate: Date,
    quantity: real,
    costBasisCents: int)

  datatype Source = Fifo | UserInput

  /** `openDate` is `None` where the report prints "N/A". */
  datatype RealizedLot = RealizedLot(
    symbol: Option<string>,
    securityName: Option<string>,
    openDate: Option<Date>,
    closeDate: Date,
    quantity: real,
    costBasisCents: int,
    proceedsCents: int,
    gainCents: int,
    isLongTerm: bool,
    source: Source,
    txnId: Option<string>)

  datatype UnknownBasisSale = UnknownBasisSale(
    symbol: Option<string>,
    securityName: Option<string>,
    closeDate: Date,
    quantity: real,
    proceedsCents: int,
    txnId: string,
    userCostBasisCents: Option<int>,
    userIsLongTerm: Option<bool>)

  type LotQueues = map<string, seq<FifoLot>>

  // ---- Reading a transaction ----

  /** The sale side of a sell transaction. */
  datatype Sale = Sale(
    txnId: string,
    symbol: Option<string>,
    securityName: Option<string>,
    closeDate: Date,
    quantity: real,
    netProceeds: int)

  datatype Trade = Buy(lot: FifoLot) | Sell(sale: Sale) | Skip

  predicate IsUntradedSymbol(s: string) {
    s == "CASH" || s == "DEBT" || s == "N/A"
  }

  predicate IsBuy(txn: Txn) {
    txn.txnType == "buy" || txn.subtype == Some("buy")
  }

  predicate IsSell(txn: Txn) {
    txn.txnType == "sell" || txn.subtype == Some("sell")
  }

  function TradeOf(txn: Txn): (t: Trade)
    ensures t.Buy? ==> txn.symbol.Some? && t.lot.symbol == txn.symbol
                       && t.lot.quantity > EPSILON && t.lot.costBasisCents >= 0
    ensures t.Sell? ==> txn.symbol.Some? && t.sale.symbol == txn.symbol && t.sale.quantity > EPSILON
  {
    if txn.symbol.None? || IsUntradedSymbol(txn.symbol.value) then Skip
    else if txn.quantity.None? || txn.quantity.value <= EPSILON then Skip
    else if txn.date.None? then Skip
    else if IsBuy(txn) then
      Buy(FifoLot(txn.symbol, txn.securityName, txn.date.value, txn.quantity.value,
                  Abs(txn.amount) + Abs(txn.fees.GetOr(0))))
    else if IsSell(txn) then
      Sell(Sale(txn.id, txn.symbol, txn.securityName, txn.date.value, txn.quantity.value,
                Abs(txn.amount) - Abs(txn.fees.GetOr(0))))
    else Skip
  }

  // ---- One sell against one queue ----

  predicate IsLongTerm(open: Date, close: Date) {
    DaysBetween(open, close) >= LONG_TERM_DAYS
  }

  function MatchedCost(lot: FifoLot, matched: real): int
    requires lot.quantity > 0.0
  {
    Rounding.Round(lot.costBasisCents as real * (matched / lot.quantity))
  }

  function MatchedProceeds(sale: Sale, matched: real): int
    requires sale.quantity > 0.0
  {
    Rounding.Round(sale.netProceeds as real * (matched / sale.quantity))
  }

  /** What is left of `lot` once `matched` shares of it are sold. */
  function Reduce(lot: FifoLot, matched: real): FifoLot
    requires lot.quantity > 0.0
  {
    lot.(quantity := lot.quantity - matched, costBasisCents := lot.costBasisCents - MatchedCost(lot, matched))
  }

  function Piece(sale: Sale, lot: FifoLot, matched: real): RealizedLot
    requires sale.quantity > 0.0 && lot.quantity > 0.0
  {
    RealizedLot(lot.symbol, lot.securityName, Some(lot.openDate), sale.closeDate, matched,
                MatchedCost(lot, matched), MatchedProceeds(sale, matched),
                MatchedProceeds(sale, matched) - MatchedCost(lot, matched),
                IsLongTerm(lot.openDate, sale.closeDate), Fifo, None)
  }

  function UnknownPart(sale: Sale, unmatched: real): UnknownBasisSale
    requires sale.quantity > 0.0
  {
    UnknownBasisSale(sale.symbol, sale.securityName, sale.closeDate, unmatched,
                     MatchedProceeds(sale, unmatched), sale.txnId, None, None)
  }

  /** Lots that stay matchable: a lot thinner than `EPSILON` is dropped from its queue. */
  predicate Matchable(queue: seq<FifoLot>) {
    forall lot :: lot in queue ==> lot.quantity >= EPSILON
  }

  /** `dropped` lists the lots taken off the queue, in the state they were dropped in. */
  datatype SellResult = SellResult(
    pieces: seq<RealizedLot>, queue: seq<FifoLot>, unmatched: real, dropped: seq<FifoLot>)

  function MatchSell(sale: Sale, remaining: real, queue: seq<FifoLot>): (r: SellResult)
    requires sale.quantity > EPSILON && remaining >= 0.0 && Matchable(queue)
    ensures Matchable(r.queue) && 0.0 <= r.unmatched <= remaining
    ensures r.unmatched > EPSILON ==> r.queue == []
    decreases |queue|, if remaining > EPSILON then 1 else 0
  {
    if remaining > EPSILON && queue != [] then
      var lot := queue[0];
      var matched := Min(remaining, lot.quantity);
      var reduced := Reduce(lot, matched);
      if reduced.quantity < EPSILON then
        var r := MatchSell(sale, remaining - matched, queue[1..]);
        r.(pieces := [Piece(sale, lot, matched)] + r.pieces, dropped := [reduced] + r.dropped)
      else
        var r := MatchSell(sale, remaining - matched, [reduced] + queue[1..]);
        r.(pieces := [Piece(sale, lot, matched)] + r.pieces)
    else
      SellResult([], queue, remaining, [])
  }

  lemma SellStops(sale: Sale, remaining: real, queue: seq<FifoLot>)
    requires sale.quantity > EPSILON && remaining >= 0.0 && Matchable(queue)
    requires remaining <= EPSILON || queue == []
    ensures MatchSell(sale, remaining, queue) == SellResult([], queue, remaining, [])
  {
  }

  /** One turn of the matching loop. */
  lemma SellUnfolds(sale: Sale, remaining: real, queue: seq<FifoLot>)
    requires sale.quantity > EPSILON && remaining > EPSILON && Matchable(queue) && queue != []
    ensures var lot, matched := queue[0], Min(remaining, queue[0].quantity);
            var reduced := Reduce(lot, matched);
            var next := if reduced.quantity < EPSILON then queue[1..] else [reduced] + queue[1..];
            var r, rest := MatchSell(sale, remaining, queue), MatchSell(sale, remaining - matched, next);
            && r.pieces == [Piece(sale, lot, matched)] + rest.pieces
            && r.queue == rest.queue && r.unmatched == rest.unmatched
            && r.dropped == (if reduced.quantity < EPSILON then [reduced] else []) + rest.dropped
            && (0.0 < reduced.quantity < EPSILON ==> rest.dropped == [])
  {
  }

  function UnknownParts(sale: Sale, unmatched: real): seq<UnknownBasisSale>
    requires sale.quantity > 0.0
  {
    if unmatched > EPSILON then [UnknownPart(sale, unmatched)] else []
  }

  // ---- The whole list ----

  datatype MatchState = MatchState(
    realized: seq<RealizedLot>, unknown: seq<UnknownBasisSale>, queues: LotQueues)

  ghost predicate MatchableState(st: MatchState) {
    forall s :: s in st.queues ==> Matchable(st.queues[s])
  }

  function QueueOf(st: MatchState, symbol: string): seq<FifoLot> {
    if symbol in st.queues then st.queues[symbol] else []
  }

  function Step(st: MatchState, txn: Txn): (st': MatchState)
    requires MatchableState(st)
    ensures MatchableState(st')
  {
    match TradeOf(txn)
    case Skip => st
    case Buy(lot) =>
      var s := txn.symbol.value;
      st.(queues := st.queues[s := QueueOf(st, s) + [lot]])
    case Sell(sale) =>
      var s := txn.symbol.value;
      var r := MatchSell(sale, sale.quantity, QueueOf(st, s));
      MatchState(st.realized + r.pieces, st.unknown + UnknownParts(sale, r.unmatched), st.queues[s := r.queue])
  }

  /** Defined on the last transaction, so that the state after a prefix is the state the loop holds. */
  function Run(txns: seq<Txn>): (st: MatchState)
    ensures MatchableState(st)
  {
    if txns == [] then MatchState([], [], map[])
    else Step(Run(txns[..|txns| - 1]), txns[|txns| - 1])
  }

  lemma RunSnoc(txns: seq<Txn>, i: nat)
    requires i < |txns|
    ensures Run(txns[..i + 1]) == Step(Run(txns[..i]), txns[i])
  {
    assert txns[..i + 1][..i] == txns[..i];
  }

  /** `whole` is what has been cut so far and what the rest of the queue gives. */
  ghost predicate Remains(sale: Sale, whole: SellResult, pieces: seq<RealizedLot>, remaining: real, queue: seq<FifoLot>)
    requires sale.quantity > EPSILON && remaining >= 0.0 && Matchable(queue)
  {
    var rest := MatchSell(sale, remaining, queue);
    whole.pieces == pieces + rest.pieces && whole.queue == rest.queue && whole.unmatched == rest.unmatched
  }

  lemma OneLotLess(sale: Sale, whole: SellResult, pieces: seq<RealizedLot>, remaining: real, queue: seq<FifoLot>)
    requires sale.quantity > EPSILON && remaining > EPSILON && Matchable(queue) && queue != []
    requires Remains(sale, whole, pieces, remaining, queue)
    ensures var lot, matched := queue[0], Min(remaining, queue[0].quantity);
            && lot.quantity > 0.0 && remaining - matched >= 0.0
            && var reduced := Reduce(lot, matched);
               var next := if reduced.quantity < EPSILON then queue[1..] else [reduced] + queue[1..];
               && Matchable(next) && (reduced.quantity >= EPSILON ==> remaining - matched <= EPSILON)
               && Remains(sale, whole, pieces + [Piece(sale, lot, matched)], remaining - matched, next)
  {
    hide MatchSell, Piece, MatchedCost;
    SellUnfolds(sale, remaining, queue);
    var lot, matched := queue[0], Min(remaining, queue[0].quantity);
    var reduced := Reduce(lot, matched);
    var next := if reduced.quantity < EPSILON then queue[1..] else [reduced] + queue[1..];
    var rest := MatchSell(sale, remaining - matched, next);
    assert pieces + ([Piece(sale, lot, matched)] + rest.pieces) == (pieces + [Piece(sale, lot, matched)]) + rest.pieces;
  }

  /** The inner loop: sells `sale` out of `lots`, oldest lot first. */
  method SellFromQueue(sale: Sale, lots: seq<FifoLot>)
    returns (pieces: seq<RealizedLot>, queue: seq<FifoLot>, remaining: real)
    requires sale.quantity > EPSILON && Matchable(lots)
    ensures var r := MatchSell(sale, sale.quantity, lots);
            pieces == r.pieces && queue == r.queue && remaining == r.unmatched
  {
    hide MatchSell, Piece, Reduce, Min, Matchable;
    pieces, queue, remaining := [], lots, sale.quantity;
    ghost var whole := MatchSell(sale, sale.quantity, lots);
    while remaining > EPSILON && queue != []
      invariant remaining >= 0.0 && Matchable(queue) && Remains(sale, whole, pieces, remaining, queue)
      decreases |queue|, if remaining > EPSILON then 1 else 0
    {
      OneLotLess(sale, whole, pieces, remaining, queue);
      var lot := queue[0];
      var matched := Min(remaining, lot.quantity);
      pieces := pieces + [Piece(sale, lot, matched)];
      lot := Reduce(lot, matched);
      remaining := remaining - matched;
      queue := if lot.quantity < EPSILON then queue[1..] else [lot] + queue[1..];
    }
    SellStops(sale, remaining, queue);
  }

  method MatchFifoLots(txns: seq<Txn>)
    returns (realizedLots: seq<RealizedLot>, unknownBasisSales: seq<UnknownBasisSale>, lotQueues: LotQueues)
    ensures MatchState(realizedLots, unknownBasisSales, lotQueues) == Run(txns)
  {
    lotQueues, realizedLots, unknownBasisSales := map[], [], [];
    for i := 0 to |txns|
      invariant MatchState(realizedLots, unknownBasisSales, lotQueues) == Run(txns[..i])
    {
      RunSnoc(txns, i);
      var txn := txns[i];
      if txn.symbol.None? || IsUntradedSymbol(txn.symbol.value) {
        continue;
      }
      var symbol := txn.symbol.value;
      if txn.quantity.None? || txn.quantity.value <= EPSILON {
        continue;
      }
      var quantity := txn.quantity.value;
      if txn.date.None? {
        continue;
      }
      var txnDate := txn.date.value;
      var isBuy := txn.txnType == "buy" || txn.subtype == Some("buy");
      var isSell := txn.txnType == "sell" || txn.subtype == Some("sell");
      var queue := if symbol in lotQueues then lotQueues[symbol] else [];
      if isBuy {
        var costBasis := Abs(txn.amount) + Abs(txn.fees.GetOr(0));
        lotQueues := lotQueues[symbol := queue + [FifoLot(txn.symbol, txn.securityName, txnDate, quantity, costBasis)]];
      } else if isSell {
        var netProceeds := Abs(txn.amount) - Abs(txn.fees.GetOr(0));
        var sale := Sale(txn.id, txn.symbol, txn.securityName, txnDate, quantity, netProceeds);
        assert TradeOf(txn) == Sell(sale);
        var pieces, rest, remaining := SellFromQueue(sale, queue);
        realizedLots := realizedLots + pieces;
        lotQueues := lotQueues[symbol := rest];
        if remaining > EPSILON {
          unknownBasisSales := unknownBasisSales + [UnknownPart(sale, remaining)];
        }
      }
    }
    assert txns[..|txns|] == txns;
  }
}
