/** The report in the columns of its lots, sales and positions. */
module ReportColumns {
  import opened Seqs
  import opened Calendar
  import Rounding
  import opened FifoMatching
  import FifoGrid
  import FifoConservation
  import opened FifoBooks
  import opened GainsReport
  import ReportLaws

  // ---- The summary ----

  /** What came in less what was paid. */
  function Profit(lot: RealizedLot): int {
    lot.proceedsCents - lot.costBasisCents
  }

  function HeldLong(long: bool): RealizedLot -> bool {
    (lot: RealizedLot) => lot.isLongTerm == long
  }

  function Wins(win: bool): RealizedLot -> bool {
    (lot: RealizedLot) => (lot.proceedsCents >= lot.costBasisCents) == win
  }

  lemma PartsAreSums(lots: seq<RealizedLot>)
    requires forall lot :: lot in lots ==> lot.gainCents == Profit(lot)
    ensures SumInt(LongTermPart, lots) == SumInt(Profit, Filter(HeldLong(true), lots))
    ensures SumInt(ShortTermPart, lots) == SumInt(Profit, Filter(HeldLong(false), lots))
    ensures SumInt(GainPart, lots) == SumInt(Profit, Filter(Wins(true), lots))
    ensures SumInt(LossPart, lots) == SumInt(Profit, Filter(Wins(false), lots))
  {
    hide Filter, SumInt;
    SumIntOfPart(LongTermPart, HeldLong(true), Profit, lots);
    SumIntOfPart(ShortTermPart, HeldLong(false), Profit, lots);
    SumIntOfPart(GainPart, Wins(true), Profit, lots);
    SumIntOfPart(LossPart, Wins(false), Profit, lots);
  }

  /** Market value less cost of a priced position. */
  function PaperProfit(p: UnrealizedPosition): int {
    p.currentValueCents.GetOr(p.costBasisCents) - p.costBasisCents
  }

  function PaperWins(win: bool): UnrealizedPosition -> bool {
    (p: UnrealizedPosition) => p.currentValueCents.Some? && (p.currentValueCents.value >= p.costBasisCents) == win
  }

  predicate GainIsPaperProfit(p: UnrealizedPosition) {
    p.gainCents == if p.currentValueCents.Some? then Some(PaperProfit(p)) else None
  }

  lemma PaperPartsAreSums(ps: seq<UnrealizedPosition>)
    requires forall p :: p in ps ==> GainIsPaperProfit(p)
    ensures SumInt(PriceGain, ps) == SumInt(PaperProfit, Filter(PaperWins(true), ps))
    ensures SumInt(PriceLoss, ps) == SumInt(PaperProfit, Filter(PaperWins(false), ps))
  {
    hide Filter, SumInt;
    SumIntOfPart(PriceGain, PaperWins(true), PaperProfit, ps);
    SumIntOfPart(PriceLoss, PaperWins(false), PaperProfit, ps);
  }

  function SumOrNone(ps: seq<UnrealizedPosition>): Option<int> {
    if ps == [] then None else Some(SumInt(PaperProfit, ps))
  }

  lemma OpenGainsAreSums(ps: seq<UnrealizedPosition>)
    requires forall p :: p in ps ==> GainIsPaperProfit(p)
    ensures UnrealizedGain(ps) == SumOrNone(Filter(PaperWins(true), ps))
    ensures UnrealizedLoss(ps) == SumOrNone(Filter(PaperWins(false), ps))
  {
    hide Filter, SumInt;
    PaperPartsAreSums(ps);
    FilterMembers(PaperWins(true), ps);
    FilterMembers(PaperWins(false), ps);
    if Filter(PaperWins(true), ps) != [] {
      assert Filter(PaperWins(true), ps)[0] in ps;
    }
    if Filter(PaperWins(false), ps) != [] {
      assert Filter(PaperWins(false), ps)[0] in ps;
    }
  }

  lemma PricedGains(ps: seq<UnrealizedPosition>, queues: LotQueues, holdings: HoldingsMap, today: Date)
    requires IsPortfolio(ps, queues, holdings, today)
    ensures forall p :: p in ps ==> GainIsPaperProfit(p) && IsOpenPosition(p, queues, holdings, today)
  {
    hide EarliestOpen, Filter, SumReal, SumInt, CurrentValue;
    forall p | p in ps ensures GainIsPaperProfit(p) && IsOpenPosition(p, queues, holdings, today) {
      assert p in multiset(ps);
    }
  }

  /**
   * The nets by term sum what the listed lots of that term brought in less what they cost; gain and
   * loss sum the lots that made and lost money; the open figures do so for the priced positions.
   */
  lemma SummaryBySignAndTerm(r: Report, txns: seq<Txn>, holdings: HoldingsMap, overrides: Overrides,
                             taxYear: int, today: Date)
    requires IsReport(r, txns, holdings, overrides, taxYear, today)
    ensures r.summary.longTermNetCents == SumInt(Profit, Filter(HeldLong(true), r.realizedLots))
    ensures r.summary.shortTermNetCents == SumInt(Profit, Filter(HeldLong(false), r.realizedLots))
    ensures r.summary.ytdRealizedGainCents == SumInt(Profit, Filter(Wins(true), r.realizedLots))
    ensures r.summary.ytdRealizedLossCents == SumInt(Profit, Filter(Wins(false), r.realizedLots))
    ensures r.summary.unrealizedGainCents == SumOrNone(Filter(PaperWins(true), r.unrealizedPositions))
    ensures r.summary.unrealizedLossCents == SumOrNone(Filter(PaperWins(false), r.unrealizedPositions))
  {
    hide Filter, SumInt, Run, Resolved, UnrealizedGain, UnrealizedLoss, GainIsPaperProfit, IsPortfolio;
    ReportLaws.MatcherLeavesBasisOpen(txns);
    ReportLaws.ResolvedGains(Run(txns).unknown, overrides);
    FilterMembers(LotInYear(taxYear), AllRealized(txns, overrides));
    PartsAreSums(r.realizedLots);
    PricedGains(r.unrealizedPositions, Run(txns).queues, holdings, today);
    OpenGainsAreSums(r.unrealizedPositions);
  }

  // ---- Lots and sales, overridden or not ----

  /** A sell row whose missing basis the user supplied. */
  predicate Supplied(lot: RealizedLot, sold: Txn, overrides: Overrides) {
    && lot.source == UserInput && lot.openDate == None && lot.txnId == Some(sold.id) && sold.id in overrides
    && lot.costBasisCents == overrides[sold.id].costBasisCents && lot.isLongTerm == overrides[sold.id].isLongTerm
    && lot.gainCents == lot.proceedsCents - lot.costBasisCents
    && lot.symbol == sold.symbol && lot.securityName == sold.securityName && Some(lot.closeDate) == sold.date
    && 0.000001 < lot.quantity <= Shares(sold)
  }

  ghost predicate IsSupplied(lot: RealizedLot, txns: seq<Txn>, overrides: Overrides) {
    && lot.symbol.Some?
    && exists j :: 0 <= j < |txns| && SellRow(lot.symbol.value)(txns[j]) && Supplied(lot, txns[j], overrides)
  }

  lemma {:induction false} ResolvedSales(sales: seq<UnknownBasisSale>, overrides: Overrides)
    ensures forall lot :: lot in Resolved(sales, overrides) <==>
              exists sale :: sale in sales && sale.txnId in overrides && lot == ResolvedLot(sale, overrides[sale.txnId])
  {
    if sales == [] {
    } else {
      hide ResolvedLot;
      ResolvedSales(sales[1..], overrides);
      assert sales == [sales[0]] + sales[1..];
    }
  }

  lemma ResolvedLotIsSupplied(sale: UnknownBasisSale, txns: seq<Txn>, overrides: Overrides)
    requires HasSellRow(sale, txns) && sale.txnId in overrides
    ensures IsSupplied(ResolvedLot(sale, overrides[sale.txnId]), txns, overrides)
  {
    hide SellRow;
    var j :| 0 <= j < |txns| && SellRow(sale.symbol.value)(txns[j]) && ReportsRow(sale, txns[j]);
    assert Supplied(ResolvedLot(sale, overrides[sale.txnId]), txns[j], overrides);
  }

  lemma EveryLotHasRows(txns: seq<Txn>, overrides: Overrides)
    ensures forall lot :: lot in AllRealized(txns, overrides) ==>
              (HasRows(lot, txns) && FiguresAgree(lot)) || IsSupplied(lot, txns, overrides)
    ensures forall sale :: sale in AllUnresolved(txns, overrides) ==>
              HasSellRow(sale, txns) && sale.txnId !in overrides
  {
    hide HasRows, FiguresAgree, HasSellRow, IsSupplied, Run, Resolved, ResolvedLot, Filter;
    LotsHaveRows(txns);
    ResolvedSales(Run(txns).unknown, overrides);
    FilterMembers(StillUnresolved(overrides), Run(txns).unknown);
    forall lot | lot in Resolved(Run(txns).unknown, overrides) ensures IsSupplied(lot, txns, overrides) {
      var sale :| sale in Run(txns).unknown && sale.txnId in overrides && lot == ResolvedLot(sale, overrides[sale.txnId]);
      ResolvedLotIsSupplied(sale, txns, overrides);
    }
  }

  /**
   * A listed lot pairs a buy row with a later sell row, or is a sell row with the basis and term the
   * user gave; a listed unknown sale is a sell row without one; and no override is passed over.
   */
  lemma ReportListsRows(r: Report, txns: seq<Txn>, holdings: HoldingsMap, overrides: Overrides,
                        taxYear: int, today: Date)
    requires IsReport(r, txns, holdings, overrides, taxYear, today)
    ensures forall lot :: lot in r.realizedLots ==>
              (HasRows(lot, txns) && FiguresAgree(lot)) || IsSupplied(lot, txns, overrides)
    ensures forall sale :: sale in r.unknownBasisSales ==> HasSellRow(sale, txns) && sale.txnId !in overrides
    ensures MIN_YEAR <= taxYear <= MAX_YEAR ==>
              forall sale :: sale in Run(txns).unknown && sale.closeDate.year == taxYear ==>
                if sale.txnId in overrides then
                  exists lot :: lot in r.realizedLots && lot.txnId == Some(sale.txnId)
                                && lot.proceedsCents == sale.proceedsCents && lot.quantity == sale.quantity
                else sale in r.unknownBasisSales
  {
    hide HasRows, FiguresAgree, HasSellRow, IsSupplied, Run, Resolved, Filter, InYear;
    EveryLotHasRows(txns, overrides);
    ResolvedSales(Run(txns).unknown, overrides);
    LotsHaveRows(txns);
    FilterMembers(StillUnresolved(overrides), Run(txns).unknown);
    FilterMembers(LotInYear(taxYear), AllRealized(txns, overrides));
    FilterMembers(SaleInYear(taxYear), AllUnresolved(txns, overrides));
    forall sale | sale in Run(txns).unknown && sale.closeDate.year == taxYear && MIN_YEAR <= taxYear <= MAX_YEAR
      ensures if sale.txnId in overrides then
                exists lot :: lot in r.realizedLots && lot.txnId == Some(sale.txnId)
                              && lot.proceedsCents == sale.proceedsCents && lot.quantity == sale.quantity
              else sale in r.unknownBasisSales
    {
      ReportLaws.YearOfDate(taxYear, sale.closeDate);
      BasisIsOpen(sale, txns);
      if sale.txnId in overrides {
        var lot := ResolvedLot(sale, overrides[sale.txnId]);
        assert lot in AllRealized(txns, overrides);
      }
    }
  }

  lemma BasisIsOpen(sale: UnknownBasisSale, txns: seq<Txn>)
    requires HasSellRow(sale, txns)
    ensures sale.userCostBasisCents == None
  {
  }

  // ---- Positions ----

  /** The price of `quantity` shares out of `held` that are worth `value` together. */
  ghost predicate IsPriceOf(cents: int, value: int, quantity: real, held: real)
    requires held > 0.0
  {
    if quantity >= held then cents == value
    else -0.5 <= cents as real - value as real * (quantity / held) <= 0.5
  }

  ghost predicate Priced(p: UnrealizedPosition, holdings: HoldingsMap, today: Date) {
    && (p.currentValueCents == None <==> p.symbol !in holdings || holdings[p.symbol].quantity < 0.000001)
    && (p.currentValueCents.Some? ==>
          IsPriceOf(p.currentValueCents.value, holdings[p.symbol].value, p.quantity, holdings[p.symbol].quantity))
    && (p.hasUnknownBasis <==> p.symbol in holdings && holdings[p.symbol].quantity > p.quantity + 0.000001)
    && (p.isLongTermIfSoldToday <==> DayNumber(today) - DayNumber(p.oldestLotDate) >= 365)
  }

  /** The position names the queue's first lot and its earliest date, and adds up all its lots. */
  ghost predicate Sums(p: UnrealizedPosition, queue: seq<FifoLot>) {
    && queue != [] && p.securityName == queue[0].securityName
    && (exists lot :: lot in queue && lot.openDate == p.oldestLotDate)
    && (forall lot :: lot in queue ==> DayNumber(p.oldestLotDate) <= DayNumber(lot.openDate))
    && p.quantity == SumReal(FifoGrid.LotQuantity, queue) && p.costBasisCents == SumInt(FifoConservation.LotCost, queue)
  }

  lemma {:induction false} EarliestIsFirst(lots: seq<FifoLot>)
    requires lots != []
    ensures exists lot :: lot in lots && lot.openDate == EarliestOpen(lots)
    ensures forall lot :: lot in lots ==> DayNumber(EarliestOpen(lots)) <= DayNumber(lot.openDate)
  {
    var front, last := lots[..|lots| - 1], lots[|lots| - 1];
    assert lots == front + [last];
    if front != [] {
      hide DayNumber, Before;
      EarliestIsFirst(front);
      BeforeIsDayOrder(last.openDate, EarliestOpen(front));
    }
  }

  lemma ValueIsPrice(holding: HoldingTotal, quantity: real)
    requires quantity > 0.0
    ensures var value := CurrentValue(Some(holding), quantity);
            && (value == None <==> holding.quantity < 0.000001)
            && (value.Some? ==> IsPriceOf(value.value, holding.value, quantity, holding.quantity))
  {
    if holding.quantity >= EPSILON {
      ShareIsAtMostWhole(quantity, holding.quantity);
      Rounding.RoundError(holding.value as real * Min(quantity / holding.quantity, 1.0));
      RoundWhole(holding.value);
    }
  }

  lemma ShareIsAtMostWhole(a: real, b: real)
    requires b > 0.0
    ensures a / b >= 1.0 <==> a >= b
  {
    assert a == (a / b) * b;
  }

  lemma RoundWhole(n: int)
    ensures Rounding.Round(n as real * 1.0) == n
  {
  }

  lemma PositionIsPriced(p: UnrealizedPosition, queues: LotQueues, holdings: HoldingsMap, today: Date)
    requires IsOpenPosition(p, queues, holdings, today) && Matchable(queues[p.symbol])
    ensures Priced(p, holdings, today) && Sums(p, queues[p.symbol])
  {
    hide CurrentValue, EarliestOpen, IsPriceOf, DayNumber;
    var queue := queues[p.symbol];
    FilterAll(IsOpenLot, queue);
    EarliestIsFirst(queue);
    SharesArePositive(queue);
    if p.symbol in holdings {
      ValueIsPrice(holdings[p.symbol], p.quantity);
    } else {
      NoValue(p.quantity);
    }
  }

  lemma NoValue(quantity: real)
    ensures CurrentValue(None, quantity) == None
  {
  }

  lemma {:induction false} SharesArePositive(queue: seq<FifoLot>)
    requires Matchable(queue)
    ensures SumReal(FifoGrid.LotQuantity, queue) >= 0.0
    ensures queue != [] ==> SumReal(FifoGrid.LotQuantity, queue) > 0.0
  {
    if queue != [] {
      SharesArePositive(queue[1..]);
    }
  }

  /** Losses first, positions without a price last. */
  ghost predicate LossesFirst(ps: seq<UnrealizedPosition>) {
    forall i, j :: 0 <= i < j < |ps| && ps[j].gainCents.Some? && ps[j].gainCents.value < 0x7FFF_FFFF_FFFF_FFFF ==>
      ps[i].gainCents.Some? && ps[i].gainCents.value <= ps[j].gainCents.value
  }

  /** Every position sums its symbol's open lots and is priced by its share of what is held. */
  lemma PositionsArePriced(r: Report, txns: seq<Txn>, holdings: HoldingsMap, overrides: Overrides,
                           taxYear: int, today: Date)
    requires IsReport(r, txns, holdings, overrides, taxYear, today)
    ensures forall p :: p in r.unrealizedPositions ==>
              p.symbol in Run(txns).queues && Sums(p, Run(txns).queues[p.symbol]) && Priced(p, holdings, today)
    ensures LossesFirst(r.unrealizedPositions)
  {
    hide Sums, Priced, Run, IsOpenPosition, Matchable;
    PricedGains(r.unrealizedPositions, Run(txns).queues, holdings, today);
    forall p | p in r.unrealizedPositions
      ensures p.symbol in Run(txns).queues && Sums(p, Run(txns).queues[p.symbol]) && Priced(p, holdings, today)
    {
      OpenPositionHasQueue(p, Run(txns).queues, holdings, today);
      PositionIsPriced(p, Run(txns).queues, holdings, today);
    }
  }

  lemma OpenPositionHasQueue(p: UnrealizedPosition, queues: LotQueues, holdings: HoldingsMap, today: Date)
    requires IsOpenPosition(p, queues, holdings, today)
    ensures p.symbol in queues
  {
  }
}
