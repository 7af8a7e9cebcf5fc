/** What the report promises over years, overrides and summaries. */
module ReportLaws {
  import opened Seqs
  import opened Calendar
  import opened FifoMatching
  import FifoSymbols
  import FifoGrid
  import opened FifoConservation
  import opened FifoCostBounds
  import opened GainsReport

  // ---- The report is determined by its inputs ----

  /** Two runs agree on everything but the order of positions with equal gains. */
  lemma ReportIsDetermined(a: Report, b: Report, txns: seq<Txn>, holdings: HoldingsMap, overrides: Overrides,
                           taxYear: int, today: Date)
    requires IsReport(a, txns, holdings, overrides, taxYear, today)
    requires IsReport(b, txns, holdings, overrides, taxYear, today)
    ensures a == b.(unrealizedPositions := a.unrealizedPositions)
    ensures multiset(a.unrealizedPositions) == multiset(b.unrealizedPositions)
  {
    SamePortfolioSameSummary(a.realizedLots, a.unrealizedPositions, b.unrealizedPositions);
  }

  lemma SamePortfolioSameSummary(lots: seq<RealizedLot>, ps: seq<UnrealizedPosition>, qs: seq<UnrealizedPosition>)
    requires multiset(ps) == multiset(qs)
    ensures SummaryOf(lots, ps) == SummaryOf(lots, qs)
  {
    SumIntPermutation(PriceGain, ps, qs);
    SumIntPermutation(PriceLoss, ps, qs);
    assert forall p :: p in ps <==> p in multiset(ps);
    assert forall p :: p in qs <==> p in multiset(qs);
  }

  // ---- Tax years ----

  /**
   * A date falls in the report of its own year and of no other, except that a year `chrono`
   * cannot represent stands for 1970-01-01.
   */
  lemma YearOfDate(taxYear: int, d: Date)
    ensures InYear(taxYear, d)
       <==> if MIN_YEAR <= taxYear <= MAX_YEAR then d.year == taxYear else d == EPOCH
  {
  }

  /** Every realized lot of a representable year is in that year's report and in no other year's. */
  lemma EachLotInOneYear(r: Report, txns: seq<Txn>, holdings: HoldingsMap, overrides: Overrides,
                         taxYear: int, today: Date, lot: RealizedLot)
    requires IsReport(r, txns, holdings, overrides, taxYear, today) && MIN_YEAR <= taxYear <= MAX_YEAR
    requires lot in AllRealized(txns, overrides)
    ensures lot in r.realizedLots <==> lot.closeDate.year == taxYear
  {
    FilterMembers(LotInYear(taxYear), AllRealized(txns, overrides));
    YearOfDate(taxYear, lot.closeDate);
  }

  lemma EachUnknownSaleInOneYear(r: Report, txns: seq<Txn>, holdings: HoldingsMap, overrides: Overrides,
                                 taxYear: int, today: Date, sale: UnknownBasisSale)
    requires IsReport(r, txns, holdings, overrides, taxYear, today) && MIN_YEAR <= taxYear <= MAX_YEAR
    requires sale in AllUnresolved(txns, overrides)
    ensures sale in r.unknownBasisSales <==> sale.closeDate.year == taxYear
  {
    FilterMembers(SaleInYear(taxYear), AllUnresolved(txns, overrides));
    YearOfDate(taxYear, sale.closeDate);
  }

  ghost predicate DatedAfter(txns: seq<Txn>, year: int) {
    forall txn :: txn in txns && txn.date.Some? ==> txn.date.value.year > year
  }

  /** What later transactions add closes in later years. */
  ghost predicate AddsOnlyAfter(st: MatchState, st': MatchState, year: int) {
    && st.realized <= st'.realized && st.unknown <= st'.unknown
    && (forall lot :: lot in st'.realized[|st.realized|..] ==> lot.closeDate.year > year)
    && (forall sale :: sale in st'.unknown[|st.unknown|..] ==> sale.closeDate.year > year)
  }

  lemma StepAddsOnlyAfter(st: MatchState, txn: Txn, year: int)
    requires MatchableState(st) && (txn.date.Some? ==> txn.date.value.year > year)
    ensures AddsOnlyAfter(st, Step(st, txn), year)
  {
    hide MatchSell;
    var t := TradeOf(txn);
    if t.Sell? {
      PiecesSplitProceeds(t.sale, t.sale.quantity, QueueOf(st, txn.symbol.value));
    }
  }

  lemma AddsOnlyAfterChains(a: MatchState, b: MatchState, c: MatchState, year: int)
    requires AddsOnlyAfter(a, b, year) && AddsOnlyAfter(b, c, year)
    ensures AddsOnlyAfter(a, c, year)
  {
    assert c.realized[|a.realized|..] == b.realized[|a.realized|..] + c.realized[|b.realized|..];
    assert c.unknown[|a.unknown|..] == b.unknown[|a.unknown|..] + c.unknown[|b.unknown|..];
  }

  lemma SameStateAddsNothing(st: MatchState, year: int)
    ensures AddsOnlyAfter(st, st, year)
  {
  }

  lemma {:induction false} RunAddsOnlyAfter(txns: seq<Txn>, later: seq<Txn>, year: int)
    requires DatedAfter(later, year)
    ensures AddsOnlyAfter(Run(txns), Run(txns + later), year)
  {
    hide AddsOnlyAfter;
    if later == [] {
      assert txns + later == txns;
      SameStateAddsNothing(Run(txns), year);
    } else {
      var n := |later| - 1;
      var whole := txns + later;
      RunAddsOnlyAfter(txns, later[..n], year);
      assert whole[..|whole| - 1] == txns + later[..n];
      assert Run(whole) == Step(Run(txns + later[..n]), later[n]);
      hide Run, Step;
      StepAddsOnlyAfter(Run(txns + later[..n]), later[n], year);
      AddsOnlyAfterChains(Run(txns), Run(txns + later[..n]), Run(whole), year);
    }
  }

  lemma {:induction false} ResolvedDates(sales: seq<UnknownBasisSale>, overrides: Overrides, year: int)
    requires forall sale :: sale in sales ==> sale.closeDate.year > year
    ensures forall lot :: lot in Resolved(sales, overrides) ==> lot.closeDate.year > year
  {
    if sales == [] {
    } else {
      ResolvedDates(sales[1..], overrides, year);
    }
  }

  lemma {:induction false} FilterIgnores<T>(keep: T -> bool, xs: seq<T>, more: seq<T>)
    requires forall x :: x in more ==> !keep(x)
    ensures Filter(keep, xs + more) == Filter(keep, xs)
  {
    FilterAppend(keep, xs, more);
    FilterNone(keep, more);
  }

  lemma {:induction false} YearFiltersIgnoreLater(st: MatchState, st': MatchState, overrides: Overrides, year: int)
    requires AddsOnlyAfter(st, st', year) && MIN_YEAR <= year <= MAX_YEAR
    ensures Filter(LotInYear(year), st'.realized + Resolved(st'.unknown, overrides))
         == Filter(LotInYear(year), st.realized + Resolved(st.unknown, overrides))
    ensures Filter(SaleInYear(year), Unresolved(st'.unknown, overrides))
         == Filter(SaleInYear(year), Unresolved(st.unknown, overrides))
  {
    hide Filter, Resolved, NotAfter;
    var lots, sales := st'.realized[|st.realized|..], st'.unknown[|st.unknown|..];
    var resolved, more := Resolved(st.unknown, overrides), Resolved(sales, overrides);
    assert st'.realized == st.realized + lots && st'.unknown == st.unknown + sales;
    forall d: Date | d.year > year ensures !InYear(year, d) {
      YearOfDate(year, d);
    }
    ResolvedDates(sales, overrides, year);
    ResolvedAppend(st.unknown, sales, overrides);
    FilterAppend(LotInYear(year), st'.realized, resolved + more);
    FilterAppend(LotInYear(year), st.realized, resolved);
    FilterIgnores(LotInYear(year), st.realized, lots);
    FilterIgnores(LotInYear(year), resolved, more);
    FilterAppend(StillUnresolved(overrides), st.unknown, sales);
    FilterMembers(StillUnresolved(overrides), sales);
    FilterIgnores(SaleInYear(year), Unresolved(st.unknown, overrides), Unresolved(sales, overrides));
  }

  /** Later trades never rewrite an earlier year. */
  lemma LaterTradesKeepEarlierYears(txns: seq<Txn>, later: seq<Txn>, overrides: Overrides, year: int,
                                    a: Report, holdingsA: HoldingsMap, todayA: Date,
                                    b: Report, holdingsB: HoldingsMap, todayB: Date)
    requires DatedAfter(later, year) && MIN_YEAR <= year <= MAX_YEAR
    requires IsReport(a, txns, holdingsA, overrides, year, todayA)
    requires IsReport(b, txns + later, holdingsB, overrides, year, todayB)
    ensures b.realizedLots == a.realizedLots && b.unknownBasisSales == a.unknownBasisSales
    ensures b.summary.(unrealizedGainCents := None, unrealizedLossCents := None)
         == a.summary.(unrealizedGainCents := None, unrealizedLossCents := None)
  {
    RunAddsOnlyAfter(txns, later, year);
    YearFiltersIgnoreLater(Run(txns), Run(txns + later), overrides, year);
  }

  // ---- Overrides ----

  /** Totals over sales that carry no basis yet survive applying any overrides. */
  lemma {:induction false} ResolvingKeepsTotals(sales: seq<UnknownBasisSale>, overrides: Overrides)
    requires forall sale :: sale in sales ==> sale.userCostBasisCents.None?
    ensures SumInt(RealizedProceeds, Resolved(sales, overrides)) + SumInt(UnknownProceeds, Unresolved(sales, overrides))
         == SumInt(UnknownProceeds, sales)
    ensures SumReal(RealizedQuantity, Resolved(sales, overrides))
            + SumReal(UnknownQuantity, Unresolved(sales, overrides))
         == SumReal(UnknownQuantity, sales)
  {
    if sales == [] {
    } else {
      var rest := sales[1..];
      ResolvingKeepsTotals(rest, overrides);
      if sales[0].txnId in overrides {
        var lot := ResolvedLot(sales[0], overrides[sales[0].txnId]);
        SumIntAppend(RealizedProceeds, [lot], Resolved(rest, overrides));
        SumRealAppend(RealizedQuantity, [lot], Resolved(rest, overrides));
        assert Unresolved(sales, overrides) == Unresolved(rest, overrides);
      } else {
        SumIntAppend(UnknownProceeds, [sales[0]], Unresolved(rest, overrides));
        SumRealAppend(UnknownQuantity, [sales[0]], Unresolved(rest, overrides));
        assert Resolved(sales, overrides) == Resolved(rest, overrides);
      }
    }
  }

  lemma {:induction false} MatcherLeavesBasisOpen(txns: seq<Txn>)
    ensures forall sale :: sale in Run(txns).unknown ==> sale.userCostBasisCents.None?
    ensures forall lot :: lot in Run(txns).realized ==> lot.gainCents == lot.proceedsCents - lot.costBasisCents
    ensures forall lot :: lot in Run(txns).realized ==> lot.source == Fifo && lot.txnId == None
  {
    hide MatchSell;
    if txns == [] {
    } else {
      var n := |txns| - 1;
      MatcherLeavesBasisOpen(txns[..n]);
      var t := TradeOf(txns[n]);
      if t.Sell? {
        PiecesSplitProceeds(t.sale, t.sale.quantity, QueueOf(Run(txns[..n]), txns[n].symbol.value));
      }
    }
  }

  /** Total proceeds and shares, with and without basis, do not depend on the overrides. */
  lemma OverridesKeepTotals(txns: seq<Txn>, overrides: Overrides)
    ensures SumInt(RealizedProceeds, AllRealized(txns, overrides))
            + SumInt(UnknownProceeds, AllUnresolved(txns, overrides))
         == SumInt(RealizedProceeds, Run(txns).realized) + SumInt(UnknownProceeds, Run(txns).unknown)
    ensures SumReal(RealizedQuantity, AllRealized(txns, overrides))
            + SumReal(UnknownQuantity, AllUnresolved(txns, overrides))
         == SumReal(RealizedQuantity, Run(txns).realized) + SumReal(UnknownQuantity, Run(txns).unknown)
  {
    MatcherLeavesBasisOpen(txns);
    ResolvingKeepsTotals(Run(txns).unknown, overrides);
    SumIntAppend(RealizedProceeds, Run(txns).realized, Resolved(Run(txns).unknown, overrides));
    SumRealAppend(RealizedQuantity, Run(txns).realized, Resolved(Run(txns).unknown, overrides));
  }

  // ---- Summary ----

  lemma {:induction false} GainsSplitTwoWays(lots: seq<RealizedLot>)
    requires forall lot :: lot in lots ==> lot.gainCents == lot.proceedsCents - lot.costBasisCents
    ensures SumInt(GainPart, lots) + SumInt(LossPart, lots) == SumInt(ShortTermPart, lots) + SumInt(LongTermPart, lots)
         == SumInt(RealizedProceeds, lots) - SumInt(RealizedCost, lots)
  {
    if lots == [] {
    } else {
      GainsSplitTwoWays(lots[1..]);
    }
  }

  lemma {:induction false} ResolvedGains(sales: seq<UnknownBasisSale>, overrides: Overrides)
    ensures forall lot :: lot in Resolved(sales, overrides) ==> lot.gainCents == lot.proceedsCents - lot.costBasisCents
  {
    if sales == [] {
    } else {
      ResolvedGains(sales[1..], overrides);
    }
  }

  /** The summary's figures are all the same total over exactly the lots the report lists. */
  lemma SummaryAgreesWithLots(r: Report, txns: seq<Txn>, holdings: HoldingsMap, overrides: Overrides,
                              taxYear: int, today: Date)
    requires IsReport(r, txns, holdings, overrides, taxYear, today)
    ensures r.summary.ytdNetCents == r.summary.ytdRealizedGainCents + r.summary.ytdRealizedLossCents
         == r.summary.shortTermNetCents + r.summary.longTermNetCents
         == SumInt(RealizedProceeds, r.realizedLots) - SumInt(RealizedCost, r.realizedLots)
    ensures r.summary.ytdRealizedGainCents >= 0 >= r.summary.ytdRealizedLossCents
  {
    MatcherLeavesBasisOpen(txns);
    ResolvedGains(Run(txns).unknown, overrides);
    FilterMembers(LotInYear(taxYear), AllRealized(txns, overrides));
    GainsSplitTwoWays(r.realizedLots);
    GainSigns(r.realizedLots);
  }

  lemma {:induction false} GainSigns(lots: seq<RealizedLot>)
    ensures SumInt(GainPart, lots) >= 0 >= SumInt(LossPart, lots)
  {
    if lots == [] {
    } else {
      GainSigns(lots[1..]);
    }
  }

  // ---- Conservation, as the report shows it ----

  function PositionQuantity(ps: seq<UnrealizedPosition>, symbol: string): real {
    if ps == [] then 0.0
    else (if ps[0].symbol == symbol then ps[0].quantity else 0.0) + PositionQuantity(ps[1..], symbol)
  }

  function PositionCost(ps: seq<UnrealizedPosition>, symbol: string): int {
    if ps == [] then 0
    else (if ps[0].symbol == symbol then ps[0].costBasisCents else 0) + PositionCost(ps[1..], symbol)
  }

  lemma {:induction false} NoPosition(ps: seq<UnrealizedPosition>, symbol: string)
    requires forall p :: p in ps ==> p.symbol != symbol
    ensures PositionQuantity(ps, symbol) == 0.0 && PositionCost(ps, symbol) == 0
  {
    if ps == [] {
    } else {
      NoPosition(ps[1..], symbol);
    }
  }

  lemma {:induction false} OnePosition(ps: seq<UnrealizedPosition>, symbol: string, p: UnrealizedPosition)
    requires p in ps && p.symbol == symbol && multiset(ps)[p] == 1
    requires forall q :: q in ps && q.symbol == symbol ==> q == p
    ensures PositionQuantity(ps, symbol) == p.quantity && PositionCost(ps, symbol) == p.costBasisCents
  {
    assert ps == [ps[0]] + ps[1..];
    assert multiset(ps) == multiset{ps[0]} + multiset(ps[1..]);
    if ps[0] == p {
      assert multiset(ps[1..])[p] == 0;
      NoPosition(ps[1..], symbol);
    } else {
      assert multiset(ps[1..])[p] == 1;
      OnePosition(ps[1..], symbol, p);
    }
  }

  /** The positions table carries exactly the shares and cost of a symbol's open queue. */
  lemma PositionsCarryQueue(ps: seq<UnrealizedPosition>, txns: seq<Txn>, holdings: HoldingsMap, today: Date,
                            symbol: string)
    requires IsPortfolio(ps, Run(txns).queues, holdings, today)
    ensures PositionQuantity(ps, symbol) == SumReal(FifoGrid.LotQuantity, QueueOf(Run(txns), symbol))
    ensures PositionCost(ps, symbol) == SumInt(LotCost, QueueOf(Run(txns), symbol))
  {
    var queues, queue := Run(txns).queues, QueueOf(Run(txns), symbol);
    FilterAll(IsOpenLot, queue);
    assert forall q :: q in ps ==> q in multiset(ps);
    if HasOpenLots(queues, symbol) {
      var p := PositionOf(symbol, queues[symbol], holdings, today);
      assert IsOpenPosition(p, queues, holdings, today);
      assert p in multiset(ps);
      OnePosition(ps, symbol, p);
    } else {
      NoPosition(ps, symbol);
    }
  }

  /** On a grid, shares and cost bought are those realized over all years plus the open position. */
  lemma ReportConserves(r: Report, txns: seq<Txn>, holdings: HoldingsMap, overrides: Overrides,
                        taxYear: int, today: Date, symbol: string, step: real)
    requires IsReport(r, txns, holdings, overrides, taxYear, today)
    requires step > EPSILON && FifoGrid.TradesOnGrid(FifoSymbols.TradesOf(txns, symbol), step)
    ensures var fifo, bought := Filter(FifoSymbols.LotOf(symbol), Run(txns).realized), FifoGrid.Bought(FifoSymbols.TradesOf(txns, symbol));
            && SumReal(FifoGrid.LotQuantity, bought)
               == SumReal(RealizedQuantity, fifo) + PositionQuantity(r.unrealizedPositions, symbol)
            && SumInt(LotCost, bought)
               == SumInt(RealizedCost, fifo) + PositionCost(r.unrealizedPositions, symbol)
  {
    ConservationIsExactOnGrid(txns, symbol, step);
    PositionsCarryQueue(r.unrealizedPositions, txns, holdings, today, symbol);
  }
}
