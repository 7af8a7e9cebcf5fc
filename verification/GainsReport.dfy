/** The capital-gains report built on the matcher: overrides, open positions, summary, tax year. */
module GainsReport {
  import opened Seqs
  import opened Calendar
  import Rounding
  import opened FifoMatching
  import opened FifoGrid
  import opened FifoConservation

  const I64_MAX := 0x7FFF_FFFF_FFFF_FFFF

  /** The years `chrono` can represent. */
  const MIN_YEAR := -262143
  const MAX_YEAR := 262142

  datatype Basis = Basis(costBasisCents: int, isLongTerm: bool)
  type Overrides = map<string, Basis>

  /** Market value and share count held of one symbol. */
  datatype HoldingTotal = HoldingTotal(value: int, quantity: real)
  type HoldingsMap = map<string, HoldingTotal>

  datatype UnrealizedPosition = UnrealizedPosition(
    symbol: string,
    securityName: Option<string>,
    oldestLotDate: Date,
    quantity: real,
    costBasisCents: int,
    currentValueCents: Option<int>,
    gainCents: Option<int>,
    isLongTermIfSoldToday: bool,
    hasUnknownBasis: bool)

  datatype Summary = Summary(
    ytdRealizedGainCents: int,
    ytdRealizedLossCents: int,
    ytdNetCents: int,
    unrealizedGainCents: Option<int>,
    unrealizedLossCents: Option<int>,
    shortTermNetCents: int,
    longTermNetCents: int)

  datatype Report = Report(
    realizedLots: seq<RealizedLot>,
    unknownBasisSales: seq<UnknownBasisSale>,
    unrealizedPositions: seq<UnrealizedPosition>,
    summary: Summary,
    taxYear: int)

  // ---- Cost-basis overrides ----

  function ResolvedLot(sale: UnknownBasisSale, basis: Basis): RealizedLot {
    RealizedLot(sale.symbol, sale.securityName, None, sale.closeDate, sale.quantity, basis.costBasisCents,
                sale.proceedsCents, sale.proceedsCents - basis.costBasisCents, basis.isLongTerm,
                UserInput, Some(sale.txnId))
  }

  function Resolved(sales: seq<UnknownBasisSale>, overrides: Overrides): seq<RealizedLot> {
    if sales == [] then []
    else
      (if sales[0].txnId in overrides then [ResolvedLot(sales[0], overrides[sales[0].txnId])] else [])
      + Resolved(sales[1..], overrides)
  }

  function StillUnresolved(overrides: Overrides): UnknownBasisSale -> bool {
    (sale: UnknownBasisSale) => sale.txnId !in overrides && sale.userCostBasisCents.None?
  }

  function Unresolved(sales: seq<UnknownBasisSale>, overrides: Overrides): seq<UnknownBasisSale> {
    Filter(StillUnresolved(overrides), sales)
  }

  lemma {:induction false} ResolvedAppend(xs: seq<UnknownBasisSale>, ys: seq<UnknownBasisSale>, overrides: Overrides)
    ensures Resolved(xs + ys, overrides) == Resolved(xs, overrides) + Resolved(ys, overrides)
  {
    if xs == [] {
      assert xs + ys == ys;
    } else {
      assert (xs + ys)[1..] == xs[1..] + ys;
      ResolvedAppend(xs[1..], ys, overrides);
    }
  }

  lemma {:induction false} ResolvedSnoc(xs: seq<UnknownBasisSale>, x: UnknownBasisSale, overrides: Overrides)
    ensures Resolved(xs + [x], overrides)
         == if x.txnId in overrides then Resolved(xs, overrides) + [ResolvedLot(x, overrides[x.txnId])]
            else Resolved(xs, overrides)
  {
    ResolvedAppend(xs, [x], overrides);
  }

  predicate HasNoBasis(sale: UnknownBasisSale) {
    sale.userCostBasisCents.None?
  }

  /** The sale with the user's basis filled in, if there is one. */
  function Marked(overrides: Overrides): UnknownBasisSale -> UnknownBasisSale {
    (sale: UnknownBasisSale) =>
      if sale.txnId in overrides then
        sale.(userCostBasisCents := Some(overrides[sale.txnId].costBasisCents),
              userIsLongTerm := Some(overrides[sale.txnId].isLongTerm))
      else sale
  }

  lemma {:induction false} RetainingUnmarkedSales(sales: seq<UnknownBasisSale>, overrides: Overrides)
    ensures Filter(HasNoBasis, Map(Marked(overrides), sales)) == Unresolved(sales, overrides)
  {
    if sales == [] {
    } else {
      RetainingUnmarkedSales(sales[1..], overrides);
      assert Map(Marked(overrides), sales)[1..] == Map(Marked(overrides), sales[1..]);
    }
  }

  method ApplyCostBasisOverrides(realizedLots: seq<RealizedLot>, unknownBasisSales: seq<UnknownBasisSale>,
                                 overrides: Overrides)
    returns (realized: seq<RealizedLot>, unknown: seq<UnknownBasisSale>)
    ensures realized == realizedLots + Resolved(unknownBasisSales, overrides)
    ensures unknown == Unresolved(unknownBasisSales, overrides)
  {
    hide Resolved, Filter;
    realized := realizedLots;
    var sales := unknownBasisSales;
    assert realized == realizedLots + Resolved([], overrides) by {
      NothingResolved(overrides);
    }
    for i := 0 to |sales|
      invariant |sales| == |unknownBasisSales| && sales[i..] == unknownBasisSales[i..]
      invariant forall k :: 0 <= k < i ==> sales[k] == Marked(overrides)(unknownBasisSales[k])
      invariant realized == realizedLots + Resolved(unknownBasisSales[..i], overrides)
    {
      var sale := sales[i];
      assert sale == unknownBasisSales[i];
      if sale.txnId in overrides {
        var basis := overrides[sale.txnId];
        sales := sales[i := sale.(userCostBasisCents := Some(basis.costBasisCents),
                                  userIsLongTerm := Some(basis.isLongTerm))];
        realized := realized + [ResolvedLot(sale, basis)];
      }
      assert unknownBasisSales[..i + 1] == unknownBasisSales[..i] + [sale];
      ResolvedSnoc(unknownBasisSales[..i], sale, overrides);
    }
    assert sales == Map(Marked(overrides), unknownBasisSales);
    assert unknownBasisSales[..|sales|] == unknownBasisSales;
    RetainingUnmarkedSales(unknownBasisSales, overrides);
    unknown := Filter(HasNoBasis, sales);
  }

  lemma NothingResolved(overrides: Overrides)
    ensures Resolved([], overrides) == []
  {
  }

  // ---- Open positions ----

  predicate IsOpenLot(lot: FifoLot) {
    lot.quantity >= EPSILON
  }

  function EarliestOpen(lots: seq<FifoLot>): Date
    requires lots != []
  {
    var last := lots[|lots| - 1].openDate;
    if |lots| == 1 then last
    else
      var sofar := EarliestOpen(lots[..|lots| - 1]);
      if Before(last, sofar) then last else sofar
  }

  function CurrentValue(holding: Option<HoldingTotal>, quantity: real): Option<int> {
    if holding.None? || holding.value.quantity < EPSILON then None
    else Some(Rounding.Round(holding.value.value as real * Min(quantity / holding.value.quantity, 1.0)))
  }

  function HoldingOf(holdings: HoldingsMap, symbol: string): Option<HoldingTotal> {
    if symbol in holdings then Some(holdings[symbol]) else None
  }

  function PriceLots(symbol: string, securityName: Option<string>, oldest: Date, quantity: real, cost: int,
                     holdings: HoldingsMap, today: Date): UnrealizedPosition
  {
    var holding := HoldingOf(holdings, symbol);
    var value := CurrentValue(holding, quantity);
    UnrealizedPosition(
      symbol, securityName, oldest, quantity, cost, value,
      if value.Some? then Some(value.value - cost) else None,
      IsLongTerm(oldest, today),
      holding.Some? && holding.value.quantity > quantity + EPSILON)
  }

  /** The position that a symbol's open lots make up. */
  function PositionOf(symbol: string, queue: seq<FifoLot>, holdings: HoldingsMap, today: Date): UnrealizedPosition
    requires Filter(IsOpenLot, queue) != []
  {
    var lots := Filter(IsOpenLot, queue);
    PriceLots(symbol, lots[0].securityName, EarliestOpen(lots), SumReal(LotQuantity, lots), SumInt(LotCost, lots),
              holdings, today)
  }

  predicate HasOpenLots(queues: LotQueues, symbol: string) {
    symbol in queues && Filter(IsOpenLot, queues[symbol]) != []
  }

  predicate IsOpenPosition(p: UnrealizedPosition, queues: LotQueues, holdings: HoldingsMap, today: Date) {
    HasOpenLots(queues, p.symbol) && p == PositionOf(p.symbol, queues[p.symbol], holdings, today)
  }

  function GainKey(p: UnrealizedPosition): int {
    p.gainCents.GetOr(I64_MAX)
  }

  ghost predicate SortedByGain(ps: seq<UnrealizedPosition>) {
    forall i, j :: 0 <= i < j < |ps| ==> GainKey(ps[i]) <= GainKey(ps[j])
  }

  /** One position for each symbol with open lots, losses first. The order of equal gains is free. */
  ghost predicate IsPortfolio(ps: seq<UnrealizedPosition>, queues: LotQueues, holdings: HoldingsMap, today: Date) {
    && SortedByGain(ps)
    && forall p :: multiset(ps)[p] == if IsOpenPosition(p, queues, holdings, today) then 1 else 0
  }

  /** The inner loop: gathers one symbol's lots. */
  method GatherLots(queue: seq<FifoLot>)
    returns (entry: Option<(Option<string>, Date, real, int)>)
    ensures var lots := Filter(IsOpenLot, queue);
            entry == if lots == [] then None
                     else Some((lots[0].securityName, EarliestOpen(lots),
                                SumReal(LotQuantity, lots), SumInt(LotCost, lots)))
  {
    entry := None;
    for i := 0 to |queue|
      invariant var lots := Filter(IsOpenLot, queue[..i]);
                entry == if lots == [] then None
                         else Some((lots[0].securityName, EarliestOpen(lots),
                                    SumReal(LotQuantity, lots), SumInt(LotCost, lots)))
    {
      var lot := queue[i];
      OpenLotGathered(queue, i);
      hide Filter, SumReal, SumInt, EarliestOpen;
      if lot.quantity < EPSILON {
        continue;
      }
      if entry.None? {
        entry := Some((lot.securityName, lot.openDate, 0.0, 0));
      }
      var (name, oldest, quantity, cost) := entry.value;
      entry := Some((name, if Before(lot.openDate, oldest) then lot.openDate else oldest,
                     quantity + lot.quantity, cost + lot.costBasisCents));
    }
    assert queue[..|queue|] == queue;
  }

  lemma NoLotsSumToNothing()
    ensures SumReal(LotQuantity, []) == 0.0 && SumInt(LotCost, []) == 0
  {
  }

  /** What one more open lot adds to the sums over the lots before it. */
  lemma OpenLotGathered(queue: seq<FifoLot>, i: nat)
    requires i < |queue|
    ensures var lot, lots, next := queue[i], Filter(IsOpenLot, queue[..i]), Filter(IsOpenLot, queue[..i + 1]);
            if !IsOpenLot(lot) then next == lots
            else
              && next != [] && next[0].securityName == (if lots == [] then lot else lots[0]).securityName
              && SumReal(LotQuantity, next) == (if lots == [] then 0.0 else SumReal(LotQuantity, lots)) + lot.quantity
              && SumInt(LotCost, next) == (if lots == [] then 0 else SumInt(LotCost, lots)) + lot.costBasisCents
              && EarliestOpen(next) == (if lots != [] && !Before(lot.openDate, EarliestOpen(lots)) then EarliestOpen(lots)
                                        else lot.openDate)
  {
    hide Filter, SumReal, SumInt, EarliestOpen, Before;
    var lot, lots := queue[i], Filter(IsOpenLot, queue[..i]);
    assert queue[..i + 1] == queue[..i] + [lot];
    NoLotsSumToNothing();
    EarliestSnoc(lots, lot);
    FilterSnoc(IsOpenLot, queue[..i], lot);
    SumRealSnoc(LotQuantity, lots, lot);
    SumIntSnoc(LotCost, lots, lot);
  }

  lemma EarliestSnoc(lots: seq<FifoLot>, lot: FifoLot)
    ensures EarliestOpen(lots + [lot])
         == if lots != [] && !Before(lot.openDate, EarliestOpen(lots)) then EarliestOpen(lots) else lot.openDate
  {
    hide Before;
    assert (lots + [lot])[..|lots|] == lots;
  }

  function InsertByGain(p: UnrealizedPosition, ps: seq<UnrealizedPosition>): (r: seq<UnrealizedPosition>)
    ensures multiset(r) == multiset(ps) + multiset{p}
  {
    if ps == [] || GainKey(p) <= GainKey(ps[0]) then [p] + ps
    else
      assert ps == [ps[0]] + ps[1..];
      [ps[0]] + InsertByGain(p, ps[1..])
  }

  lemma {:induction false} InsertKeepsSorted(p: UnrealizedPosition, ps: seq<UnrealizedPosition>)
    requires SortedByGain(ps)
    ensures SortedByGain(InsertByGain(p, ps))
  {
    hide GainKey;
    if ps != [] && GainKey(p) > GainKey(ps[0]) {
      var rest := InsertByGain(p, ps[1..]);
      InsertKeepsSorted(p, ps[1..]);
      assert forall q :: q in ps[1..] ==> GainKey(ps[0]) <= GainKey(q);
      forall q | q in rest ensures GainKey(ps[0]) <= GainKey(q) {
        assert q in multiset(ps[1..]) + multiset{p};
      }
      LeastFirst(ps[0], rest);
    } else {
      LeastFirst(p, ps);
    }
  }

  lemma LeastFirst(p: UnrealizedPosition, ps: seq<UnrealizedPosition>)
    requires SortedByGain(ps) && forall q :: q in ps ==> GainKey(p) <= GainKey(q)
    ensures SortedByGain([p] + ps)
  {
    hide GainKey;
  }

  function SortByGain(ps: seq<UnrealizedPosition>): (r: seq<UnrealizedPosition>)
    ensures SortedByGain(r) && multiset(r) == multiset(ps)
  {
    if ps == [] then []
    else
      assert ps == [ps[0]] + ps[1..];
      var rest := SortByGain(ps[1..]);
      InsertKeepsSorted(ps[0], rest);
      InsertByGain(ps[0], rest)
  }

  method BuildUnrealizedPositions(queues: LotQueues, holdings: HoldingsMap, today: Date)
    returns (positions: seq<UnrealizedPosition>)
    ensures IsPortfolio(positions, queues, holdings, today)
  {
    positions := [];
    var pending := queues.Keys;
    while pending != {}
      invariant pending <= queues.Keys
      invariant forall p :: multiset(positions)[p]
                  == if IsOpenPosition(p, queues, holdings, today) && p.symbol !in pending then 1 else 0
      decreases |pending|
    {
      var symbol :| symbol in pending;
      var entry := GatherLots(queues[symbol]);
      if entry.Some? {
        var (name, oldest, quantity, cost) := entry.value;
        positions := positions + [PriceLots(symbol, name, oldest, quantity, cost, holdings, today)];
      }
      pending := pending - {symbol};
    }
    positions := SortByGain(positions);
  }

  // ---- The tax year ----

  function YearStart(taxYear: int): Date {
    if MIN_YEAR <= taxYear <= MAX_YEAR then CivilDate(taxYear, 1, 1) else EPOCH
  }

  function YearEnd(taxYear: int): Date {
    if MIN_YEAR <= taxYear <= MAX_YEAR then CivilDate(taxYear, 12, 31) else EPOCH
  }

  predicate InYear(taxYear: int, d: Date) {
    NotAfter(YearStart(taxYear), d) && NotAfter(d, YearEnd(taxYear))
  }

  function LotInYear(taxYear: int): RealizedLot -> bool {
    (lot: RealizedLot) => InYear(taxYear, lot.closeDate)
  }

  function SaleInYear(taxYear: int): UnknownBasisSale -> bool {
    (sale: UnknownBasisSale) => InYear(taxYear, sale.closeDate)
  }

  // ---- Summary ----

  function GainPart(lot: RealizedLot): int {
    if lot.gainCents >= 0 then lot.gainCents else 0
  }

  function LossPart(lot: RealizedLot): int {
    if lot.gainCents >= 0 then 0 else lot.gainCents
  }

  function LongTermPart(lot: RealizedLot): int {
    if lot.isLongTerm then lot.gainCents else 0
  }

  function ShortTermPart(lot: RealizedLot): int {
    if lot.isLongTerm then 0 else lot.gainCents
  }

  predicate HasGain(p: UnrealizedPosition) {
    p.gainCents.Some? && p.gainCents.value >= 0
  }

  predicate HasLoss(p: UnrealizedPosition) {
    p.gainCents.Some? && p.gainCents.value < 0
  }

  function PriceGain(p: UnrealizedPosition): int {
    if HasGain(p) then p.gainCents.value else 0
  }

  function PriceLoss(p: UnrealizedPosition): int {
    if HasLoss(p) then p.gainCents.value else 0
  }

  function UnrealizedGain(ps: seq<UnrealizedPosition>): Option<int> {
    if exists p :: p in ps && HasGain(p) then Some(SumInt(PriceGain, ps)) else None
  }

  function UnrealizedLoss(ps: seq<UnrealizedPosition>): Option<int> {
    if exists p :: p in ps && HasLoss(p) then Some(SumInt(PriceLoss, ps)) else None
  }

  /** The summary of a year with these realized lots. */
  function SummaryOf(lots: seq<RealizedLot>, ps: seq<UnrealizedPosition>): Summary {
    Summary(SumInt(GainPart, lots), SumInt(LossPart, lots), SumInt(GainPart, lots) + SumInt(LossPart, lots),
            UnrealizedGain(ps), UnrealizedLoss(ps),
            SumInt(ShortTermPart, lots), SumInt(LongTermPart, lots))
  }

  /** What one more position adds to the open gains and losses. */
  lemma GainSummed(ps: seq<UnrealizedPosition>, i: nat)
    requires i < |ps|
    ensures var gain, loss := UnrealizedGain(ps[..i]), UnrealizedLoss(ps[..i]);
            && UnrealizedGain(ps[..i + 1])
               == (if HasGain(ps[i]) then Some(gain.GetOr(0) + ps[i].gainCents.value) else gain)
            && UnrealizedLoss(ps[..i + 1])
               == (if HasLoss(ps[i]) then Some(loss.GetOr(0) + ps[i].gainCents.value) else loss)
  {
    hide SumInt;
    assert ps[..i + 1] == ps[..i] + [ps[i]];
    SumIntSnoc(PriceGain, ps[..i], ps[i]);
    SumIntSnoc(PriceLoss, ps[..i], ps[i]);
    NoGainsSumToNothing(PriceGain, ps[..i]);
    NoGainsSumToNothing(PriceLoss, ps[..i]);
  }

  lemma {:induction false} NoGainsSumToNothing(part: UnrealizedPosition -> int, ps: seq<UnrealizedPosition>)
    ensures (forall p :: p in ps ==> part(p) == 0) ==> SumInt(part, ps) == 0
  {
    if ps != [] {
      NoGainsSumToNothing(part, ps[1..]);
    }
  }

  method SumOpenGains(ps: seq<UnrealizedPosition>) returns (gain: Option<int>, loss: Option<int>)
    ensures gain == UnrealizedGain(ps) && loss == UnrealizedLoss(ps)
  {
    gain, loss := None, None;
    for i := 0 to |ps|
      invariant gain == UnrealizedGain(ps[..i]) && loss == UnrealizedLoss(ps[..i])
    {
      GainSummed(ps, i);
      hide UnrealizedGain, UnrealizedLoss;
      if ps[i].gainCents.Some? {
        var g := ps[i].gainCents.value;
        if g >= 0 {
          gain := Some(gain.GetOr(0) + g);
        } else {
          loss := Some(loss.GetOr(0) + g);
        }
      }
    }
    assert ps[..|ps|] == ps;
  }

  /** One more lot adds its parts to the sums of its year, or leaves them alone. */
  lemma LotSummed(lots: seq<RealizedLot>, i: nat, taxYear: int)
    requires i < |lots|
    ensures var sofar, next := Filter(LotInYear(taxYear), lots[..i]), Filter(LotInYear(taxYear), lots[..i + 1]);
            var counted := LotInYear(taxYear)(lots[i]);
            && SumInt(GainPart, next) == SumInt(GainPart, sofar) + (if counted then GainPart(lots[i]) else 0)
            && SumInt(LossPart, next) == SumInt(LossPart, sofar) + (if counted then LossPart(lots[i]) else 0)
            && SumInt(ShortTermPart, next) == SumInt(ShortTermPart, sofar) + (if counted then ShortTermPart(lots[i]) else 0)
            && SumInt(LongTermPart, next) == SumInt(LongTermPart, sofar) + (if counted then LongTermPart(lots[i]) else 0)
  {
    hide Filter, SumInt, LotInYear;
    var sofar := Filter(LotInYear(taxYear), lots[..i]);
    assert lots[..i + 1] == lots[..i] + [lots[i]];
    FilterSnoc(LotInYear(taxYear), lots[..i], lots[i]);
    SumIntSnoc(GainPart, sofar, lots[i]);
    SumIntSnoc(LossPart, sofar, lots[i]);
    SumIntSnoc(ShortTermPart, sofar, lots[i]);
    SumIntSnoc(LongTermPart, sofar, lots[i]);
  }

  method Summarize(lots: seq<RealizedLot>, ps: seq<UnrealizedPosition>, taxYear: int) returns (summary: Summary)
    ensures summary == SummaryOf(Filter(LotInYear(taxYear), lots), ps)
  {
    var ytdGain, ytdLoss, stNet, ltNet := 0, 0, 0, 0;
    for i := 0 to |lots|
      invariant var sofar := Filter(LotInYear(taxYear), lots[..i]);
                && ytdGain == SumInt(GainPart, sofar) && ytdLoss == SumInt(LossPart, sofar)
                && stNet == SumInt(ShortTermPart, sofar) && ltNet == SumInt(LongTermPart, sofar)
    {
      hide Filter, SumInt, YearStart, YearEnd, NotAfter;
      var lot := lots[i];
      LotSummed(lots, i, taxYear);
      if NotAfter(YearStart(taxYear), lot.closeDate) && NotAfter(lot.closeDate, YearEnd(taxYear)) {
        if lot.gainCents >= 0 {
          ytdGain := ytdGain + lot.gainCents;
        } else {
          ytdLoss := ytdLoss + lot.gainCents;
        }
        if lot.isLongTerm {
          ltNet := ltNet + lot.gainCents;
        } else {
          stNet := stNet + lot.gainCents;
        }
      }
    }
    assert lots[..|lots|] == lots;
    var gain, loss := SumOpenGains(ps);
    summary := Summary(ytdGain, ytdLoss, ytdGain + ytdLoss, gain, loss, stNet, ltNet);
  }

  // ---- The report ----

  /** Every realized lot, over all years, with the overridden sales among them. */
  function AllRealized(txns: seq<Txn>, overrides: Overrides): seq<RealizedLot> {
    Run(txns).realized + Resolved(Run(txns).unknown, overrides)
  }

  function AllUnresolved(txns: seq<Txn>, overrides: Overrides): seq<UnknownBasisSale> {
    Unresolved(Run(txns).unknown, overrides)
  }

  ghost predicate IsReport(r: Report, txns: seq<Txn>, holdings: HoldingsMap, overrides: Overrides,
                           taxYear: int, today: Date)
  {
    && r.realizedLots == Filter(LotInYear(taxYear), AllRealized(txns, overrides))
    && r.unknownBasisSales == Filter(SaleInYear(taxYear), AllUnresolved(txns, overrides))
    && IsPortfolio(r.unrealizedPositions, Run(txns).queues, holdings, today)
    && r.summary == SummaryOf(r.realizedLots, r.unrealizedPositions)
    && r.taxYear == taxYear
  }

  method ComputeReport(txns: seq<Txn>, holdings: HoldingsMap, overrides: Overrides, taxYear: int, today: Date)
    returns (report: Report)
    ensures IsReport(report, txns, holdings, overrides, taxYear, today)
  {
    var realized, unknown, queues := MatchFifoLots(txns);
    assert MatchState(realized, unknown, queues) == Run(txns);
    realized, unknown := ApplyCostBasisOverrides(realized, unknown, overrides);
    var positions := BuildUnrealizedPositions(queues, holdings, today);
    var summary := Summarize(realized, positions, taxYear);
    report := Report(Filter(LotInYear(taxYear), realized), Filter(SaleInYear(taxYear), unknown),
                     positions, summary, taxYear);
  }
}
