/** The report does not look inside transaction ids: renaming them renames them in the report. */
module ReportRenaming {
  import Calendar
  import opened Seqs
  import opened FifoMatching
  import opened GainsReport
  import ReportLaws

  type Renaming = map<string, string>

  ghost predicate Injective(ids: Renaming) {
    forall a, b :: a in ids && b in ids && ids[a] == ids[b] ==> a == b
  }

  function NewId(ids: Renaming, id: string): string {
    if id in ids then ids[id] else id
  }

  function RenameTxn(ids: Renaming): Txn -> Txn {
    (txn: Txn) => txn.(id := NewId(ids, txn.id))
  }

  function RenameSale(ids: Renaming): UnknownBasisSale -> UnknownBasisSale {
    (sale: UnknownBasisSale) => sale.(txnId := NewId(ids, sale.txnId))
  }

  function RenameLot(ids: Renaming): RealizedLot -> RealizedLot {
    (lot: RealizedLot) => if lot.txnId.Some? then lot.(txnId := Some(NewId(ids, lot.txnId.value))) else lot
  }

  function RenameReport(ids: Renaming, r: Report): Report {
    r.(realizedLots := Map(RenameLot(ids), r.realizedLots),
       unknownBasisSales := Map(RenameSale(ids), r.unknownBasisSales))
  }

  /** The overrides of mapped ids, under their new names; overrides of other ids are dropped. */
  ghost function RenameOverrides(ids: Renaming, overrides: Overrides): (renamed: Overrides)
    requires Injective(ids)
    ensures forall id :: id in ids ==> (ids[id] in renamed <==> id in overrides)
    ensures forall id :: id in ids && id in overrides ==> renamed[ids[id]] == overrides[id]
  {
    var keep := map id | id in overrides && id in ids :: ids[id] := overrides[id];
    keep
  }

  // ---- The matcher ----

  lemma PieceIgnoresId(sale: Sale, id: string, lot: FifoLot, matched: real)
    requires sale.quantity > EPSILON && lot.quantity > 0.0
    ensures Piece(sale.(txnId := id), lot, matched) == Piece(sale, lot, matched)
  {
    hide MatchedCost, IsLongTerm;
  }

  lemma {:induction false} MatchSellIgnoresId(sale: Sale, id: string, remaining: real, queue: seq<FifoLot>)
    requires sale.quantity > EPSILON && remaining >= 0.0 && Matchable(queue)
    ensures MatchSell(sale.(txnId := id), remaining, queue) == MatchSell(sale, remaining, queue)
    decreases |queue|, if remaining > EPSILON then 1 else 0
  {
    hide Piece, MatchSell;
    var other := sale.(txnId := id);
    if remaining > EPSILON && queue != [] {
      var matched := Min(remaining, queue[0].quantity);
      var reduced := Reduce(queue[0], matched);
      PieceIgnoresId(sale, id, queue[0], matched);
      SellUnfolds(sale, remaining, queue);
      SellUnfolds(other, remaining, queue);
      MatchSellIgnoresId(sale, id, remaining - matched,
                         if reduced.quantity < EPSILON then queue[1..] else [reduced] + queue[1..]);
    } else {
      SellStops(sale, remaining, queue);
      SellStops(other, remaining, queue);
    }
  }

  function RenameState(ids: Renaming, st: MatchState): MatchState {
    st.(unknown := Map(RenameSale(ids), st.unknown))
  }

  lemma UnknownPartsCommute(ids: Renaming, sale: Sale, unmatched: real)
    requires sale.quantity > EPSILON
    ensures UnknownParts(sale.(txnId := NewId(ids, sale.txnId)), unmatched)
         == Map(RenameSale(ids), UnknownParts(sale, unmatched))
  {
    var renamed := sale.(txnId := NewId(ids, sale.txnId));
    assert MatchedProceeds(renamed, unmatched) == MatchedProceeds(sale, unmatched);
    assert UnknownPart(renamed, unmatched) == RenameSale(ids)(UnknownPart(sale, unmatched));
  }

  lemma StepCommutes(ids: Renaming, st: MatchState, txn: Txn)
    requires MatchableState(st)
    ensures Step(RenameState(ids, st), RenameTxn(ids)(txn)) == RenameState(ids, Step(st, txn))
  {
    hide MatchSell, MatchedProceeds, UnknownParts;
    var renamed, t := RenameTxn(ids)(txn), TradeOf(txn);
    if t.Sell? {
      var symbol := txn.symbol.value;
      var r := MatchSell(t.sale, t.sale.quantity, QueueOf(st, symbol));
      assert TradeOf(renamed) == Sell(t.sale.(txnId := renamed.id));
      MatchSellIgnoresId(t.sale, renamed.id, t.sale.quantity, QueueOf(st, symbol));
      MapAppend(RenameSale(ids), st.unknown, UnknownParts(t.sale, r.unmatched));
      UnknownPartsCommute(ids, t.sale, r.unmatched);
    }
  }

  lemma {:induction false} RunCommutes(ids: Renaming, txns: seq<Txn>)
    ensures Run(Map(RenameTxn(ids), txns)) == RenameState(ids, Run(txns))
  {
    hide Step;
    if txns == [] {
    } else {
      var n := |txns| - 1;
      RunCommutes(ids, txns[..n]);
      StepCommutes(ids, Run(txns[..n]), txns[n]);
      assert Map(RenameTxn(ids), txns)[..n] == Map(RenameTxn(ids), txns[..n]);
    }
  }

  lemma {:induction false} UnknownIdsComeFromTxns(txns: seq<Txn>)
    ensures forall sale :: sale in Run(txns).unknown ==> exists txn :: txn in txns && txn.id == sale.txnId
  {
    hide MatchSell;
    if txns == [] {
    } else {
      var n := |txns| - 1;
      UnknownIdsComeFromTxns(txns[..n]);
      assert txns[n] in txns;
      assert forall txn :: txn in txns[..n] ==> txn in txns;
      forall sale | sale in Run(txns).unknown ensures exists txn :: txn in txns && txn.id == sale.txnId {
        if sale !in Run(txns[..n]).unknown {
          assert txns[n].id == sale.txnId;
        }
      }
    }
  }

  // ---- Overrides and filters ----

  lemma {:induction false} ResolvedCommutes(ids: Renaming, sales: seq<UnknownBasisSale>, overrides: Overrides)
    requires Injective(ids) && forall sale :: sale in sales ==> sale.txnId in ids
    ensures Resolved(Map(RenameSale(ids), sales), RenameOverrides(ids, overrides))
         == Map(RenameLot(ids), Resolved(sales, overrides))
  {
    hide RenameOverrides;
    if sales == [] {
    } else {
      var rest, sale := sales[1..], sales[0];
      ResolvedCommutes(ids, rest, overrides);
      assert Map(RenameSale(ids), sales)[1..] == Map(RenameSale(ids), rest);
      if sale.txnId in overrides {
        MapAppend(RenameLot(ids), [ResolvedLot(sale, overrides[sale.txnId])], Resolved(rest, overrides));
      } else {
        assert Resolved(sales, overrides) == Resolved(rest, overrides);
      }
    }
  }

  lemma UnresolvedCommutes(ids: Renaming, sales: seq<UnknownBasisSale>, overrides: Overrides)
    requires Injective(ids) && forall sale :: sale in sales ==> sale.txnId in ids
    ensures Unresolved(Map(RenameSale(ids), sales), RenameOverrides(ids, overrides))
         == Map(RenameSale(ids), Unresolved(sales, overrides))
  {
    hide RenameOverrides;
    FilterOfMap(RenameSale(ids), StillUnresolved(overrides), StillUnresolved(RenameOverrides(ids, overrides)), sales);
  }

  lemma {:induction false} SumCommutes<T>(sum: T -> int, f: T -> T, xs: seq<T>)
    requires forall x :: x in xs ==> sum(f(x)) == sum(x)
    ensures SumInt(sum, Map(f, xs)) == SumInt(sum, xs)
  {
    if xs == [] {
    } else {
      SumCommutes(sum, f, xs[1..]);
      assert Map(f, xs)[1..] == Map(f, xs[1..]);
    }
  }

  lemma {:induction false} FifoLotsKeepNoId(ids: Renaming, lots: seq<RealizedLot>)
    requires forall lot :: lot in lots ==> lot.txnId.None?
    ensures Map(RenameLot(ids), lots) == lots
  {
  }

  lemma SummaryIgnoresIds(ids: Renaming, lots: seq<RealizedLot>, ps: seq<UnrealizedPosition>)
    ensures SummaryOf(Map(RenameLot(ids), lots), ps) == SummaryOf(lots, ps)
  {
    SumCommutes(GainPart, RenameLot(ids), lots);
    SumCommutes(LossPart, RenameLot(ids), lots);
    SumCommutes(ShortTermPart, RenameLot(ids), lots);
    SumCommutes(LongTermPart, RenameLot(ids), lots);
  }

  lemma AllRealizedCommutes(ids: Renaming, txns: seq<Txn>, overrides: Overrides)
    requires Injective(ids) && forall txn :: txn in txns ==> txn.id in ids
    ensures AllRealized(Map(RenameTxn(ids), txns), RenameOverrides(ids, overrides))
         == Map(RenameLot(ids), AllRealized(txns, overrides))
    ensures AllUnresolved(Map(RenameTxn(ids), txns), RenameOverrides(ids, overrides))
         == Map(RenameSale(ids), AllUnresolved(txns, overrides))
  {
    hide Run, Resolved, Unresolved;
    var st := Run(txns);
    RunCommutes(ids, txns);
    UnknownIdsComeFromTxns(txns);
    ResolvedCommutes(ids, st.unknown, overrides);
    UnresolvedCommutes(ids, st.unknown, overrides);
    ReportLaws.MatcherLeavesBasisOpen(txns);
    FifoLotsKeepNoId(ids, st.realized);
    MapAppend(RenameLot(ids), st.realized, Resolved(st.unknown, overrides));
  }

  /** `compute_report` commutes with an injective renaming of transaction ids. */
  lemma ReportCommutesWithRenaming(ids: Renaming, r: Report, txns: seq<Txn>, holdings: HoldingsMap,
                                   overrides: Overrides, taxYear: int, today: Calendar.Date)
    requires Injective(ids) && forall txn :: txn in txns ==> txn.id in ids
    requires IsReport(r, txns, holdings, overrides, taxYear, today)
    ensures IsReport(RenameReport(ids, r), Map(RenameTxn(ids), txns), holdings, RenameOverrides(ids, overrides),
                     taxYear, today)
  {
    hide Run, AllRealized, AllUnresolved, IsPortfolio, SummaryOf;
    RunCommutes(ids, txns);
    AllRealizedCommutes(ids, txns, overrides);
    FilterOfMap(RenameLot(ids), LotInYear(taxYear), LotInYear(taxYear), AllRealized(txns, overrides));
    FilterOfMap(RenameSale(ids), SaleInYear(taxYear), SaleInYear(taxYear), AllUnresolved(txns, overrides));
    SummaryIgnoresIds(ids, r.realizedLots, r.unrealizedPositions);
  }

  /** Every report over renamed transactions is the renaming of one over the transactions. */
  lemma UnrenamedReport(ids: Renaming, r: Report, txns: seq<Txn>, holdings: HoldingsMap,
                        overrides: Overrides, taxYear: int, today: Calendar.Date)
    returns (original: Report)
    requires Injective(ids) && forall txn :: txn in txns ==> txn.id in ids
    requires IsReport(r, Map(RenameTxn(ids), txns), holdings, RenameOverrides(ids, overrides), taxYear, today)
    ensures IsReport(original, txns, holdings, overrides, taxYear, today) && r == RenameReport(ids, original)
  {
    hide Run, AllRealized, AllUnresolved, IsPortfolio, SummaryOf;
    var lots := Filter(LotInYear(taxYear), AllRealized(txns, overrides));
    original := Report(lots, Filter(SaleInYear(taxYear), AllUnresolved(txns, overrides)), r.unrealizedPositions,
                  SummaryOf(lots, r.unrealizedPositions), taxYear);
    RunCommutes(ids, txns);
    ReportCommutesWithRenaming(ids, original, txns, holdings, overrides, taxYear, today);
  }
}
