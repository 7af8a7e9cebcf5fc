/** Capital gains over sealed rows: open the fields, then run the engine. */
module SealedGains {
  import opened Seqs
  import Calendar
  import opened Sealing
  import opened SealSweep
  import opened GainsReport
  import HoldingTotals
  import FifoMatching

  datatype Numbered = Numbered(id: string, row: InvestmentRow)

  /** The engine's view of a row: symbol and security name opened, unless the user has no keys. */
  function OpenTxn(crypto: UserCrypto): Numbered -> FifoMatching.Txn {
    (n: Numbered) =>
      var r := n.row;
      FifoMatching.Txn(
        n.id, Some(r.facts.date),
        if crypto.Plaintext? then r.symbol else OpenIntoOpt(r.symbol, r.symbolEnc, crypto),
        if crypto.Plaintext? then r.securityName else OpenIntoOpt(r.securityName, r.securityNameEnc, crypto),
        r.facts.txnType, r.facts.subtype, r.facts.quantity, r.facts.fees, r.facts.amount)
  }

  function OpenHeld(crypto: UserCrypto): HoldingRow -> HoldingTotals.Held {
    (r: HoldingRow) => HoldingTotals.Held(OpenInto(r.symbol, r.symbolEnc, crypto), r.value, r.quantity)
  }

  /** The engine is given the facts of each row and the texts its owner reads in it. */
  lemma EngineSeesWhatTheOwnerReads(n: Numbered, h: HoldingRow, key: Key)
    ensures var c := Unlocked(key, key);
            var (t, text, held) := (OpenTxn(c)(n), RevealInvestment(n.row, c), OpenHeld(c)(h));
            && t.id == n.id && t.date == Some(n.row.facts.date)
            && t.txnType == n.row.facts.txnType && t.subtype == n.row.facts.subtype
            && t.quantity == n.row.facts.quantity && t.fees == n.row.facts.fees && t.amount == n.row.facts.amount
            && t.symbol == text.symbol && t.securityName == text.securityName
            && held.symbol == RevealHolding(h, c).symbol && held.value == h.value && held.quantity == h.quantity
  {
  }

  /** Groups holdings by opened symbol, leaving sentinels out. */
  method BuildHoldingsMap(rows: seq<HoldingRow>, crypto: UserCrypto) returns (totals: HoldingsMap)
    ensures totals == HoldingTotals.Totals(Map(OpenHeld(crypto), rows))
  {
    totals := map[];
    ghost var held := Map(OpenHeld(crypto), rows);
    for i := 0 to |rows|
      invariant totals == HoldingTotals.Totals(held[..i])
    {
      assert held[..i + 1][..i] == held[..i];
      var symbol := OpenInto(rows[i].symbol, rows[i].symbolEnc, crypto);
      if Sealing.IsSentinelSymbol(symbol) {
        continue;
      }
      var entry := if symbol in totals then totals[symbol] else HoldingTotal(0, 0.0);
      totals := totals[symbol := HoldingTotal(entry.value + rows[i].value, entry.quantity + rows[i].quantity.GetOr(0.0))];
    }
    assert held[..|rows|] == held;
  }

  datatype GainsResult = Forbidden | Gains(report: Report)

  /** `rows` come from the date-ordered query; `thisYear` is the year of `today`. */
  method InnerGetCapitalGains(rows: seq<Numbered>, holdings: seq<HoldingRow>, overrides: Overrides,
                              crypto: UserCrypto, year: Option<int>, today: Calendar.Date)
    returns (result: GainsResult)
    ensures result == Forbidden <==> crypto.Locked?
    ensures result.Gains? ==>
              IsReport(result.report, Map(OpenTxn(crypto), rows), HoldingTotals.Totals(Map(OpenHeld(crypto), holdings)),
                       overrides, year.GetOr(today.year), today)
  {
    if crypto.Locked? {
      return Forbidden;
    }
    var taxYear := year.GetOr(today.year);
    var txns := Map(OpenTxn(Plaintext), rows);
    if !crypto.Plaintext? {
      for i := 0 to |rows|
        invariant |txns| == |rows|
        invariant forall k :: 0 <= k < i ==> txns[k] == OpenTxn(crypto)(rows[k])
        invariant forall k :: i <= k < |rows| ==> txns[k] == OpenTxn(Plaintext)(rows[k])
      {
        var r := rows[i].row;
        txns := txns[i := txns[i].(symbol := OpenIntoOpt(txns[i].symbol, r.symbolEnc, crypto))];
        txns := txns[i := txns[i].(securityName := OpenIntoOpt(txns[i].securityName, r.securityNameEnc, crypto))];
      }
    }
    assert txns == Map(OpenTxn(crypto), rows);
    var totals := BuildHoldingsMap(holdings, crypto);
    var report := ComputeReport(txns, totals, overrides, taxYear, today);
    result := Gains(report);
  }

  // ---- Sealing does not show in the report ----

  function RowsAt(t: Tables, order: seq<string>): seq<Numbered>
    requires forall id :: id in order ==> id in t.investments
  {
    seq(|order|, i requires 0 <= i < |order| => Numbered(order[i], t.investments[order[i]]))
  }

  function HoldingsAt(t: Tables, order: seq<Serial>): seq<HoldingRow>
    requires forall id :: id in order ==> id in t.holdings
  {
    seq(|order|, i requires 0 <= i < |order| => t.holdings[order[i]])
  }

  lemma SameTextsSameInput(t: Tables, t': Tables, key: Key, order: seq<string>, held: seq<Serial>)
    requires SameTexts(t, t', Unlocked(key, key))
    requires forall id :: id in order ==> id in t.investments
    requires forall id :: id in held ==> id in t.holdings
    ensures Map(OpenTxn(Unlocked(key, key)), RowsAt(t', order)) == Map(OpenTxn(Unlocked(key, key)), RowsAt(t, order))
    ensures Map(OpenHeld(Unlocked(key, key)), HoldingsAt(t', held)) == Map(OpenHeld(Unlocked(key, key)), HoldingsAt(t, held))
  {
    var c := Unlocked(key, key);
    forall i | 0 <= i < |order| ensures OpenTxn(c)(RowsAt(t', order)[i]) == OpenTxn(c)(RowsAt(t, order)[i]) {
      assert order[i] in t.investments;
      assert SameInvestment(t.investments[order[i]], t'.investments[order[i]], c);
    }
    forall i | 0 <= i < |held| ensures OpenHeld(c)(HoldingsAt(t', held)[i]) == OpenHeld(c)(HoldingsAt(t, held)[i]) {
      assert held[i] in t.holdings;
      assert SameHolding(t.holdings[held[i]], t'.holdings[held[i]], c);
    }
  }

  /** The report over the rows before any part of the sweep is the report over the rows after it. */
  lemma SweepKeepsGainsReport(t: Tables, user: string, key: Key, rows: seq<RowRef>, order: seq<string>, held: seq<Serial>,
                              r: Report, overrides: Overrides, taxYear: int, today: Calendar.Date)
    requires Unmixed(t, user) && IsSweep(t, user, key, rows)
    requires forall id :: id in order ==> id in t.investments
    requires forall id :: id in held ==> id in t.holdings
    ensures var t', c := Sweep(t, key, rows), Unlocked(key, key);
            && (forall id :: id in order ==> id in t'.investments)
            && (forall id :: id in held ==> id in t'.holdings)
            && (IsReport(r, Map(OpenTxn(c), RowsAt(t', order)), HoldingTotals.Totals(Map(OpenHeld(c), HoldingsAt(t', held))),
                         overrides, taxYear, today)
                <==> IsReport(r, Map(OpenTxn(c), RowsAt(t, order)), HoldingTotals.Totals(Map(OpenHeld(c), HoldingsAt(t, held))),
                              overrides, taxYear, today))
  {
    SweepKeepsTexts(t, user, key, rows);
    hide IsReport, HoldingTotals.Totals, Sweep, IsSweep, UnsealedFields;
    SameTextsSameInput(t, Sweep(t, key, rows), key, order, held);
  }

  /** Before opting in, all of a user's rows are plain, and reading them needs no key. */
  lemma PlainRowsNeedNoKey(rows: seq<Numbered>, holdings: seq<HoldingRow>, crypto: UserCrypto)
    requires forall n :: n in rows ==> n.row.symbolEnc.None? && n.row.securityNameEnc.None?
    requires forall h :: h in holdings ==> h.symbolEnc.None?
    ensures Map(OpenTxn(crypto), rows) == Map(OpenTxn(Plaintext), rows)
    ensures Map(OpenHeld(crypto), holdings) == Map(OpenHeld(Plaintext), holdings)
  {
    forall i | 0 <= i < |rows| ensures OpenTxn(crypto)(rows[i]) == OpenTxn(Plaintext)(rows[i]) {
      assert rows[i] in rows;
    }
    forall i | 0 <= i < |holdings| ensures OpenHeld(crypto)(holdings[i]) == OpenHeld(Plaintext)(holdings[i]) {
      assert holdings[i] in holdings;
    }
  }
}
