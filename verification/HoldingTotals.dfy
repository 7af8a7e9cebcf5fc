/** Holdings grouped by symbol, as the positions table prices them. */
module HoldingTotals {
  import opened Seqs
  import GainsReport
  import Sealing

  /** One holding after decryption. */
  datatype Held = Held(symbol: string, value: int, quantity: Option<real>)

  function HeldValue(h: Held): int {
    h.value
  }

  function HeldQuantity(h: Held): real {
    h.quantity.GetOr(0.0)
  }

  function IsOf(symbol: string): Held -> bool {
    (h: Held) => h.symbol == symbol
  }

  function AddHolding(m: GainsReport.HoldingsMap, h: Held): GainsReport.HoldingsMap {
    if Sealing.IsSentinelSymbol(h.symbol) then m
    else
      var sum := GainsReport.HoldingOf(m, h.symbol).GetOr(GainsReport.HoldingTotal(0, 0.0));
      m[h.symbol := GainsReport.HoldingTotal(sum.value + h.value, sum.quantity + h.quantity.GetOr(0.0))]
  }

  function Totals(rows: seq<Held>): GainsReport.HoldingsMap {
    if rows == [] then map[] else AddHolding(Totals(rows[..|rows| - 1]), rows[|rows| - 1])
  }

  /** Each real symbol held maps to the sums over its rows; sentinels are not in the map. */
  lemma {:induction false} TotalsAreGroupSums(rows: seq<Held>, symbol: string)
    ensures symbol in Totals(rows)
       <==> symbol !in ["CASH", "DEBT", "N/A", ""] && exists h :: h in rows && h.symbol == symbol
    ensures symbol in Totals(rows) ==>
              var own := Filter(IsOf(symbol), rows);
              Totals(rows)[symbol] == GainsReport.HoldingTotal(SumInt(HeldValue, own), SumReal(HeldQuantity, own))
  {
    hide Filter, SumInt, SumReal;
    if rows == [] {
    } else {
      var n := |rows| - 1;
      var front, last := rows[..n], rows[n];
      assert rows == front + [last];
      TotalsAreGroupSums(front, symbol);
      FilterSnoc(IsOf(symbol), front, last);
      var own := Filter(IsOf(symbol), front);
      SumIntSnoc(HeldValue, own, last);
      SumRealSnoc(HeldQuantity, own, last);
      if forall h :: h in front ==> h.symbol != symbol {
        NoneHeld(front, symbol);
      }
    }
  }

  lemma NoneHeld(rows: seq<Held>, symbol: string)
    requires forall h :: h in rows ==> h.symbol != symbol
    ensures var own := Filter(IsOf(symbol), rows); SumInt(HeldValue, own) == 0 && SumReal(HeldQuantity, own) == 0.0
  {
    FilterNone(IsOf(symbol), rows);
  }
}
