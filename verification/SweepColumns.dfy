/** What a sweep that runs to the end does to each column of the user's rows. */
module SweepColumns {
  import opened Seqs
  import opened Sealing
  import opened SealSweep
  import SweptRows

  /** The text is sealed for the owner and gone from the plain column. */
  predicate SealedAway(text: string, text': string, enc': Option<Blob>, pk: Key) {
    text' == "" && enc' == Some(Sealed(pk, text))
  }

  predicate SealedAwayOpt(text: Option<string>, text': Option<string>, enc': Option<Blob>, pk: Key) {
    text' == None && enc' == if text.Some? then Some(Sealed(pk, text.value)) else None
  }

  predicate AccountDone(r: AccountRow, r': AccountRow, pk: Key) {
    if r.nameEnc.Some? then r' == r
    else
      && r'.owner == r.owner && SealedAway(r.name, r'.name, r'.nameEnc, pk)
      && SealedAwayOpt(r.customName, r'.customName, r'.customNameEnc, pk)
  }

  predicate TxnDone(r: TxnRow, r': TxnRow, pk: Key) {
    if r.rawStringEnc.Some? then r' == r
    else
      && r'.owner == r.owner && r'.facts == r.facts && SealedAway(r.rawString, r'.rawString, r'.rawStringEnc, pk)
      && SealedAwayOpt(r.merchantName, r'.merchantName, r'.merchantNameEnc, pk)
      && SealedAwayOpt(r.note, r'.note, r'.noteEnc, pk)
  }

  /** Each field by itself; the symbols of cash and debt and of unknown securities stay readable. */
  predicate InvestmentDone(r: InvestmentRow, r': InvestmentRow, pk: Key) {
    && r'.owner == r.owner && r'.facts == r.facts
    && (if r.nameEnc.Some? then r'.name == r.name && r'.nameEnc == r.nameEnc
        else SealedAway(r.name, r'.name, r'.nameEnc, pk))
    && (if r.symbolEnc.Some? || r.symbol.None? || r.symbol.value in ["CASH", "DEBT", "N/A", ""]
        then r'.symbol == r.symbol && r'.symbolEnc == r.symbolEnc
        else SealedAwayOpt(r.symbol, r'.symbol, r'.symbolEnc, pk))
    && (if r.securityNameEnc.Some? || r.securityName.None?
        then r'.securityName == r.securityName && r'.securityNameEnc == r.securityNameEnc
        else SealedAwayOpt(r.securityName, r'.securityName, r'.securityNameEnc, pk))
  }

  /** Rows of cash and debt are left alone; of the others the name is always sealed. */
  predicate HoldingDone(r: HoldingRow, r': HoldingRow, pk: Key) {
    if r.symbol in ["CASH", "DEBT"] then r' == r
    else
      && r'.owner == r.owner && r'.value == r.value && r'.quantity == r.quantity
      && (if r.nameEnc.Some? then r'.name == r.name && r'.nameEnc == r.nameEnc
          else SealedAway(r.name, r'.name, r'.nameEnc, pk))
      && (if r.symbolEnc.Some? || r.symbol in ["N/A", ""] then r'.symbol == r.symbol && r'.symbolEnc == r.symbolEnc
          else SealedAway(r.symbol, r'.symbol, r'.symbolEnc, pk))
  }

  // ---- An investment or a holding is sealed once or not at all ----

  lemma {:induction false} SweptInvestment(t: Tables, user: string, pk: Key, rows: seq<RowRef>, id: string)
    requires IsSweep(t, user, pk, rows) && id in t.investments
    ensures id in Sweep(t, pk, rows).investments
    ensures Sweep(t, pk, rows).investments[id]
         == if Investment(id) in rows then SealInvestment(t.investments[id], pk) else t.investments[id]
    ensures Investment(id) in rows ==> t.investments[id].owner == user && InvestmentListed(t.investments[id])
    decreases rows
  {
    hide SealInvestment, InvestmentListed;
    if rows == [] {
    } else {
      var t1 := Write(t, pk, rows[0]);
      assert rows == [rows[0]] + rows[1..];
      SweptInvestment(t1, user, pk, rows[1..], id);
      if rows[0] == Investment(id) {
        SealedInvestmentIsDone(t.investments[id], pk);
      }
    }
  }

  lemma {:induction false} SweptHolding(t: Tables, user: string, pk: Key, rows: seq<RowRef>, id: Serial)
    requires IsSweep(t, user, pk, rows) && id in t.holdings
    ensures id in Sweep(t, pk, rows).holdings
    ensures Sweep(t, pk, rows).holdings[id]
         == if Holding(id) in rows then SealHolding(t.holdings[id], pk) else t.holdings[id]
    ensures Holding(id) in rows ==> t.holdings[id].owner == user && HoldingListed(t.holdings[id])
    decreases rows
  {
    hide SealHolding, HoldingListed;
    if rows == [] {
    } else {
      var t1 := Write(t, pk, rows[0]);
      assert rows == [rows[0]] + rows[1..];
      SweptHolding(t1, user, pk, rows[1..], id);
      if rows[0] == Holding(id) {
        SealedHoldingIsDone(t.holdings[id], pk);
      }
    }
  }

  lemma AccountIsDone(r: AccountRow, pk: Key)
    ensures AccountDone(r, if AccountListed(r) then SealAccount(r, pk) else r, pk)
  {
  }

  lemma TxnIsDone(r: TxnRow, pk: Key)
    ensures TxnDone(r, if TxnListed(r) then SealTxn(r, pk) else r, pk)
  {
  }

  lemma InvestmentIsDone(r: InvestmentRow, pk: Key)
    ensures InvestmentDone(r, if InvestmentListed(r) then SealInvestment(r, pk) else r, pk)
  {
  }

  lemma HoldingIsDone(r: HoldingRow, pk: Key)
    ensures HoldingDone(r, if HoldingListed(r) then SealHolding(r, pk) else r, pk)
  {
  }

  /** Everyone's rows after a sweep for `user`. */
  ghost predicate SweptInColumns(t: Tables, t': Tables, user: string, pk: Key) {
    && t'.accounts.Keys == t.accounts.Keys && t'.txns.Keys == t.txns.Keys
    && t'.investments.Keys == t.investments.Keys && t'.holdings.Keys == t.holdings.Keys
    && (forall id :: id in t.accounts ==>
          if t.accounts[id].owner == user then AccountDone(t.accounts[id], t'.accounts[id], pk)
          else t'.accounts[id] == t.accounts[id])
    && (forall id :: id in t.txns ==>
          if t.txns[id].owner == user then TxnDone(t.txns[id], t'.txns[id], pk) else t'.txns[id] == t.txns[id])
    && (forall id :: id in t.investments ==>
          if t.investments[id].owner == user then InvestmentDone(t.investments[id], t'.investments[id], pk)
          else t'.investments[id] == t.investments[id])
    && (forall id :: id in t.holdings ==>
          if t.holdings[id].owner == user then HoldingDone(t.holdings[id], t'.holdings[id], pk)
          else t'.holdings[id] == t.holdings[id])
  }

  /** A sweep that leaves nothing listed seals just these columns, whatever was sealed before it. */
  lemma CompleteSweepInColumns(t: Tables, user: string, pk: Key, rows: seq<RowRef>)
    requires IsSweep(t, user, pk, rows) && NothingListed(Sweep(t, pk, rows), user)
    ensures SweptInColumns(t, Sweep(t, pk, rows), user, pk)
  {
    hide Sweep, IsSweep, SealAccount, SealTxn, SealInvestment, SealHolding, NothingListed, Listed;
    hide AccountDone, TxnDone, InvestmentDone, HoldingDone;
    var t' := Sweep(t, pk, rows);
    TablesKeepTheirRows(t, pk, rows);
    forall id | id in t.accounts
      ensures if t.accounts[id].owner == user then AccountDone(t.accounts[id], t'.accounts[id], pk)
              else t'.accounts[id] == t.accounts[id]
    {
      SweptRows.SweptAccount(t, user, pk, rows, id);
      NotListed(t', user, Account(id));
      AccountIsDone(t.accounts[id], pk);
    }
    forall id | id in t.txns
      ensures if t.txns[id].owner == user then TxnDone(t.txns[id], t'.txns[id], pk) else t'.txns[id] == t.txns[id]
    {
      SweptRows.SweptTxn(t, user, pk, rows, id);
      NotListed(t', user, Txn(id));
      TxnIsDone(t.txns[id], pk);
    }
    forall id | id in t.investments
      ensures if t.investments[id].owner == user then InvestmentDone(t.investments[id], t'.investments[id], pk)
              else t'.investments[id] == t.investments[id]
    {
      SweptInvestment(t, user, pk, rows, id);
      NotListed(t', user, Investment(id));
      InvestmentIsDone(t.investments[id], pk);
    }
    forall id | id in t.holdings
      ensures if t.holdings[id].owner == user then HoldingDone(t.holdings[id], t'.holdings[id], pk)
              else t'.holdings[id] == t.holdings[id]
    {
      SweptHolding(t, user, pk, rows, id);
      NotListed(t', user, Holding(id));
      HoldingIsDone(t.holdings[id], pk);
    }
  }

  lemma NotListed(t: Tables, user: string, row: RowRef)
    requires NothingListed(t, user)
    ensures match row
            case Account(id) => id in t.accounts && t.accounts[id].owner == user ==> !AccountListed(t.accounts[id])
            case Txn(id) => id in t.txns && t.txns[id].owner == user ==> !TxnListed(t.txns[id])
            case Investment(id) => id in t.investments && t.investments[id].owner == user ==> !InvestmentListed(t.investments[id])
            case Holding(id) => id in t.holdings && t.holdings[id].owner == user ==> !HoldingListed(t.holdings[id])
  {
    hide InvestmentListed, HoldingListed;
    assert !Listed(t, user, row);
  }

  lemma TablesKeepTheirRows(t: Tables, pk: Key, rows: seq<RowRef>)
    ensures var t' := Sweep(t, pk, rows);
            && t'.accounts.Keys == t.accounts.Keys && t'.txns.Keys == t.txns.Keys
            && t'.investments.Keys == t.investments.Keys && t'.holdings.Keys == t.holdings.Keys
  {
    hide Sweep, SameInvestment, SameHolding;
    SweptRows.SweepKeepsOtherTexts(t, pk, rows);
  }
}
