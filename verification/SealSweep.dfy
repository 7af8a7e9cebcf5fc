/** The sweep that seals the rows a user had before opting in. */
module SealSweep {
  import opened Seqs
  import Calendar
  import opened Sealing

  // ---- Rows; `owner` is the user that the joins over accounts and items lead to ----

  datatype AccountRow = AccountRow(
    owner: string, name: string, nameEnc: Option<Blob>, customName: Option<string>, customNameEnc: Option<Blob>)

  /** What a transaction row holds besides its sealable texts. */
  datatype TxnFacts = TxnFacts(
    accountId: string, date: string, amount: int, pending: bool, category: Option<string>, tags: Option<string>)

  datatype TxnRow = TxnRow(
    owner: string, facts: TxnFacts,
    rawString: string, rawStringEnc: Option<Blob>,
    merchantName: Option<string>, merchantNameEnc: Option<Blob>,
    note: Option<string>, noteEnc: Option<Blob>)

  datatype InvestmentFacts = InvestmentFacts(
    date: Calendar.Date, txnType: string, subtype: Option<string>, quantity: Option<real>, fees: Option<int>, amount: int)

  datatype InvestmentRow = InvestmentRow(
    owner: string, facts: InvestmentFacts,
    name: string, nameEnc: Option<Blob>,
    symbol: Option<string>, symbolEnc: Option<Blob>,
    securityName: Option<string>, securityNameEnc: Option<Blob>)

  datatype HoldingRow = HoldingRow(
    owner: string, value: int, quantity: Option<real>,
    symbol: string, symbolEnc: Option<Blob>,
    name: string, nameEnc: Option<Blob>)

  /** A generated row number. */
  datatype Serial = Serial(number: int)

  datatype Tables = Tables(
    accounts: map<string, AccountRow>,
    txns: map<string, TxnRow>,
    investments: map<string, InvestmentRow>,
    holdings: map<Serial, HoldingRow>)

  // ---- Which fields still need sealing ----

  predicate NeedsSymbolSeal(symbol: Option<string>, enc: Option<Blob>) {
    enc.None? && symbol.Some? && !IsSentinelSymbol(symbol.value)
  }

  /** The four list queries. */
  predicate AccountListed(r: AccountRow) {
    r.nameEnc.None?
  }

  predicate TxnListed(r: TxnRow) {
    r.rawStringEnc.None?
  }

  predicate InvestmentListed(r: InvestmentRow) {
    r.nameEnc.None? || NeedsSymbolSeal(r.symbol, r.symbolEnc) || (r.securityNameEnc.None? && r.securityName.Some?)
  }

  predicate IsCashRow(r: HoldingRow) {
    r.symbol == "CASH" || r.symbol == "DEBT"
  }

  predicate HoldingNeedsSymbol(r: HoldingRow) {
    r.symbolEnc.None? && r.symbol != "N/A" && r.symbol != ""
  }

  predicate HoldingListed(r: HoldingRow) {
    !IsCashRow(r) && (HoldingNeedsSymbol(r) || r.nameEnc.None?)
  }

  // ---- The four updates ----

  function SealText(pk: Key, text: Option<string>): Option<Blob> {
    if text.Some? then Some(Sealed(pk, text.value)) else None
  }

  function OrElse(a: Option<Blob>, b: Option<Blob>): Option<Blob> {
    if a.Some? then a else b
  }

  function SealAccount(r: AccountRow, pk: Key): AccountRow {
    r.(name := "", nameEnc := Some(Sealed(pk, r.name)), customName := None, customNameEnc := SealText(pk, r.customName))
  }

  function SealTxn(r: TxnRow, pk: Key): TxnRow {
    r.(rawString := "", rawStringEnc := Some(Sealed(pk, r.rawString)),
       merchantName := None, merchantNameEnc := SealText(pk, r.merchantName),
       note := None, noteEnc := SealText(pk, r.note))
  }

  /** The fields a list query projects: each only when it still needs sealing. */
  datatype InvestmentPlain = InvestmentPlain(name: Option<string>, symbol: Option<string>, securityName: Option<string>)
  datatype HoldingPlain = HoldingPlain(symbol: Option<string>, name: Option<string>)

  function ProjectInvestment(r: InvestmentRow): InvestmentPlain {
    InvestmentPlain(
      if r.nameEnc.None? then Some(r.name) else None,
      if NeedsSymbolSeal(r.symbol, r.symbolEnc) then r.symbol else None,
      if r.securityNameEnc.None? then r.securityName else None)
  }

  function ProjectHolding(r: HoldingRow): HoldingPlain {
    HoldingPlain(
      if HoldingNeedsSymbol(r) then Some(r.symbol) else None,
      if r.nameEnc.None? then Some(r.name) else None)
  }

  /** Seals the fields given; the others keep their state. */
  function UpdateInvestment(r: InvestmentRow, name: Option<Blob>, symbol: Option<Blob>, security: Option<Blob>): InvestmentRow {
    r.(name := if name.Some? then "" else r.name, nameEnc := OrElse(name, r.nameEnc),
       symbol := if symbol.Some? then None else r.symbol, symbolEnc := OrElse(symbol, r.symbolEnc),
       securityName := if security.Some? then None else r.securityName,
       securityNameEnc := OrElse(security, r.securityNameEnc))
  }

  function UpdateHolding(r: HoldingRow, symbol: Option<Blob>, name: Option<Blob>): HoldingRow {
    r.(symbol := if symbol.Some? then "" else r.symbol, symbolEnc := OrElse(symbol, r.symbolEnc),
       name := if name.Some? then "" else r.name, nameEnc := OrElse(name, r.nameEnc))
  }

  function SealInvestment(r: InvestmentRow, pk: Key): InvestmentRow {
    var p := ProjectInvestment(r);
    UpdateInvestment(r, SealText(pk, p.name), SealText(pk, p.symbol), SealText(pk, p.securityName))
  }

  function SealHolding(r: HoldingRow, pk: Key): HoldingRow {
    var p := ProjectHolding(r);
    UpdateHolding(r, SealText(pk, p.symbol), SealText(pk, p.name))
  }

  // ---- One write of the sweep ----

  datatype RowRef = Account(id: string) | Txn(id: string) | Investment(id: string) | Holding(rowId: Serial)

  predicate Listed(t: Tables, user: string, row: RowRef) {
    match row
    case Account(id) => id in t.accounts && t.accounts[id].owner == user && AccountListed(t.accounts[id])
    case Txn(id) => id in t.txns && t.txns[id].owner == user && TxnListed(t.txns[id])
    case Investment(id) => id in t.investments && t.investments[id].owner == user && InvestmentListed(t.investments[id])
    case Holding(id) => id in t.holdings && t.holdings[id].owner == user && HoldingListed(t.holdings[id])
  }

  function Write(t: Tables, pk: Key, row: RowRef): Tables {
    match row
    case Account(id) =>
      if id in t.accounts then t.(accounts := t.accounts[id := SealAccount(t.accounts[id], pk)]) else t
    case Txn(id) =>
      if id in t.txns then t.(txns := t.txns[id := SealTxn(t.txns[id], pk)]) else t
    case Investment(id) =>
      if id in t.investments then t.(investments := t.investments[id := SealInvestment(t.investments[id], pk)]) else t
    case Holding(id) =>
      if id in t.holdings then t.(holdings := t.holdings[id := SealHolding(t.holdings[id], pk)]) else t
  }

  /** A sweep, or as much of one as was done before it stopped: writes of rows listed when written. */
  ghost predicate IsSweep(t: Tables, user: string, pk: Key, rows: seq<RowRef>)
    decreases rows
  {
    rows == [] || (Listed(t, user, rows[0]) && IsSweep(Write(t, pk, rows[0]), user, pk, rows[1..]))
  }

  function Sweep(t: Tables, pk: Key, rows: seq<RowRef>): Tables
    decreases rows
  {
    if rows == [] then t else Sweep(Write(t, pk, rows[0]), pk, rows[1..])
  }

  // ---- What the user reads ----

  datatype AccountText = AccountText(name: string, customName: Option<string>)
  datatype TxnText = TxnText(rawString: string, merchantName: Option<string>, note: Option<string>)
  datatype InvestmentText = InvestmentText(name: string, symbol: Option<string>, securityName: Option<string>)
  datatype HoldingText = HoldingText(symbol: string, name: string)

  function RevealAccount(r: AccountRow, c: UserCrypto): AccountText {
    AccountText(OpenInto(r.name, r.nameEnc, c), OpenIntoOpt(r.customName, r.customNameEnc, c))
  }

  function RevealTxn(r: TxnRow, c: UserCrypto): TxnText {
    TxnText(OpenInto(r.rawString, r.rawStringEnc, c), OpenIntoOpt(r.merchantName, r.merchantNameEnc, c),
            OpenIntoOpt(r.note, r.noteEnc, c))
  }

  function RevealInvestment(r: InvestmentRow, c: UserCrypto): InvestmentText {
    InvestmentText(OpenInto(r.name, r.nameEnc, c), OpenIntoOpt(r.symbol, r.symbolEnc, c),
                   OpenIntoOpt(r.securityName, r.securityNameEnc, c))
  }

  function RevealHolding(r: HoldingRow, c: UserCrypto): HoldingText {
    HoldingText(OpenInto(r.symbol, r.symbolEnc, c), OpenInto(r.name, r.nameEnc, c))
  }

  // ---- Rows the sweep expects: accounts and transactions are all plain or all sealed ----

  predicate PlainAccount(r: AccountRow) {
    r.nameEnc.None? && r.customNameEnc.None?
  }

  predicate SealedAccount(r: AccountRow) {
    r.nameEnc.Some? && r.customName.None?
  }

  predicate PlainTxn(r: TxnRow) {
    r.rawStringEnc.None? && r.merchantNameEnc.None? && r.noteEnc.None?
  }

  predicate SealedTxn(r: TxnRow) {
    r.rawStringEnc.Some? && r.merchantName.None? && r.note.None?
  }

  ghost predicate Unmixed(t: Tables, user: string) {
    && (forall id :: id in t.accounts && t.accounts[id].owner == user ==>
          PlainAccount(t.accounts[id]) || SealedAccount(t.accounts[id]))
    && (forall id :: id in t.txns && t.txns[id].owner == user ==> PlainTxn(t.txns[id]) || SealedTxn(t.txns[id]))
  }

  /**
   * Why: a sealed column of a listed transaction is overwritten. Sealing keeps what the owner
   * reads if and only if each such column opens to the plaintext beside it.
   */
  lemma SealingTxnKeepsTextWhen(r: TxnRow, pk: Key)
    requires TxnListed(r)
    ensures var owner := Unlocked(pk, pk);
            RevealTxn(SealTxn(r, pk), owner) == RevealTxn(r, owner)
            <==> (r.merchantNameEnc.Some? ==> r.merchantName == Some(Open(owner, r.merchantNameEnc.value)))
                 && (r.noteEnc.Some? ==> r.note == Some(Open(owner, r.noteEnc.value)))
  {
  }

  lemma SealingAccountKeepsTextWhen(r: AccountRow, pk: Key)
    requires AccountListed(r)
    ensures var owner := Unlocked(pk, pk);
            RevealAccount(SealAccount(r, pk), owner) == RevealAccount(r, owner)
            <==> (r.customNameEnc.Some? ==> r.customName == Some(Open(owner, r.customNameEnc.value)))
  {
  }

  // ---- Progress: the set of fields still to seal ----

  datatype Field = Name | CustomName | RawString | Merchant | Note | Symbol | SecurityName

  predicate Unsealed(t: Tables, user: string, row: RowRef, f: Field) {
    match row
    case Account(id) =>
      && id in t.accounts && t.accounts[id].owner == user
      && var r := t.accounts[id];
         ((f == Name && r.nameEnc.None?) || (f == CustomName && r.customName.Some?))
    case Txn(id) =>
      && id in t.txns && t.txns[id].owner == user
      && var r := t.txns[id];
         ((f == RawString && r.rawStringEnc.None?) || (f == Merchant && r.merchantName.Some?)
          || (f == Note && r.note.Some?))
    case Investment(id) =>
      && id in t.investments && t.investments[id].owner == user
      && var r := t.investments[id];
         ((f == Name && r.nameEnc.None?) || (f == Symbol && NeedsSymbolSeal(r.symbol, r.symbolEnc))
          || (f == SecurityName && r.securityNameEnc.None? && r.securityName.Some?))
    case Holding(id) =>
      && id in t.holdings && t.holdings[id].owner == user
      && var r := t.holdings[id];
         (!IsCashRow(r) && ((f == Symbol && HoldingNeedsSymbol(r)) || (f == Name && r.nameEnc.None?)))
  }

  ghost function Rows(t: Tables): set<RowRef> {
    (set id | id in t.accounts :: Account(id)) + (set id | id in t.txns :: Txn(id))
    + (set id | id in t.investments :: Investment(id)) + (set id | id in t.holdings :: Holding(id))
  }

  ghost function UnsealedFields(t: Tables, user: string): set<(RowRef, Field)> {
    set row, f: Field | row in Rows(t) && Unsealed(t, user, row, f) :: (row, f)
  }

  /** Each write of a listed row seals at least one field and unseals none. */
  lemma WriteSealsFields(t: Tables, user: string, pk: Key, row: RowRef)
    requires Listed(t, user, row)
    ensures UnsealedFields(Write(t, pk, row), user) < UnsealedFields(t, user)
    ensures |UnsealedFields(Write(t, pk, row), user)| < |UnsealedFields(t, user)|
  {
    var t' := Write(t, pk, row);
    assert Rows(t') == Rows(t);
    forall r, f | Unsealed(t', user, r, f) ensures Unsealed(t, user, r, f) && r != row {
    }
    var some: Field :| Unsealed(t, user, row, some);
    assert (row, some) in UnsealedFields(t, user) && (row, some) !in UnsealedFields(t', user);
    SmallerSet(UnsealedFields(t', user), UnsealedFields(t, user));
  }

  lemma {:induction false} SmallerSet<T>(a: set<T>, b: set<T>)
    requires a < b
    ensures |a| < |b|
  {
    assert b == a + (b - a);
    assert |b| == |a| + |b - a|;
    var x :| x in b - a;
    assert |b - a| > 0;
  }

  // ---- What every write keeps ----

  /** Same rows, owners and facts; every row reads the same under `c`. */
  ghost predicate SameTexts(t: Tables, t': Tables, c: UserCrypto) {
    && t'.accounts.Keys == t.accounts.Keys && t'.txns.Keys == t.txns.Keys
    && t'.investments.Keys == t.investments.Keys && t'.holdings.Keys == t.holdings.Keys
    && (forall id :: id in t.accounts ==> SameAccount(t.accounts[id], t'.accounts[id], c))
    && (forall id :: id in t.txns ==> SameTxn(t.txns[id], t'.txns[id], c))
    && (forall id :: id in t.investments ==> SameInvestment(t.investments[id], t'.investments[id], c))
    && (forall id :: id in t.holdings ==> SameHolding(t.holdings[id], t'.holdings[id], c))
  }

  predicate SameAccount(r: AccountRow, r': AccountRow, c: UserCrypto) {
    r'.owner == r.owner && RevealAccount(r', c) == RevealAccount(r, c)
  }

  predicate SameTxn(r: TxnRow, r': TxnRow, c: UserCrypto) {
    r'.owner == r.owner && r'.facts == r.facts && RevealTxn(r', c) == RevealTxn(r, c)
  }

  predicate SameInvestment(r: InvestmentRow, r': InvestmentRow, c: UserCrypto) {
    r'.owner == r.owner && r'.facts == r.facts && RevealInvestment(r', c) == RevealInvestment(r, c)
  }

  predicate SameHolding(r: HoldingRow, r': HoldingRow, c: UserCrypto) {
    r'.owner == r.owner && r'.value == r.value && r'.quantity == r.quantity && RevealHolding(r', c) == RevealHolding(r, c)
  }

  /** Other users' rows are untouched. */
  ghost predicate OthersUntouched(t: Tables, t': Tables, user: string) {
    && (forall id :: id in t.accounts && t.accounts[id].owner != user ==> id in t'.accounts && t'.accounts[id] == t.accounts[id])
    && (forall id :: id in t.txns && t.txns[id].owner != user ==> id in t'.txns && t'.txns[id] == t.txns[id])
    && (forall id :: id in t.investments && t.investments[id].owner != user ==>
          id in t'.investments && t'.investments[id] == t.investments[id])
    && (forall id :: id in t.holdings && t.holdings[id].owner != user ==>
          id in t'.holdings && t'.holdings[id] == t.holdings[id])
  }

  lemma SealedRowsReadTheSame(pk: Key)
    ensures forall r: AccountRow :: PlainAccount(r) ==> SameAccount(r, SealAccount(r, pk), Unlocked(pk, pk))
    ensures forall r: TxnRow :: PlainTxn(r) ==> SameTxn(r, SealTxn(r, pk), Unlocked(pk, pk))
    ensures forall r: InvestmentRow :: SameInvestment(r, SealInvestment(r, pk), Unlocked(pk, pk))
    ensures forall r: HoldingRow :: SameHolding(r, SealHolding(r, pk), Unlocked(pk, pk))
  {
  }

  lemma WriteKeepsReading(t: Tables, user: string, pk: Key, row: RowRef)
    requires Unmixed(t, user) && Listed(t, user, row)
    ensures SameTexts(t, Write(t, pk, row), Unlocked(pk, pk))
  {
    SealedRowsReadTheSame(pk);
    hide SealAccount, SealTxn, SealInvestment, SealHolding, InvestmentListed, HoldingListed;
    hide RevealInvestment, RevealHolding, RevealAccount, RevealTxn;
  }

  lemma WriteKeepsOthers(t: Tables, user: string, pk: Key, row: RowRef)
    requires Listed(t, user, row)
    ensures OthersUntouched(t, Write(t, pk, row), user)
  {
    hide SealAccount, SealTxn, SealInvestment, SealHolding, AccountListed, TxnListed, InvestmentListed, HoldingListed;
  }

  lemma WriteKeepsUnmixed(t: Tables, user: string, pk: Key, row: RowRef)
    requires Unmixed(t, user)
    ensures Unmixed(Write(t, pk, row), user)
  {
    hide SealInvestment, SealHolding;
  }

  lemma WriteKeepsTexts(t: Tables, user: string, pk: Key, row: RowRef)
    requires Unmixed(t, user) && Listed(t, user, row)
    ensures SameTexts(t, Write(t, pk, row), Unlocked(pk, pk))
    ensures OthersUntouched(t, Write(t, pk, row), user)
    ensures Unmixed(Write(t, pk, row), user)
  {
    hide SameTexts, OthersUntouched, Unmixed, Write, Listed;
    WriteKeepsReading(t, user, pk, row);
    WriteKeepsOthers(t, user, pk, row);
    WriteKeepsUnmixed(t, user, pk, row);
  }

  lemma SameTextsCompose(a: Tables, b: Tables, d: Tables, c: UserCrypto)
    requires SameTexts(a, b, c) && SameTexts(b, d, c)
    ensures SameTexts(a, d, c)
  {
    hide SameAccount, SameTxn, SameInvestment, SameHolding;
    forall id | id in a.accounts ensures SameAccount(a.accounts[id], d.accounts[id], c) {
      SameAccountComposes(a.accounts[id], b.accounts[id], d.accounts[id], c);
    }
    forall id | id in a.txns ensures SameTxn(a.txns[id], d.txns[id], c) {
      SameTxnComposes(a.txns[id], b.txns[id], d.txns[id], c);
    }
    forall id | id in a.investments ensures SameInvestment(a.investments[id], d.investments[id], c) {
      SameInvestmentComposes(a.investments[id], b.investments[id], d.investments[id], c);
    }
    forall id | id in a.holdings ensures SameHolding(a.holdings[id], d.holdings[id], c) {
      SameHoldingComposes(a.holdings[id], b.holdings[id], d.holdings[id], c);
    }
  }

  lemma SameAccountComposes(p: AccountRow, q: AccountRow, r: AccountRow, c: UserCrypto)
    ensures SameAccount(p, q, c) && SameAccount(q, r, c) ==> SameAccount(p, r, c)
  {
    hide RevealAccount;
  }

  lemma SameTxnComposes(p: TxnRow, q: TxnRow, r: TxnRow, c: UserCrypto)
    ensures SameTxn(p, q, c) && SameTxn(q, r, c) ==> SameTxn(p, r, c)
  {
    hide RevealTxn;
  }

  lemma SameInvestmentComposes(p: InvestmentRow, q: InvestmentRow, r: InvestmentRow, c: UserCrypto)
    ensures SameInvestment(p, q, c) && SameInvestment(q, r, c) ==> SameInvestment(p, r, c)
  {
    hide RevealInvestment;
  }

  lemma SameHoldingComposes(p: HoldingRow, q: HoldingRow, r: HoldingRow, c: UserCrypto)
    ensures SameHolding(p, q, c) && SameHolding(q, r, c) ==> SameHolding(p, r, c)
  {
    hide RevealHolding;
  }

  lemma OthersCompose(a: Tables, b: Tables, d: Tables, user: string, c: UserCrypto)
    requires OthersUntouched(a, b, user) && OthersUntouched(b, d, user) && SameTexts(a, b, c)
    ensures OthersUntouched(a, d, user)
  {
  }

  /** A sweep may stop after any row: what it did so far changes nothing the owner or anyone else reads. */
  lemma {:induction false} SweepKeepsTexts(t: Tables, user: string, pk: Key, rows: seq<RowRef>)
    requires Unmixed(t, user) && IsSweep(t, user, pk, rows)
    ensures SameTexts(t, Sweep(t, pk, rows), Unlocked(pk, pk))
    ensures OthersUntouched(t, Sweep(t, pk, rows), user)
    ensures Unmixed(Sweep(t, pk, rows), user)
    ensures |UnsealedFields(Sweep(t, pk, rows), user)| + |rows| <= |UnsealedFields(t, user)|
    decreases rows
  {
    hide SameTexts, OthersUntouched, Unmixed, Write, Listed, UnsealedFields;
    if rows == [] {
      NoWriteKeepsTexts(t, user, pk);
    } else {
      var t1 := Write(t, pk, rows[0]);
      WriteKeepsTexts(t, user, pk, rows[0]);
      WriteSealsFields(t, user, pk, rows[0]);
      SweepKeepsTexts(t1, user, pk, rows[1..]);
      SameTextsCompose(t, t1, Sweep(t1, pk, rows[1..]), Unlocked(pk, pk));
      OthersCompose(t, t1, Sweep(t1, pk, rows[1..]), user, Unlocked(pk, pk));
    }
  }

  lemma NoWriteKeepsTexts(t: Tables, user: string, pk: Key)
    ensures SameTexts(t, t, Unlocked(pk, pk)) && OthersUntouched(t, t, user)
  {
  }

  ghost predicate NothingListed(t: Tables, user: string) {
    forall row :: !Listed(t, user, row)
  }

  lemma ListedRowHasUnsealedField(t: Tables, user: string, row: RowRef)
    requires Listed(t, user, row)
    ensures UnsealedFields(t, user) != {}
  {
    var f: Field :| Unsealed(t, user, row, f);
    assert row in Rows(t);
    assert (row, f) in UnsealedFields(t, user);
  }

  /** No text of an account or transaction that the list queries pass over is left in plaintext. */
  ghost predicate UnlistedRowsAreSealed(t: Tables, user: string) {
    && (forall id :: id in t.accounts && t.accounts[id].owner == user && !AccountListed(t.accounts[id]) ==>
          t.accounts[id].customName.None?)
    && (forall id :: id in t.txns && t.txns[id].owner == user && !TxnListed(t.txns[id]) ==>
          t.txns[id].merchantName.None? && t.txns[id].note.None?)
  }

  lemma UnsealedRowShows(t: Tables, user: string, row: RowRef, f: Field)
    requires Unsealed(t, user, row, f)
    ensures (row, f) in UnsealedFields(t, user)
  {
    assert row in Rows(t);
  }

  /**
   * Every field is sealed exactly if the list queries come back empty and pass over no plaintext;
   * where each row is all plain or all sealed they pass over none.
   */
  lemma NothingListedWhenAllSealed(t: Tables, user: string)
    ensures UnsealedFields(t, user) == {} <==> NothingListed(t, user) && UnlistedRowsAreSealed(t, user)
    ensures Unmixed(t, user) ==> (NothingListed(t, user) <==> UnsealedFields(t, user) == {})
  {
    forall row | Listed(t, user, row) ensures UnsealedFields(t, user) != {} {
      ListedRowHasUnsealedField(t, user, row);
    }
    if UnsealedFields(t, user) == {} {
      forall row, f: Field ensures !Unsealed(t, user, row, f) {
        if Unsealed(t, user, row, f) {
          UnsealedRowShows(t, user, row, f);
        }
      }
      SealedRowsAreUnlisted(t, user);
    } else {
      var row, f :| (row, f) in UnsealedFields(t, user);
      assert UnlistedRowsAreSealed(t, user) ==> Listed(t, user, row);
      assert Unmixed(t, user) ==> Listed(t, user, row);
    }
  }

  lemma SealedRowsAreUnlisted(t: Tables, user: string)
    requires forall row, f: Field :: !Unsealed(t, user, row, f)
    ensures UnlistedRowsAreSealed(t, user)
  {
    forall id | id in t.accounts ensures !Unsealed(t, user, Account(id), CustomName) {
    }
    forall id | id in t.txns ensures !Unsealed(t, user, Txn(id), Merchant) && !Unsealed(t, user, Txn(id), Note) {
    }
  }

  lemma {:induction false} SweepSnoc(t: Tables, user: string, pk: Key, rows: seq<RowRef>, row: RowRef)
    ensures Sweep(t, pk, rows + [row]) == Write(Sweep(t, pk, rows), pk, row)
    ensures IsSweep(t, user, pk, rows) && Listed(Sweep(t, pk, rows), user, row) ==> IsSweep(t, user, pk, rows + [row])
    decreases rows
  {
    hide Write, Listed;
    if rows == [] {
      assert [row][1..] == [];
      assert rows + [row] == [row];
    } else {
      assert (rows + [row])[1..] == rows[1..] + [row];
      SweepSnoc(Write(t, pk, rows[0]), user, pk, rows[1..], row);
    }
  }

  lemma {:induction false} SweepsChain(t: Tables, user: string, pk: Key, first: seq<RowRef>, more: seq<RowRef>)
    ensures Sweep(t, pk, first + more) == Sweep(Sweep(t, pk, first), pk, more)
    ensures IsSweep(t, user, pk, first) && IsSweep(Sweep(t, pk, first), user, pk, more)
        ==> IsSweep(t, user, pk, first + more)
    decreases first
  {
    hide Write, Listed;
    if first == [] {
      assert first + more == more;
    } else {
      assert (first + more)[1..] == first[1..] + more;
      SweepsChain(Write(t, pk, first[0]), user, pk, first[1..], more);
    }
  }

  /** A sweep that stopped and one that ran after it: all sealed, and everything still reads the same. */
  lemma InterruptedSweepIsCompletedByTheNext(t: Tables, user: string, pk: Key, first: seq<RowRef>, more: seq<RowRef>)
    requires Unmixed(t, user) && IsSweep(t, user, pk, first)
    requires IsSweep(Sweep(t, pk, first), user, pk, more)
    requires NothingListed(Sweep(Sweep(t, pk, first), pk, more), user)
    ensures var done := Sweep(Sweep(t, pk, first), pk, more);
            && UnsealedFields(done, user) == {}
            && SameTexts(t, done, Unlocked(pk, pk)) && OthersUntouched(t, done, user)
            && |first| + |more| <= |UnsealedFields(t, user)|
  {
    hide IsSweep, Sweep, UnsealedFields, SameTexts, OthersUntouched, Unmixed, NothingListed;
    SweepsChain(t, user, pk, first, more);
    SweepKeepsTexts(t, user, pk, first + more);
    NothingListedWhenAllSealed(Sweep(t, pk, first + more), user);
  }

  /** The tables, and the sweep over them. `budget` is how many rows it writes before sealing fails. */
  class PrivacyDatabase {
    var accounts: map<string, AccountRow>
    var txns: map<string, TxnRow>
    var investments: map<string, InvestmentRow>
    var holdings: map<Serial, HoldingRow>

    function State(): Tables
      reads this
    {
      Tables(accounts, txns, investments, holdings)
    }

    method SealAccounts(user: string, pk: Key, budget: nat) returns (sealed: nat, ok: bool, ghost rows: seq<RowRef>)
      modifies this`accounts
      ensures IsSweep(old(State()), user, pk, rows) && State() == Sweep(old(State()), pk, rows)
      ensures sealed == |rows| <= budget && forall i :: 0 <= i < |rows| ==> rows[i].Account?
      ensures ok ==> forall id :: id in accounts && accounts[id].owner == user ==> !AccountListed(accounts[id])
      ensures !ok ==> sealed == budget
    {
      hide Sweep, IsSweep, Write, Listed, SealText, AccountListed;
      sealed, rows := 0, [];
      EmptySweep(State(), user, pk);
      var pending := map id | id in accounts && accounts[id].owner == user && AccountListed(accounts[id])
                        :: (accounts[id].name, accounts[id].customName);
      while pending.Keys != {}
        invariant IsSweep(old(State()), user, pk, rows) && State() == Sweep(old(State()), pk, rows)
        invariant sealed == |rows| <= budget && forall i :: 0 <= i < |rows| ==> rows[i].Account?
        invariant forall id :: id in pending <==> id in accounts && accounts[id].owner == user && AccountListed(accounts[id])
        invariant forall id :: id in pending ==> pending[id] == (accounts[id].name, accounts[id].customName)
        decreases |pending|
      {
        if sealed == budget {
          return sealed, false, rows;
        }
        var id :| id in pending.Keys;
        SweepSnoc(old(State()), user, pk, rows, Account(id));
        WritesAccount(State(), user, pk, id);
        SealedAccountIsDone(accounts[id], pk);
        var (name, customName) := pending[id];
        accounts := accounts[id := accounts[id].(name := "", nameEnc := Some(Sealed(pk, name)),
                                                 customName := None, customNameEnc := SealText(pk, customName))];
        sealed, rows, pending := sealed + 1, rows + [Account(id)], pending - {id};
      }
      ok := true;
    }

    method SealTxns(user: string, pk: Key, budget: nat) returns (sealed: nat, ok: bool, ghost rows: seq<RowRef>)
      modifies this`txns
      ensures IsSweep(old(State()), user, pk, rows) && State() == Sweep(old(State()), pk, rows)
      ensures sealed == |rows| <= budget && forall i :: 0 <= i < |rows| ==> rows[i].Txn?
      ensures ok ==> forall id :: id in txns && txns[id].owner == user ==> !TxnListed(txns[id])
      ensures !ok ==> sealed == budget
    {
      hide Sweep, IsSweep, Write, Listed, SealText, TxnListed;
      sealed, rows := 0, [];
      EmptySweep(State(), user, pk);
      var pending := map id | id in txns && txns[id].owner == user && TxnListed(txns[id])
                        :: (txns[id].rawString, txns[id].merchantName, txns[id].note);
      while pending.Keys != {}
        invariant IsSweep(old(State()), user, pk, rows) && State() == Sweep(old(State()), pk, rows)
        invariant sealed == |rows| <= budget && forall i :: 0 <= i < |rows| ==> rows[i].Txn?
        invariant forall id :: id in pending <==> id in txns && txns[id].owner == user && TxnListed(txns[id])
        invariant forall id :: id in pending ==> pending[id] == (txns[id].rawString, txns[id].merchantName, txns[id].note)
        decreases |pending|
      {
        if sealed == budget {
          return sealed, false, rows;
        }
        var id :| id in pending.Keys;
        SweepSnoc(old(State()), user, pk, rows, Txn(id));
        WritesTxn(State(), user, pk, id);
        SealedTxnIsDone(txns[id], pk);
        var (raw, merchant, note) := pending[id];
        txns := txns[id := txns[id].(rawString := "", rawStringEnc := Some(Sealed(pk, raw)),
                                     merchantName := None, merchantNameEnc := SealText(pk, merchant),
                                     note := None, noteEnc := SealText(pk, note))];
        sealed, rows, pending := sealed + 1, rows + [Txn(id)], pending - {id};
      }
      ok := true;
    }

    method SealInvestments(user: string, pk: Key, budget: nat) returns (sealed: nat, ok: bool, ghost rows: seq<RowRef>)
      modifies this`investments
      ensures IsSweep(old(State()), user, pk, rows) && State() == Sweep(old(State()), pk, rows)
      ensures sealed == |rows| <= budget && forall i :: 0 <= i < |rows| ==> rows[i].Investment?
      ensures ok ==> forall id :: id in investments && investments[id].owner == user ==> !InvestmentListed(investments[id])
      ensures !ok ==> sealed == budget
    {
      hide Sweep, IsSweep, Write, Listed, UpdateInvestment, ProjectInvestment, InvestmentListed;
      sealed, rows := 0, [];
      EmptySweep(State(), user, pk);
      var pending := map id | id in investments && investments[id].owner == user && InvestmentListed(investments[id])
                        :: ProjectInvestment(investments[id]);
      while pending.Keys != {}
        invariant IsSweep(old(State()), user, pk, rows) && State() == Sweep(old(State()), pk, rows)
        invariant sealed == |rows| <= budget && forall i :: 0 <= i < |rows| ==> rows[i].Investment?
        invariant forall id :: id in pending <==> id in investments && investments[id].owner == user && InvestmentListed(investments[id])
        invariant forall id :: id in pending ==> pending[id] == ProjectInvestment(investments[id])
        decreases |pending|
      {
        if sealed == budget {
          return sealed, false, rows;
        }
        var id :| id in pending.Keys;
        SweepSnoc(old(State()), user, pk, rows, Investment(id));
        WritesInvestment(State(), user, pk, id);
        SealedInvestmentIsDone(investments[id], pk);
        var p := pending[id];
        investments := investments[id := UpdateInvestment(investments[id], SealText(pk, p.name),
                                                          SealText(pk, p.symbol), SealText(pk, p.securityName))];
        sealed, rows, pending := sealed + 1, rows + [Investment(id)], pending - {id};
      }
      ok := true;
    }

    method SealHoldings(user: string, pk: Key, budget: nat) returns (sealed: nat, ok: bool, ghost rows: seq<RowRef>)
      modifies this`holdings
      ensures IsSweep(old(State()), user, pk, rows) && State() == Sweep(old(State()), pk, rows)
      ensures sealed == |rows| <= budget && forall i :: 0 <= i < |rows| ==> rows[i].Holding?
      ensures ok ==> forall id :: id in holdings && holdings[id].owner == user ==> !HoldingListed(holdings[id])
      ensures !ok ==> sealed == budget
    {
      hide Sweep, IsSweep, Write, Listed, UpdateHolding, ProjectHolding, HoldingListed;
      sealed, rows := 0, [];
      EmptySweep(State(), user, pk);
      var pending := map id | id in holdings && holdings[id].owner == user && HoldingListed(holdings[id])
                        :: ProjectHolding(holdings[id]);
      while pending.Keys != {}
        invariant IsSweep(old(State()), user, pk, rows) && State() == Sweep(old(State()), pk, rows)
        invariant sealed == |rows| <= budget && forall i :: 0 <= i < |rows| ==> rows[i].Holding?
        invariant forall id :: id in pending <==> id in holdings && holdings[id].owner == user && HoldingListed(holdings[id])
        invariant forall id :: id in pending ==> pending[id] == ProjectHolding(holdings[id])
        decreases |pending|
      {
        if sealed == budget {
          return sealed, false, rows;
        }
        var id :| id in pending.Keys;
        SweepSnoc(old(State()), user, pk, rows, Holding(id));
        WritesHolding(State(), user, pk, id);
        SealedHoldingIsDone(holdings[id], pk);
        var p := pending[id];
        holdings := holdings[id := UpdateHolding(holdings[id], SealText(pk, p.symbol), SealText(pk, p.name))];
        sealed, rows, pending := sealed + 1, rows + [Holding(id)], pending - {id};
      }
      ok := true;
    }

    /** `None` is the error of a sweep that stopped; otherwise the rows sealed of each kind. */
    method SealUnsealedRows(user: string, pk: Key, budget: nat)
      returns (counts: Option<(nat, nat, nat)>, ghost rows: seq<RowRef>)
      modifies this
      ensures IsSweep(old(State()), user, pk, rows) && State() == Sweep(old(State()), pk, rows)
      ensures counts.None? ==> |rows| == budget
      ensures counts.Some? ==> NothingListed(State(), user)
      ensures counts.Some? ==>
                var (ofAccounts, ofTxns, ofHoldings) := counts.value;
                && |rows| == ofAccounts + ofTxns + ofHoldings
                && (forall i :: 0 <= i < ofAccounts ==> rows[i].Account?)
                && (forall i :: ofAccounts <= i < ofAccounts + ofTxns ==> rows[i].Txn? || rows[i].Investment?)
                && (forall i :: ofAccounts + ofTxns <= i < |rows| ==> rows[i].Holding?)
      ensures counts.Some? ==>
                && (forall id :: id in accounts && accounts[id].owner == user ==> accounts[id].nameEnc.Some?)
                && (forall id :: id in txns && txns[id].owner == user ==> txns[id].rawStringEnc.Some?)
                && (forall id :: id in investments && investments[id].owner == user ==>
                      var r := investments[id];
                      && r.nameEnc.Some? && (r.securityName.None? || r.securityNameEnc.Some?)
                      && (r.symbol.None? || r.symbolEnc.Some? || r.symbol.value in ["CASH", "DEBT", "N/A", ""]))
                && (forall id :: id in holdings && holdings[id].owner == user ==>
                      var r := holdings[id];
                      r.symbol in ["CASH", "DEBT"]
                      || (r.nameEnc.Some? && (r.symbolEnc.Some? || r.symbol in ["N/A", ""])))
    {
      hide Sweep, IsSweep, Listed;
      ghost var t := State();
      var sealedAccounts, ok, r1 := SealAccounts(user, pk, budget);
      if !ok {
        return None, r1;
      }
      var sealedTxns, ok2, r2 := SealTxns(user, pk, budget - sealedAccounts);
      SweepsChain(t, user, pk, r1, r2);
      if !ok2 {
        return None, r1 + r2;
      }
      var sealedInvestments, ok3, r3 := SealInvestments(user, pk, budget - sealedAccounts - sealedTxns);
      SweepsChain(t, user, pk, r1 + r2, r3);
      if !ok3 {
        return None, r1 + r2 + r3;
      }
      var sealedHoldings, ok4, r4 := SealHoldings(user, pk, budget - sealedAccounts - sealedTxns - sealedInvestments);
      SweepsChain(t, user, pk, r1 + r2 + r3, r4);
      rows := r1 + r2 + r3 + r4;
      if !ok4 {
        return None, rows;
      }
      NothingLeft(State(), user);
      counts := Some((sealedAccounts, sealedTxns + sealedInvestments, sealedHoldings));
    }
  }

  lemma WritesAccount(t: Tables, user: string, pk: Key, id: string)
    ensures Listed(t, user, Account(id)) <==> id in t.accounts && t.accounts[id].owner == user && AccountListed(t.accounts[id])
    ensures id in t.accounts ==>
              Write(t, pk, Account(id)) == t.(accounts := t.accounts[id := SealAccount(t.accounts[id], pk)])
  {
    hide AccountListed, SealAccount;
  }

  lemma WritesTxn(t: Tables, user: string, pk: Key, id: string)
    ensures Listed(t, user, Txn(id)) <==> id in t.txns && t.txns[id].owner == user && TxnListed(t.txns[id])
    ensures id in t.txns ==>
              Write(t, pk, Txn(id)) == t.(txns := t.txns[id := SealTxn(t.txns[id], pk)])
  {
    hide TxnListed, SealTxn;
  }

  lemma WritesInvestment(t: Tables, user: string, pk: Key, id: string)
    ensures Listed(t, user, Investment(id)) <==> id in t.investments && t.investments[id].owner == user && InvestmentListed(t.investments[id])
    ensures id in t.investments ==>
              Write(t, pk, Investment(id)) == t.(investments := t.investments[id := SealInvestment(t.investments[id], pk)])
  {
    hide InvestmentListed, SealInvestment;
  }

  lemma WritesHolding(t: Tables, user: string, pk: Key, id: Serial)
    ensures Listed(t, user, Holding(id)) <==> id in t.holdings && t.holdings[id].owner == user && HoldingListed(t.holdings[id])
    ensures id in t.holdings ==>
              Write(t, pk, Holding(id)) == t.(holdings := t.holdings[id := SealHolding(t.holdings[id], pk)])
  {
    hide HoldingListed, SealHolding;
  }

  lemma SealedAccountIsDone(r: AccountRow, pk: Key)
    ensures !AccountListed(SealAccount(r, pk)) && SealAccount(r, pk).owner == r.owner
  {
  }

  lemma SealedTxnIsDone(r: TxnRow, pk: Key)
    ensures !TxnListed(SealTxn(r, pk)) && SealTxn(r, pk).owner == r.owner
  {
  }

  lemma SealedInvestmentIsDone(r: InvestmentRow, pk: Key)
    ensures !InvestmentListed(SealInvestment(r, pk)) && SealInvestment(r, pk).owner == r.owner
  {
  }

  lemma SealedHoldingIsDone(r: HoldingRow, pk: Key)
    requires HoldingListed(r)
    ensures !HoldingListed(SealHolding(r, pk)) && SealHolding(r, pk).owner == r.owner
  {
  }

  lemma EmptySweep(t: Tables, user: string, pk: Key)
    ensures IsSweep(t, user, pk, []) && Sweep(t, pk, []) == t
  {
  }

  lemma NothingLeft(t: Tables, user: string)
    requires forall id :: id in t.accounts && t.accounts[id].owner == user ==> !AccountListed(t.accounts[id])
    requires forall id :: id in t.txns && t.txns[id].owner == user ==> !TxnListed(t.txns[id])
    requires forall id :: id in t.investments && t.investments[id].owner == user ==> !InvestmentListed(t.investments[id])
    requires forall id :: id in t.holdings && t.holdings[id].owner == user ==> !HoldingListed(t.holdings[id])
    ensures NothingListed(t, user)
  {
  }
}
