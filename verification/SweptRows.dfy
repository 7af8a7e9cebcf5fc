/** What a sweep does to each row, and which rows it may be let loose on. */
module SweptRows {
  import opened Seqs
  import opened Sealing
  import opened SealSweep

  // ---- A row is sealed once or not at all ----

  lemma {:induction false} SealedAccountStays(t: Tables, user: string, pk: Key, rows: seq<RowRef>, id: string)
    requires IsSweep(t, user, pk, rows) && id in t.accounts && !AccountListed(t.accounts[id])
    ensures Account(id) !in rows
    ensures id in Sweep(t, pk, rows).accounts && Sweep(t, pk, rows).accounts[id] == t.accounts[id]
    decreases rows
  {
    if rows == [] {
    } else {
      SealedAccountStays(Write(t, pk, rows[0]), user, pk, rows[1..], id);
      assert rows == [rows[0]] + rows[1..];
    }
  }

  lemma {:induction false} SealedTxnStays(t: Tables, user: string, pk: Key, rows: seq<RowRef>, id: string)
    requires IsSweep(t, user, pk, rows) && id in t.txns && !TxnListed(t.txns[id])
    ensures Txn(id) !in rows
    ensures id in Sweep(t, pk, rows).txns && Sweep(t, pk, rows).txns[id] == t.txns[id]
    decreases rows
  {
    if rows == [] {
    } else {
      SealedTxnStays(Write(t, pk, rows[0]), user, pk, rows[1..], id);
      assert rows == [rows[0]] + rows[1..];
    }
  }

  /** An account is sealed as it was found if the sweep got to it, and left alone otherwise. */
  lemma {:induction false} SweptAccount(t: Tables, user: string, pk: Key, rows: seq<RowRef>, id: string)
    requires IsSweep(t, user, pk, rows) && id in t.accounts
    ensures id in Sweep(t, pk, rows).accounts
    ensures Sweep(t, pk, rows).accounts[id] == if Account(id) in rows then SealAccount(t.accounts[id], pk) else t.accounts[id]
    ensures Account(id) in rows ==> t.accounts[id].owner == user && AccountListed(t.accounts[id])
    decreases rows
  {
    hide SealAccount;
    if rows == [] {
    } else {
      var t1 := Write(t, pk, rows[0]);
      assert rows == [rows[0]] + rows[1..];
      if rows[0] == Account(id) {
        SealedAccountIsDone(t.accounts[id], pk);
        SealedAccountStays(t1, user, pk, rows[1..], id);
      } else {
        SweptAccount(t1, user, pk, rows[1..], id);
      }
    }
  }

  lemma {:induction false} SweptTxn(t: Tables, user: string, pk: Key, rows: seq<RowRef>, id: string)
    requires IsSweep(t, user, pk, rows) && id in t.txns
    ensures id in Sweep(t, pk, rows).txns
    ensures Sweep(t, pk, rows).txns[id] == if Txn(id) in rows then SealTxn(t.txns[id], pk) else t.txns[id]
    ensures Txn(id) in rows ==> t.txns[id].owner == user && TxnListed(t.txns[id])
    decreases rows
  {
    hide SealTxn;
    if rows == [] {
    } else {
      var t1 := Write(t, pk, rows[0]);
      assert rows == [rows[0]] + rows[1..];
      if rows[0] == Txn(id) {
        SealedTxnIsDone(t.txns[id], pk);
        SealedTxnStays(t1, user, pk, rows[1..], id);
      } else {
        SweptTxn(t1, user, pk, rows[1..], id);
      }
    }
  }

  // ---- Investments and holdings are safe in any mix ----

  ghost predicate SameOthers(t: Tables, t': Tables, c: UserCrypto) {
    && t'.accounts.Keys == t.accounts.Keys && t'.txns.Keys == t.txns.Keys
    && t'.investments.Keys == t.investments.Keys && t'.holdings.Keys == t.holdings.Keys
    && (forall id :: id in t.investments ==> SameInvestment(t.investments[id], t'.investments[id], c))
    && (forall id :: id in t.holdings ==> SameHolding(t.holdings[id], t'.holdings[id], c))
  }

  lemma WriteKeepsOtherTexts(t: Tables, pk: Key, row: RowRef)
    ensures SameOthers(t, Write(t, pk, row), Unlocked(pk, pk))
  {
    SealedRowsReadTheSame(pk);
    hide SealAccount, SealTxn, SealInvestment, SealHolding, RevealInvestment, RevealHolding;
  }

  lemma SameOthersCompose(a: Tables, b: Tables, d: Tables, c: UserCrypto)
    requires SameOthers(a, b, c) && SameOthers(b, d, c)
    ensures SameOthers(a, d, c)
  {
    hide RevealInvestment, RevealHolding;
  }

  lemma {:induction false} SweepKeepsOtherTexts(t: Tables, pk: Key, rows: seq<RowRef>)
    ensures SameOthers(t, Sweep(t, pk, rows), Unlocked(pk, pk))
    decreases rows
  {
    if rows == [] {
    } else {
      var t1 := Write(t, pk, rows[0]);
      WriteKeepsOtherTexts(t, pk, rows[0]);
      SweepKeepsOtherTexts(t1, pk, rows[1..]);
      hide SameOthers, Write, Sweep;
      SameOthersCompose(t, t1, Sweep(t1, pk, rows[1..]), Unlocked(pk, pk));
      assert Sweep(t, pk, rows) == Sweep(t1, pk, rows[1..]);
    }
  }

  // ---- When a sweep keeps every text ----

  /** Each column is plain or sealed, never both: what storing a field leaves behind. */
  ghost predicate OneForm(t: Tables, user: string) {
    && (forall id :: id in t.accounts && t.accounts[id].owner == user ==> AccountInOneForm(t.accounts[id]))
    && (forall id :: id in t.txns && t.txns[id].owner == user ==> TxnInOneForm(t.txns[id]))
  }

  predicate AccountInOneForm(r: AccountRow) {
    r.customNameEnc.Some? ==> r.customName.None?
  }

  predicate TxnInOneForm(r: TxnRow) {
    (r.merchantNameEnc.Some? ==> r.merchantName.None?) && (r.noteEnc.Some? ==> r.note.None?)
  }

  lemma SealedAccountReadsTheSameWhen(r: AccountRow, pk: Key)
    requires AccountListed(r) && AccountInOneForm(r)
    ensures SameAccount(r, SealAccount(r, pk), Unlocked(pk, pk)) <==> PlainAccount(r)
  {
    SealingAccountKeepsTextWhen(r, pk);
  }

  lemma SealedTxnReadsTheSameWhen(r: TxnRow, pk: Key)
    requires TxnListed(r) && TxnInOneForm(r)
    ensures SameTxn(r, SealTxn(r, pk), Unlocked(pk, pk)) <==> PlainTxn(r)
  {
    SealingTxnKeepsTextWhen(r, pk);
  }

  ghost predicate WrittenRowsArePlain(t: Tables, rows: seq<RowRef>) {
    && (forall id :: id in t.accounts && Account(id) in rows ==> PlainAccount(t.accounts[id]))
    && (forall id :: id in t.txns && Txn(id) in rows ==> PlainTxn(t.txns[id]))
  }

  /** A sweep, wherever it stopped, keeps all texts exactly if the account and transaction rows it wrote were plain. */
  lemma SweepKeepsTextsExactlyWhen(t: Tables, user: string, pk: Key, rows: seq<RowRef>)
    requires IsSweep(t, user, pk, rows) && OneForm(t, user)
    ensures SameTexts(t, Sweep(t, pk, rows), Unlocked(pk, pk)) <==> WrittenRowsArePlain(t, rows)
  {
    hide Sweep, IsSweep, SealAccount, SealTxn, PlainAccount, PlainTxn, SameAccount, SameTxn;
    var t', c := Sweep(t, pk, rows), Unlocked(pk, pk);
    SweepKeepsOtherTexts(t, pk, rows);
    forall id | id in t.accounts
      ensures SameAccount(t.accounts[id], t'.accounts[id], c) <==> (Account(id) in rows ==> PlainAccount(t.accounts[id]))
    {
      SweptAccount(t, user, pk, rows, id);
      if Account(id) in rows {
        SealedAccountReadsTheSameWhen(t.accounts[id], pk);
      } else {
        AccountIsSame(t.accounts[id], c);
      }
    }
    forall id | id in t.txns
      ensures SameTxn(t.txns[id], t'.txns[id], c) <==> (Txn(id) in rows ==> PlainTxn(t.txns[id]))
    {
      SweptTxn(t, user, pk, rows, id);
      if Txn(id) in rows {
        SealedTxnReadsTheSameWhen(t.txns[id], pk);
      } else {
        TxnIsSame(t.txns[id], c);
      }
    }
  }

  lemma AccountIsSame(r: AccountRow, c: UserCrypto)
    ensures SameAccount(r, r, c)
  {
  }

  lemma TxnIsSame(r: TxnRow, c: UserCrypto)
    ensures SameTxn(r, r, c)
  {
  }

  ghost predicate ListedRowsArePlain(t: Tables, user: string) {
    && (forall id :: Listed(t, user, Account(id)) ==> PlainAccount(t.accounts[id]))
    && (forall id :: Listed(t, user, Txn(id)) ==> PlainTxn(t.txns[id]))
  }

  lemma CompleteSweepWritesListed(t: Tables, user: string, pk: Key, rows: seq<RowRef>)
    requires IsSweep(t, user, pk, rows) && NothingListed(Sweep(t, pk, rows), user)
    ensures forall id :: id in t.accounts ==> (Account(id) in rows <==> Listed(t, user, Account(id)))
    ensures forall id :: id in t.txns ==> (Txn(id) in rows <==> Listed(t, user, Txn(id)))
  {
    hide Sweep, IsSweep, SealAccount, SealTxn;
    var t' := Sweep(t, pk, rows);
    forall id | id in t.accounts ensures Account(id) in rows <==> Listed(t, user, Account(id)) {
      SweptAccount(t, user, pk, rows, id);
      assert !Listed(t', user, Account(id));
    }
    forall id | id in t.txns ensures Txn(id) in rows <==> Listed(t, user, Txn(id)) {
      SweptTxn(t, user, pk, rows, id);
      assert !Listed(t', user, Txn(id));
    }
  }

  /**
   * A sweep that runs to the end, however often it was interrupted, keeps all texts exactly if no
   * account or transaction row waiting for it has a sealed column already.
   */
  lemma CompleteSweepKeepsTextsExactlyWhen(t: Tables, user: string, pk: Key, rows: seq<RowRef>)
    requires IsSweep(t, user, pk, rows) && NothingListed(Sweep(t, pk, rows), user) && OneForm(t, user)
    ensures SameTexts(t, Sweep(t, pk, rows), Unlocked(pk, pk)) <==> ListedRowsArePlain(t, user)
  {
    SweepKeepsTextsExactlyWhen(t, user, pk, rows);
    CompleteSweepWritesListed(t, user, pk, rows);
    hide Sweep, IsSweep, SameTexts, OneForm, PlainAccount, PlainTxn, NothingListed;
  }

  // ---- When a sweep leaves nothing in plaintext ----

  /** The listed rows are sealed and the others are as they were. */
  ghost predicate SweptAsListed(t: Tables, t': Tables, user: string, pk: Key) {
    && t'.accounts.Keys == t.accounts.Keys && t'.txns.Keys == t.txns.Keys
    && (forall id :: id in t.accounts ==>
          t'.accounts[id] == if Listed(t, user, Account(id)) then SealAccount(t.accounts[id], pk) else t.accounts[id])
    && (forall id :: id in t.txns ==>
          t'.txns[id] == if Listed(t, user, Txn(id)) then SealTxn(t.txns[id], pk) else t.txns[id])
  }

  lemma CompleteSweepSealsListed(t: Tables, user: string, pk: Key, rows: seq<RowRef>)
    requires IsSweep(t, user, pk, rows) && NothingListed(Sweep(t, pk, rows), user)
    ensures SweptAsListed(t, Sweep(t, pk, rows), user, pk)
  {
    hide Sweep, IsSweep, NothingListed, SealAccount, SealTxn, Listed, SameInvestment, SameHolding;
    var t' := Sweep(t, pk, rows);
    CompleteSweepWritesListed(t, user, pk, rows);
    SweepKeepsOtherTexts(t, pk, rows);
    forall id | id in t.accounts
      ensures t'.accounts[id] == if Listed(t, user, Account(id)) then SealAccount(t.accounts[id], pk) else t.accounts[id]
    {
      SweptAccount(t, user, pk, rows, id);
    }
    forall id | id in t.txns
      ensures t'.txns[id] == if Listed(t, user, Txn(id)) then SealTxn(t.txns[id], pk) else t.txns[id]
    {
      SweptTxn(t, user, pk, rows, id);
    }
  }

  lemma SealedRowsKeepNothing(pk: Key)
    ensures forall r: AccountRow :: SealAccount(r, pk).owner == r.owner && SealAccount(r, pk).customName.None?
    ensures forall r: TxnRow :: SealTxn(r, pk).owner == r.owner
    ensures forall r: TxnRow :: SealTxn(r, pk).merchantName.None? && SealTxn(r, pk).note.None?
  {
  }

  lemma UnlistedStayUnlisted(t: Tables, t': Tables, user: string, pk: Key)
    requires SweptAsListed(t, t', user, pk) && NothingListed(t', user)
    ensures UnlistedRowsAreSealed(t', user) <==> UnlistedRowsAreSealed(t, user)
  {
    hide SealAccount, SealTxn;
    SealedRowsKeepNothing(pk);
    assert forall id :: id in t.accounts ==> !Listed(t', user, Account(id));
    assert forall id :: id in t.txns ==> !Listed(t', user, Txn(id));
  }

  /** A sweep that runs to the end leaves every field sealed exactly if it had no plaintext to pass over. */
  lemma CompleteSweepSealsAllExactlyWhen(t: Tables, user: string, pk: Key, rows: seq<RowRef>)
    requires IsSweep(t, user, pk, rows) && NothingListed(Sweep(t, pk, rows), user)
    ensures UnsealedFields(Sweep(t, pk, rows), user) == {} <==> UnlistedRowsAreSealed(t, user)
  {
    hide Sweep, IsSweep, UnsealedFields, NothingListed, SweptAsListed, UnlistedRowsAreSealed;
    NothingListedWhenAllSealed(Sweep(t, pk, rows), user);
    CompleteSweepSealsListed(t, user, pk, rows);
    UnlistedStayUnlisted(t, Sweep(t, pk, rows), user, pk);
  }

  /** What the sweep is for: all sealed, and all as the owner read it before. */
  lemma SweepRecoversExactlyWhen(t: Tables, user: string, pk: Key, rows: seq<RowRef>)
    requires IsSweep(t, user, pk, rows) && NothingListed(Sweep(t, pk, rows), user) && OneForm(t, user)
    ensures UnsealedFields(Sweep(t, pk, rows), user) == {} && SameTexts(t, Sweep(t, pk, rows), Unlocked(pk, pk))
       <==> ListedRowsArePlain(t, user) && UnlistedRowsAreSealed(t, user)
  {
    hide UnsealedFields, SameTexts, ListedRowsArePlain, UnlistedRowsAreSealed, Sweep, IsSweep, NothingListed, OneForm;
    CompleteSweepSealsAllExactlyWhen(t, user, pk, rows);
    CompleteSweepKeepsTextsExactlyWhen(t, user, pk, rows);
  }

  // ---- How such rows come about ----

  /** What a sync of an encrypted user's stored transaction writes: the merchant sealed, the raw text as it was. */
  function Resynced(r: TxnRow, pk: Key, merchant: string): TxnRow {
    var (plain, enc) := SealOptional(Some(pk), Some(merchant));
    r.(merchantName := plain, merchantNameEnc := enc)
  }

  /** A sync between an interrupted sweep and the next one costs the merchant name. */
  lemma SyncBetweenSweepsLosesMerchant(t: Tables, user: string, pk: Key, id: string, merchant: string, rows: seq<RowRef>)
    requires id in t.txns && t.txns[id].owner == user && PlainTxn(t.txns[id])
    requires var t1 := t.(txns := t.txns[id := Resynced(t.txns[id], pk, merchant)]);
             IsSweep(t1, user, pk, rows) && NothingListed(Sweep(t1, pk, rows), user)
    ensures var t1, c := t.(txns := t.txns[id := Resynced(t.txns[id], pk, merchant)]), Unlocked(pk, pk);
            && TxnInOneForm(t1.txns[id]) && RevealTxn(t1.txns[id], c).merchantName == Some(merchant)
            && id in Sweep(t1, pk, rows).txns && RevealTxn(Sweep(t1, pk, rows).txns[id], c).merchantName == None
  {
    var t1 := t.(txns := t.txns[id := Resynced(t.txns[id], pk, merchant)]);
    CompleteSweepWritesListed(t1, user, pk, rows);
    SweptTxn(t1, user, pk, rows, id);
    hide Sweep, IsSweep, NothingListed;
    assert Listed(t1, user, Txn(id));
  }

  /** What a sync of an encrypted user's account writes: its name sealed, the custom name as it was. */
  function ResyncedAccount(r: AccountRow, pk: Key, name: string): AccountRow {
    var (plain, enc) := SealRequired(Some(pk), name);
    r.(name := plain, nameEnc := enc)
  }

  /** A sync between an interrupted sweep and the next one leaves the account's custom name in plaintext for good. */
  lemma SyncBetweenSweepsLeavesCustomName(t: Tables, user: string, pk: Key, id: string, name: string, rows: seq<RowRef>)
    requires id in t.accounts && t.accounts[id].owner == user && PlainAccount(t.accounts[id])
    requires t.accounts[id].customName.Some?
    requires var t1 := t.(accounts := t.accounts[id := ResyncedAccount(t.accounts[id], pk, name)]);
             IsSweep(t1, user, pk, rows)
    ensures var t1 := t.(accounts := t.accounts[id := ResyncedAccount(t.accounts[id], pk, name)]);
            var t' := Sweep(t1, pk, rows);
            && AccountInOneForm(t1.accounts[id])
            && id in t'.accounts && t'.accounts[id].customName == t.accounts[id].customName
            && !Listed(t', user, Account(id)) && UnsealedFields(t', user) != {}
  {
    var t1 := t.(accounts := t.accounts[id := ResyncedAccount(t.accounts[id], pk, name)]);
    SealedAccountStays(t1, user, pk, rows, id);
    hide Sweep, IsSweep, UnsealedFields;
    assert Unsealed(Sweep(t1, pk, rows), user, Account(id), CustomName);
    UnsealedRowShows(Sweep(t1, pk, rows), user, Account(id), CustomName);
  }
}
