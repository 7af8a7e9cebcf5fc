/** Cloning the demo template's data into a new user, and what the clone's report is. */
module DemoClone {
  import opened Seqs
  import Calendar
  import opened FifoMatching
  import FifoOrder
  import opened GainsReport
  import HoldingTotals
  import opened ReportRenaming

  const DEMO_TEMPLATE_GOOGLE_ID := "demo-template"

  datatype User = User(id: string, googleId: string)
  datatype Item = Item(id: string, owner: Option<string>)
  datatype Account = Account(id: string, itemId: Option<string>)

  /** A row of a table that hangs off an account. */
  datatype Row<T> = Row(accountId: string, data: T)
  datatype OverrideRow = OverrideRow(userId: string, txnId: string, basis: Basis)

  datatype Tables = Tables(
    users: seq<User>,
    items: seq<Item>,
    accounts: seq<Account>,
    investments: seq<Row<Txn>>,
    holdings: seq<Row<HoldingTotals.Held>>,
    overrides: seq<OverrideRow>)

  // ---- Queries ----

  /** The join of accounts and items: `user` owns the item that the account hangs off. */
  ghost predicate Owns(t: Tables, user: string, accountId: string) {
    exists a, i :: a in t.accounts && i in t.items
                   && a.id == accountId && a.itemId == Some(i.id) && i.owner == Some(user)
  }

  ghost function OwnedData<T>(t: Tables, user: string, rows: seq<Row<T>>): seq<T> {
    if rows == [] then []
    else (if Owns(t, user, rows[0].accountId) then [rows[0].data] else []) + OwnedData(t, user, rows[1..])
  }

  predicate ComesBefore(a: Txn, b: Txn) {
    a.date.Some? && b.date.Some?
    && (Calendar.Before(a.date.value, b.date.value) || (a.date == b.date && a.amount < b.amount))
  }

  ghost predicate InQueryOrder(txns: seq<Txn>) {
    forall i, j :: 0 <= i < j < |txns| ==> !ComesBefore(txns[j], txns[i])
  }

  /** ORDER BY date, amount: rows that tie come in any order. */
  ghost predicate Orders(txns: seq<Txn>, rows: seq<Txn>) {
    InQueryOrder(txns) && multiset(txns) == multiset(rows)
  }

  /** An answer to the user's query. */
  ghost predicate IsAnswer(txns: seq<Txn>, t: Tables, user: string) {
    Orders(txns, OwnedData(t, user, t.investments))
  }

  ghost function HoldingsOf(t: Tables, user: string): HoldingsMap {
    HoldingTotals.Totals(OwnedData(t, user, t.holdings))
  }

  function OverridesOf(rows: seq<OverrideRow>, user: string): Overrides {
    if rows == [] then map[]
    else
      var last, front := rows[|rows| - 1], OverridesOf(rows[..|rows| - 1], user);
      if last.userId == user then front[last.txnId := last.basis] else front
  }

  ghost predicate IsReportFor(r: Report, t: Tables, user: string, taxYear: int, today: Calendar.Date) {
    exists txns :: IsAnswer(txns, t, user)
                   && IsReport(r, txns, HoldingsOf(t, user), OverridesOf(t.overrides, user), taxYear, today)
  }

  // ---- The order of the query ----

  /** The query hands the matcher date-sorted transactions, those of one day in the order of their amounts. */
  lemma QueryIsDateSorted(txns: seq<Txn>, t: Tables, user: string)
    requires IsAnswer(txns, t, user)
    ensures FifoOrder.TxnsSorted(txns)
    ensures forall i, j :: 0 <= i < j < |txns| && txns[i].date.Some? && txns[i].date == txns[j].date ==>
              txns[i].amount <= txns[j].amount
  {
    hide OwnedData, Owns;
    forall i, j | 0 <= i < j < |txns| && txns[i].date.Some? && txns[j].date.Some?
      ensures Calendar.NotAfter(txns[i].date.value, txns[j].date.value)
    {
      assert !ComesBefore(txns[j], txns[i]);
    }
  }

  lemma RenamingKeepsOrder(ids: Renaming, txns: seq<Txn>)
    ensures InQueryOrder(Map(RenameTxn(ids), txns)) <==> InQueryOrder(txns)
  {
    var renamed := Map(RenameTxn(ids), txns);
    assert forall i, j :: 0 <= i < j < |txns| ==>
                            (ComesBefore(renamed[j], renamed[i]) <==> ComesBefore(txns[j], txns[i]));
  }

  /** The ordered permutations of renamed rows are the renamed ordered permutations of the rows. */
  lemma RenamedAnswers(ids: Renaming, txns: seq<Txn>, rows: seq<Txn>)
    ensures Orders(txns, Map(RenameTxn(ids), rows))
       <==> exists original :: Orders(original, rows) && txns == Map(RenameTxn(ids), original)
  {
    hide InQueryOrder;
    if Orders(txns, Map(RenameTxn(ids), rows)) {
      var original := PermutationLifts(RenameTxn(ids), txns, rows);
      RenamingKeepsOrder(ids, original);
    }
    if original :| Orders(original, rows) && txns == Map(RenameTxn(ids), original) {
      RenamingKeepsOrder(ids, original);
      MapPermutation(RenameTxn(ids), original, rows);
    }
  }

  // ---- The clone ----

  /** A fresh id for each old one. */
  type Mint = string -> string

  ghost predicate FreshIds(mint: Mint, taken: set<string>) {
    && (forall a, b :: mint(a) == mint(b) ==> a == b)
    && forall a :: mint(a) !in taken
  }

  /** The first user that the seeding gave the template's Google id. */
  function TemplateOf(users: seq<User>): (template: Option<string>)
    ensures template.None? <==> forall u :: u in users ==> u.googleId != "demo-template"
    ensures template.Some? ==>
              exists i :: 0 <= i < |users| && users[i] == User(template.value, "demo-template")
                          && forall j :: 0 <= j < i ==> users[j].googleId != "demo-template"
  {
    if users == [] then None
    else if users[0].googleId == DEMO_TEMPLATE_GOOGLE_ID then Some(users[0].id)
    else TemplateOf(users[1..])
  }

  function IdMap(ids: set<string>, mint: Mint): Renaming {
    map id | id in ids :: mint(id)
  }

  function ItemIds(items: seq<Item>, owner: string): set<string> {
    set i | i in items && i.owner == Some(owner) :: i.id
  }

  function AccountIds(accounts: seq<Account>, items: Renaming): set<string> {
    set a | a in accounts && a.itemId.Some? && a.itemId.value in items :: a.id
  }

  function InvestmentIds(rows: seq<Row<Txn>>, accounts: Renaming): set<string> {
    set r | r in rows && r.accountId in accounts :: r.data.id
  }

  function CopyItems(items: seq<Item>, ids: Renaming, newUser: string): seq<Item> {
    if items == [] then []
    else
      (if items[0].id in ids then [Item(ids[items[0].id], Some(newUser))] else [])
      + CopyItems(items[1..], ids, newUser)
  }

  function CopyAccounts(accounts: seq<Account>, ids: Renaming, items: Renaming): seq<Account> {
    if accounts == [] then []
    else
      var a := accounts[0];
      (if a.id in ids && a.itemId.Some? && a.itemId.value in items
       then [Account(ids[a.id], Some(items[a.itemId.value]))] else [])
      + CopyAccounts(accounts[1..], ids, items)
  }

  function CopyRows<T>(rows: seq<Row<T>>, accounts: Renaming, change: T -> T): seq<Row<T>> {
    if rows == [] then []
    else
      (if rows[0].accountId in accounts then [Row(accounts[rows[0].accountId], change(rows[0].data))] else [])
      + CopyRows(rows[1..], accounts, change)
  }

  function CopyOverrides(rows: seq<OverrideRow>, ids: Renaming, template: string, newUser: string): seq<OverrideRow> {
    if rows == [] then []
    else
      (if rows[0].userId == template && rows[0].txnId in ids
       then [OverrideRow(newUser, ids[rows[0].txnId], rows[0].basis)] else [])
      + CopyOverrides(rows[1..], ids, template, newUser)
  }

  /** The id maps of one clone. */
  datatype Maps = Maps(items: Renaming, accounts: Renaming, investments: Renaming)

  function MapsOf(t: Tables, template: string, itemId: Mint, accountId: Mint, txnId: Mint): Maps {
    var items := IdMap(ItemIds(t.items, template), itemId);
    var accounts := IdMap(AccountIds(t.accounts, items), accountId);
    Maps(items, accounts, IdMap(InvestmentIds(t.investments, accounts), txnId))
  }

  function KeepHeld(h: HoldingTotals.Held): HoldingTotals.Held {
    h
  }

  function Cloned(t: Tables, m: Maps, template: string, newUser: string): Tables {
    Tables(
      t.users,
      t.items + CopyItems(t.items, m.items, newUser),
      t.accounts + CopyAccounts(t.accounts, m.accounts, m.items),
      t.investments + CopyRows(t.investments, m.accounts, RenameTxn(m.investments)),
      t.holdings + CopyRows(t.holdings, m.accounts, KeepHeld),
      t.overrides + CopyOverrides(t.overrides, m.investments, template, newUser))
  }

  /** The tables in the database, and the one transaction that clones. */
  class Database {
    var users: seq<User>
    var items: seq<Item>
    var accounts: seq<Account>
    var investments: seq<Row<Txn>>
    var holdings: seq<Row<HoldingTotals.Held>>
    var overrides: seq<OverrideRow>

    function State(): Tables
      reads this
    {
      Tables(users, items, accounts, investments, holdings, overrides)
    }

    /** False is the error for a template that was never seeded. */
    method CloneTemplateInto(newUser: string, newItemId: Mint, newAccountId: Mint, newTxnId: Mint) returns (ok: bool)
      modifies this
      ensures ok <==> exists u :: u in old(users) && u.googleId == "demo-template"
      ensures ok <==> TemplateOf(old(users)).Some?
      ensures !ok ==> State() == old(State())
      ensures ok ==>
                var template := TemplateOf(old(users)).value;
                var m := MapsOf(old(State()), template, newItemId, newAccountId, newTxnId);
                && State() == Cloned(old(State()), m, template, newUser)
                && var c := Clone(old(State()), State(), m, template, newUser, newItemId, newAccountId, newTxnId);
                   IsFresh(c) ==> NewUserReportsLikeTemplate(c) && OthersKeepTheirReports(c)
    {
      hide NewUserReportsLikeTemplate, OthersKeepTheirReports, IsFresh, CopyItems, CopyAccounts, CopyRows, CopyOverrides;
      ghost var before := State();
      var template := TemplateOf(users);
      if template.None? {
        return false;
      }
      var itemMap := IdMap(ItemIds(items, template.value), newItemId);
      var acctMap := IdMap(AccountIds(accounts, itemMap), newAccountId);
      accounts := accounts + CopyAccounts(accounts, acctMap, itemMap);
      items := items + CopyItems(items, itemMap, newUser);
      holdings := holdings + CopyRows(holdings, acctMap, KeepHeld);
      var invMap := IdMap(InvestmentIds(investments, acctMap), newTxnId);
      investments := investments + CopyRows(investments, acctMap, RenameTxn(invMap));
      overrides := overrides + CopyOverrides(overrides, invMap, template.value, newUser);
      ok := true;
      CloneKeepsReports(Clone(before, State(), Maps(itemMap, acctMap, invMap), template.value, newUser,
                              newItemId, newAccountId, newTxnId));
    }
  }

  // ---- Who owns what after a clone ----

  ghost function TakenItemIds(t: Tables): set<string> {
    (set i | i in t.items :: i.id) + (set a | a in t.accounts && a.itemId.Some? :: a.itemId.value)
  }

  ghost function TakenAccountIds(t: Tables): set<string> {
    (set a | a in t.accounts :: a.id)
    + (set r | r in t.investments :: r.accountId) + (set r | r in t.holdings :: r.accountId)
  }

  /** One run of the clone: the tables around it and what it was given. */
  datatype Clone = Clone(
    before: Tables, after: Tables, maps: Maps, template: string, newUser: string,
    itemId: Mint, accountId: Mint, txnId: Mint)

  /** The new user had no data and the generated ids are new. */
  ghost predicate IsFresh(c: Clone) {
    && FreshIds(c.itemId, TakenItemIds(c.before))
    && FreshIds(c.accountId, TakenAccountIds(c.before))
    && FreshIds(c.txnId, {})
    && ItemPrimaryKey(c.before.items)
    && (forall i :: i in c.before.items ==> i.owner != Some(c.newUser))
    && (forall o :: o in c.before.overrides ==> o.userId != c.newUser)
  }

  ghost predicate IsClone(c: Clone) {
    && c.maps == MapsOf(c.before, c.template, c.itemId, c.accountId, c.txnId)
    && c.after == Cloned(c.before, c.maps, c.template, c.newUser)
    && IsFresh(c)
  }

  /** A report of the template with its transaction ids renamed. */
  ghost predicate IsTemplateReport(r: Report, c: Clone, taxYear: int, today: Calendar.Date) {
    exists original ::
      IsReportFor(original, c.before, c.template, taxYear, today) && r == RenameReport(c.maps.investments, original)
  }

  /** The new user's reports are the template's, renamed. */
  ghost predicate NewUserReportsLikeTemplate(c: Clone) {
    forall r, taxYear, today ::
      IsReportFor(r, c.after, c.newUser, taxYear, today) <==> IsTemplateReport(r, c, taxYear, today)
  }

  /** Everybody else gets the reports of before. */
  ghost predicate OthersKeepTheirReports(c: Clone) {
    forall user, r, taxYear, today :: user != c.newUser ==>
      (IsReportFor(r, c.after, user, taxYear, today) <==> IsReportFor(r, c.before, user, taxYear, today))
  }

  ghost predicate ItemPrimaryKey(items: seq<Item>) {
    forall i, j :: i in items && j in items && i.id == j.id ==> i == j
  }

  lemma {:induction false} CopiedItems(items: seq<Item>, ids: Renaming, newUser: string)
    ensures forall j :: j in CopyItems(items, ids, newUser) <==>
              exists i :: i in items && i.id in ids && j == Item(ids[i.id], Some(newUser))
  {
    if items == [] {
    } else {
      CopiedItems(items[1..], ids, newUser);
      assert items == [items[0]] + items[1..];
    }
  }

  lemma {:induction false} CopiedAccounts(accounts: seq<Account>, ids: Renaming, items: Renaming)
    ensures forall b :: b in CopyAccounts(accounts, ids, items) <==>
              exists a :: a in accounts && a.id in ids && a.itemId.Some? && a.itemId.value in items
                          && b == Account(ids[a.id], Some(items[a.itemId.value]))
  {
    if accounts == [] {
    } else {
      CopiedAccounts(accounts[1..], ids, items);
      assert accounts == [accounts[0]] + accounts[1..];
    }
  }

  /** The accounts of the clone map are the c.template's. */
  lemma TemplateAccounts(c: Clone, account: string)
    requires IsClone(c)
    ensures account in c.maps.accounts <==> Owns(c.before, c.template, account)
  {
    if account in c.maps.accounts {
      var a :| a in c.before.accounts && a.itemId.Some? && a.itemId.value in c.maps.items && a.id == account;
      var i :| i in c.before.items && i.owner == Some(c.template) && i.id == a.itemId.value;
      assert a.itemId == Some(i.id);
    }
  }

  /** Accounts that existed before keep their owners. */
  lemma OldAccountsKeepOwner(c: Clone, user: string, account: string)
    requires IsClone(c)
    requires account in TakenAccountIds(c.before)
    ensures Owns(c.after, user, account) <==> Owns(c.before, user, account)
  {
    CopiedItems(c.before.items, c.maps.items, c.newUser);
    CopiedAccounts(c.before.accounts, c.maps.accounts, c.maps.items);
    if Owns(c.after, user, account) {
      var a, i :| a in c.after.accounts && i in c.after.items
                  && a.id == account && a.itemId == Some(i.id) && i.owner == Some(user);
      assert a in c.before.accounts;
      assert i.id in TakenItemIds(c.before);
      assert i in c.before.items;
    }
    if Owns(c.before, user, account) {
      var a, i :| a in c.before.accounts && i in c.before.items
                  && a.id == account && a.itemId == Some(i.id) && i.owner == Some(user);
      assert a in c.after.accounts && i in c.after.items;
    }
  }

  lemma NewAccountsBelongToNobodyElse(c: Clone, user: string, account: string)
    requires IsClone(c)
    requires account in c.maps.accounts && Owns(c.after, user, c.maps.accounts[account])
    ensures user == c.newUser
  {
    CopiedItems(c.before.items, c.maps.items, c.newUser);
    CopiedAccounts(c.before.accounts, c.maps.accounts, c.maps.items);
    var a, i :| a in c.after.accounts && i in c.after.items
                && a.id == c.maps.accounts[account] && a.itemId == Some(i.id) && i.owner == Some(user);
    assert a.id !in TakenAccountIds(c.before);
    assert a !in c.before.accounts;
    assert i.id !in TakenItemIds(c.before);
    assert i !in c.before.items;
  }

  lemma NewAccountsBelongToNewUser(c: Clone, account: string)
    requires IsClone(c)
    requires account in c.maps.accounts
    ensures Owns(c.after, c.newUser, c.maps.accounts[account])
  {
    CopiedItems(c.before.items, c.maps.items, c.newUser);
    CopiedAccounts(c.before.accounts, c.maps.accounts, c.maps.items);
    var a :| a in c.before.accounts && a.itemId.Some? && a.itemId.value in c.maps.items && a.id == account;
    var i :| i in c.before.items && i.owner == Some(c.template) && i.id == a.itemId.value;
    var b, j := Account(c.maps.accounts[account], Some(c.maps.items[i.id])), Item(c.maps.items[i.id], Some(c.newUser));
    assert b in c.after.accounts && j in c.after.items;
  }

  // ---- What each user's queries return after a clone ----

  ghost predicate AccountsTaken<T>(t: Tables, rows: seq<Row<T>>) {
    forall r :: r in rows ==> r.accountId in TakenAccountIds(t)
  }

  lemma {:induction false} OwnedDataAppend<T>(t: Tables, user: string, xs: seq<Row<T>>, ys: seq<Row<T>>)
    ensures OwnedData(t, user, xs + ys) == OwnedData(t, user, xs) + OwnedData(t, user, ys)
  {
    hide Owns;
    if xs == [] {
      assert xs + ys == ys;
    } else {
      assert (xs + ys)[1..] == xs[1..] + ys;
      OwnedDataAppend(t, user, xs[1..], ys);
    }
  }

  lemma NewUserOwnsNothing(c: Clone, account: string)
    requires IsClone(c)
    ensures !Owns(c.before, c.newUser, account)
  {
  }

  lemma {:induction false} OldRowsStay<T>(c: Clone, user: string, rows: seq<Row<T>>)
    requires IsClone(c) && AccountsTaken(c.before, rows)
    ensures OwnedData(c.after, user, rows) == OwnedData(c.before, user, rows)
    ensures OwnedData(c.before, c.newUser, rows) == []
  {
    hide IsClone, Owns;
    if rows == [] {
    } else {
      OldRowsStay(c, user, rows[1..]);
      OldAccountsKeepOwner(c, user, rows[0].accountId);
      NewUserOwnsNothing(c, rows[0].accountId);
    }
  }

  lemma {:induction false} NewRowsAreTheTemplates<T>(c: Clone, rows: seq<Row<T>>, change: T -> T)
    requires IsClone(c)
    ensures OwnedData(c.after, c.newUser, CopyRows(rows, c.maps.accounts, change))
         == Map(change, OwnedData(c.before, c.template, rows))
  {
    hide IsClone, Owns;
    if rows == [] {
    } else {
      var rest, account := CopyRows(rows[1..], c.maps.accounts, change), rows[0].accountId;
      NewRowsAreTheTemplates(c, rows[1..], change);
      TemplateAccounts(c, account);
      if account in c.maps.accounts {
        var copy := Row(c.maps.accounts[account], change(rows[0].data));
        NewAccountsBelongToNewUser(c, account);
        assert ([copy] + rest)[1..] == rest;
        MapAppend(change, [rows[0].data], OwnedData(c.before, c.template, rows[1..]));
      } else {
        assert CopyRows(rows, c.maps.accounts, change) == rest;
      }
    }
  }

  lemma {:induction false} NewRowsAreNobodyElses<T>(c: Clone, user: string, rows: seq<Row<T>>, change: T -> T)
    requires IsClone(c) && user != c.newUser
    ensures OwnedData(c.after, user, CopyRows(rows, c.maps.accounts, change)) == []
  {
    hide IsClone, Owns;
    if rows == [] {
    } else {
      var rest, account := CopyRows(rows[1..], c.maps.accounts, change), rows[0].accountId;
      NewRowsAreNobodyElses(c, user, rows[1..], change);
      if account in c.maps.accounts {
        var copy := Row(c.maps.accounts[account], change(rows[0].data));
        assert ([copy] + rest)[1..] == rest;
        if Owns(c.after, user, copy.accountId) {
          NewAccountsBelongToNobodyElse(c, user, account);
        }
      } else {
        assert CopyRows(rows, c.maps.accounts, change) == rest;
      }
    }
  }

  /** After the clone the new user sees the template's rows, changed as they were copied. */
  lemma NewUserSeesCopies<T>(c: Clone, rows: seq<Row<T>>, change: T -> T)
    requires IsClone(c) && AccountsTaken(c.before, rows)
    ensures OwnedData(c.after, c.newUser, rows + CopyRows(rows, c.maps.accounts, change))
         == Map(change, OwnedData(c.before, c.template, rows))
  {
    hide IsClone, OwnedData;
    OwnedDataAppend(c.after, c.newUser, rows, CopyRows(rows, c.maps.accounts, change));
    OldRowsStay(c, c.newUser, rows);
    NewRowsAreTheTemplates(c, rows, change);
  }

  lemma OthersSeeNoCopies<T>(c: Clone, user: string, rows: seq<Row<T>>, change: T -> T)
    requires IsClone(c) && AccountsTaken(c.before, rows) && user != c.newUser
    ensures OwnedData(c.after, user, rows + CopyRows(rows, c.maps.accounts, change)) == OwnedData(c.before, user, rows)
  {
    hide IsClone, OwnedData;
    OwnedDataAppend(c.after, user, rows, CopyRows(rows, c.maps.accounts, change));
    OldRowsStay(c, user, rows);
    NewRowsAreNobodyElses(c, user, rows, change);
  }

  /** The answers to the new user's query are those to the template's with ids renamed, in every order of ties. */
  lemma CloneShowsTemplateData(c: Clone, txns: seq<Txn>)
    requires IsClone(c)
    ensures IsAnswer(txns, c.after, c.newUser)
       <==> exists original ::
              IsAnswer(original, c.before, c.template) && txns == Map(RenameTxn(c.maps.investments), original)
    ensures HoldingsOf(c.after, c.newUser) == HoldingsOf(c.before, c.template)
  {
    hide OwnedData, Owns, InQueryOrder;
    NewUserSeesCopies(c, c.before.investments, RenameTxn(c.maps.investments));
    NewUserSeesCopies(c, c.before.holdings, KeepHeld);
    KeepingHeld(OwnedData(c.before, c.template, c.before.holdings));
    RenamedAnswers(c.maps.investments, txns, OwnedData(c.before, c.template, c.before.investments));
  }

  lemma KeepingHeld(rows: seq<HoldingTotals.Held>)
    ensures Map(KeepHeld, rows) == rows
  {
  }

  // ---- Overrides after a clone ----

  lemma {:induction false} OverridesAppend(xs: seq<OverrideRow>, ys: seq<OverrideRow>, user: string)
    ensures OverridesOf(xs + ys, user) == OverridesOf(xs, user) + OverridesOf(ys, user)
  {
    if ys == [] {
      assert xs + ys == xs;
    } else {
      var n := |ys| - 1;
      assert (xs + ys)[..|xs + ys| - 1] == xs + ys[..n];
      OverridesAppend(xs, ys[..n], user);
    }
  }

  lemma {:induction false} NoOverrides(rows: seq<OverrideRow>, user: string)
    requires forall o :: o in rows ==> o.userId != user
    ensures OverridesOf(rows, user) == map[]
  {
    if rows == [] {
    } else {
      NoOverrides(rows[..|rows| - 1], user);
    }
  }

  lemma {:induction false} CopiesAreOfNewUser(rows: seq<OverrideRow>, ids: Renaming, template: string, newUser: string)
    ensures forall o :: o in CopyOverrides(rows, ids, template, newUser) ==> o.userId == newUser
  {
    if rows == [] {
    } else {
      CopiesAreOfNewUser(rows[1..], ids, template, newUser);
    }
  }

  lemma {:induction false} CopiedOverridesSnoc(rows: seq<OverrideRow>, o: OverrideRow, ids: Renaming,
                                               template: string, newUser: string)
    ensures CopyOverrides(rows + [o], ids, template, newUser)
         == if o.userId == template && o.txnId in ids
            then CopyOverrides(rows, ids, template, newUser) + [OverrideRow(newUser, ids[o.txnId], o.basis)]
            else CopyOverrides(rows, ids, template, newUser)
  {
    if rows == [] {
    } else {
      assert (rows + [o])[1..] == rows[1..] + [o];
      CopiedOverridesSnoc(rows[1..], o, ids, template, newUser);
    }
  }

  lemma OverridesSnoc(rows: seq<OverrideRow>, o: OverrideRow, user: string)
    ensures OverridesOf(rows + [o], user)
         == if o.userId == user then OverridesOf(rows, user)[o.txnId := o.basis] else OverridesOf(rows, user)
  {
    assert (rows + [o])[..|rows|] == rows;
  }

  lemma RenamingOneMore(ids: Renaming, overrides: Overrides, id: string, basis: Basis)
    requires Injective(ids)
    ensures RenameOverrides(ids, overrides[id := basis])
         == if id in ids then RenameOverrides(ids, overrides)[ids[id] := basis] else RenameOverrides(ids, overrides)
  {
  }

  lemma {:induction false} CopiedOverridesAreRenamed(rows: seq<OverrideRow>, ids: Renaming,
                                                     template: string, newUser: string)
    requires Injective(ids)
    ensures OverridesOf(CopyOverrides(rows, ids, template, newUser), newUser)
         == RenameOverrides(ids, OverridesOf(rows, template))
  {
    if rows == [] {
    } else {
      hide RenameOverrides, OverridesOf, CopyOverrides, Injective;
      var n := |rows| - 1;
      var front, last := rows[..n], rows[n];
      assert rows == front + [last];
      CopiedOverridesAreRenamed(front, ids, template, newUser);
      CopiedOverridesSnoc(front, last, ids, template, newUser);
      OverridesSnoc(front, last, template);
      RenamingOneMore(ids, OverridesOf(front, template), last.txnId, last.basis);
      if last.userId == template && last.txnId in ids {
        OverridesSnoc(CopyOverrides(front, ids, template, newUser),
                      OverrideRow(newUser, ids[last.txnId], last.basis), newUser);
      }
    }
  }

  /** The new user has the template's overrides of its own transactions, under their new ids. */
  lemma CloneShowsTemplateOverrides(c: Clone)
    requires IsClone(c)
    ensures Injective(c.maps.investments)
    ensures OverridesOf(c.after.overrides, c.newUser)
         == RenameOverrides(c.maps.investments, OverridesOf(c.before.overrides, c.template))
  {
    hide OverridesOf, RenameOverrides, CopyOverrides;
    var copies := CopyOverrides(c.before.overrides, c.maps.investments, c.template, c.newUser);
    OverridesAppend(c.before.overrides, copies, c.newUser);
    CopiedOverridesAreRenamed(c.before.overrides, c.maps.investments, c.template, c.newUser);
    NoOverrides(c.before.overrides, c.newUser);
    assert map[] + OverridesOf(copies, c.newUser) == OverridesOf(copies, c.newUser);
  }

  /** Nobody else's capital gains change, the template's included. */
  lemma CloneLeavesOthersAlone(c: Clone, user: string)
    requires IsClone(c) && user != c.newUser
    ensures forall txns :: IsAnswer(txns, c.after, user) <==> IsAnswer(txns, c.before, user)
    ensures HoldingsOf(c.after, user) == HoldingsOf(c.before, user)
    ensures OverridesOf(c.after.overrides, user) == OverridesOf(c.before.overrides, user)
  {
    hide OwnedData, Owns, InQueryOrder, OverridesOf, IsFresh;
    OthersSeeNoCopies(c, user, c.before.investments, RenameTxn(c.maps.investments));
    OthersSeeNoCopies(c, user, c.before.holdings, KeepHeld);
    OthersHaveTheirOverrides(c, user);
  }

  lemma OthersHaveTheirOverrides(c: Clone, user: string)
    requires IsClone(c) && user != c.newUser
    ensures OverridesOf(c.after.overrides, user) == OverridesOf(c.before.overrides, user)
  {
    hide OverridesOf, CopyOverrides, IsFresh;
    var copies := CopyOverrides(c.before.overrides, c.maps.investments, c.template, c.newUser);
    OverridesAppend(c.before.overrides, copies, user);
    CopiesAreOfNewUser(c.before.overrides, c.maps.investments, c.template, c.newUser);
    NoOverrides(copies, user);
    assert OverridesOf(c.before.overrides, user) + map[] == OverridesOf(c.before.overrides, user);
  }

  // ---- The report ----

  lemma {:induction false} OwnedTxnsAreMapped(c: Clone, rows: seq<Row<Txn>>)
    requires IsClone(c) && forall r :: r in rows ==> r in c.before.investments
    ensures forall txn :: txn in OwnedData(c.before, c.template, rows) ==> txn.id in c.maps.investments
  {
    if rows == [] {
    } else {
      hide Owns;
      OwnedTxnsAreMapped(c, rows[1..]);
      TemplateAccounts(c, rows[0].accountId);
      assert rows[0] in c.before.investments;
    }
  }

  lemma AnswersAreMapped(c: Clone, txns: seq<Txn>)
    requires IsClone(c) && IsAnswer(txns, c.before, c.template)
    ensures forall txn :: txn in txns ==> txn.id in c.maps.investments
  {
    var rows := OwnedData(c.before, c.template, c.before.investments);
    OwnedTxnsAreMapped(c, c.before.investments);
    assert forall txn :: txn in txns <==> txn in multiset(txns);
    assert forall txn :: txn in rows <==> txn in multiset(rows);
  }

  lemma CloneReportsAsTemplate(c: Clone, r: Report, taxYear: int, today: Calendar.Date)
    requires IsClone(c) && IsReportFor(r, c.before, c.template, taxYear, today)
    ensures IsReportFor(RenameReport(c.maps.investments, r), c.after, c.newUser, taxYear, today)
  {
    hide IsClone, IsReport, RenameOverrides, OverridesOf, HoldingsOf, IsAnswer, Injective, RenameReport;
    var ids, overrides := c.maps.investments, OverridesOf(c.before.overrides, c.template);
    var txns :| IsAnswer(txns, c.before, c.template)
                && IsReport(r, txns, HoldingsOf(c.before, c.template), overrides, taxYear, today);
    CloneShowsTemplateData(c, Map(RenameTxn(ids), txns));
    CloneShowsTemplateOverrides(c);
    AnswersAreMapped(c, txns);
    ReportCommutesWithRenaming(ids, r, txns, HoldingsOf(c.before, c.template), overrides, taxYear, today);
  }

  lemma TemplateReportsAsClone(c: Clone, r: Report, taxYear: int, today: Calendar.Date) returns (original: Report)
    requires IsClone(c) && IsReportFor(r, c.after, c.newUser, taxYear, today)
    ensures IsReportFor(original, c.before, c.template, taxYear, today) && r == RenameReport(c.maps.investments, original)
  {
    hide IsClone, IsReport, RenameOverrides, OverridesOf, HoldingsOf, IsAnswer, Injective, RenameReport;
    var ids, overrides := c.maps.investments, OverridesOf(c.before.overrides, c.template);
    CloneShowsTemplateOverrides(c);
    var renamed :| IsAnswer(renamed, c.after, c.newUser)
                   && IsReport(r, renamed, HoldingsOf(c.after, c.newUser), OverridesOf(c.after.overrides, c.newUser),
                               taxYear, today);
    CloneShowsTemplateData(c, renamed);
    var txns :| IsAnswer(txns, c.before, c.template) && renamed == Map(RenameTxn(ids), txns);
    AnswersAreMapped(c, txns);
    original := UnrenamedReport(ids, r, txns, HoldingsOf(c.before, c.template), overrides, taxYear, today);
  }

  /** The cloned user's reports are the template's with their transaction ids renamed. */
  lemma CloneReportsLikeTemplate(c: Clone, r: Report, taxYear: int, today: Calendar.Date)
    requires IsClone(c)
    ensures IsReportFor(r, c.after, c.newUser, taxYear, today) <==> IsTemplateReport(r, c, taxYear, today)
  {
    hide IsClone, IsReportFor, RenameReport;
    if IsReportFor(r, c.after, c.newUser, taxYear, today) {
      var original := TemplateReportsAsClone(c, r, taxYear, today);
    }
    if IsTemplateReport(r, c, taxYear, today) {
      var original :|
        IsReportFor(original, c.before, c.template, taxYear, today) && r == RenameReport(c.maps.investments, original);
      CloneReportsAsTemplate(c, original, taxYear, today);
    }
  }

  lemma OthersReportsStay(c: Clone, user: string, r: Report, taxYear: int, today: Calendar.Date)
    requires IsClone(c) && user != c.newUser
    ensures IsReportFor(r, c.after, user, taxYear, today) <==> IsReportFor(r, c.before, user, taxYear, today)
  {
    hide IsClone, IsReport, IsAnswer, HoldingsOf, OverridesOf;
    CloneLeavesOthersAlone(c, user);
  }

  lemma CloneKeepsReports(c: Clone)
    requires c.maps == MapsOf(c.before, c.template, c.itemId, c.accountId, c.txnId)
    requires c.after == Cloned(c.before, c.maps, c.template, c.newUser)
    ensures IsFresh(c) ==> NewUserReportsLikeTemplate(c) && OthersKeepTheirReports(c)
  {
    hide Cloned, MapsOf, IsFresh, IsReportFor, IsTemplateReport;
    if IsFresh(c) {
      forall r, taxYear, today
        ensures IsReportFor(r, c.after, c.newUser, taxYear, today) <==> IsTemplateReport(r, c, taxYear, today)
      {
        CloneReportsLikeTemplate(c, r, taxYear, today);
      }
      forall user, r, taxYear, today | user != c.newUser
        ensures IsReportFor(r, c.after, user, taxYear, today) <==> IsReportFor(r, c.before, user, taxYear, today)
      {
        OthersReportsStay(c, user, r, taxYear, today);
      }
    }
  }
}
