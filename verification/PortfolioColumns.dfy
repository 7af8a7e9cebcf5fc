/** The portfolio response in the columns of the request, the accounts and their snapshots. */
module PortfolioColumns {
  import opened Seqs
  import opened Calendar
  import opened DateText
  import opened Timeline
  import opened PortfolioHistory
  import opened PortfolioAggregation

  // ---- The days shown ----

  /** In the order of the days: each day of the range, or the first of each month in it and the end. */
  ghost predicate ShowsDays(dates: seq<Date>, interval: string, start: Date, end: Date) {
    && (forall i, j :: 0 <= i < j < |dates| ==> DayNumber(dates[i]) < DayNumber(dates[j]))
    && forall d: Date :: d in dates <==>
         var inRange := DayNumber(start) <= DayNumber(d) <= DayNumber(end);
         if interval == "daily" then inRange else (inRange && d.day == 1) || d == end
  }

  lemma NotAfterIsDayOrder(a: Date, b: Date)
    ensures NotAfter(a, b) <==> DayNumber(a) <= DayNumber(b)
  {
    hide DayNumber, Before;
    BeforeIsDayOrder(a, b);
    BeforeIsDayOrder(b, a);
    BeforeOrSame(a, b);
  }

  lemma BeforeOrSame(a: Date, b: Date)
    ensures Before(a, b) || Before(b, a) || a == b
    ensures !(Before(a, b) && Before(b, a)) && !Before(a, a)
  {
  }

  lemma TimelineShowsDays(dates: seq<Date>, interval: string, start: Date, end: Date)
    requires IsTimeline(dates, interval == "daily", start, end)
    ensures ShowsDays(dates, interval, start, end)
  {
    hide DayNumber, Before, NotAfter;
    forall i, j | 0 <= i < j < |dates| ensures DayNumber(dates[i]) < DayNumber(dates[j]) {
      BeforeIsDayOrder(dates[i], dates[j]);
    }
    forall d: Date ensures Within(start, end, d) <==> DayNumber(start) <= DayNumber(d) <= DayNumber(end) {
      NotAfterIsDayOrder(start, d);
      NotAfterIsDayOrder(d, end);
    }
  }

  // ---- One account ----

  /** The balance of the last snapshot on or before the day, or zero. */
  ghost predicate LastBalance(snapshots: seq<Snapshot>, d: Date, balance: int) {
    if forall i :: 0 <= i < |snapshots| ==> DayNumber(d) < DayNumber(snapshots[i].date) then balance == 0
    else
      exists k :: 0 <= k < |snapshots| && snapshots[k].balance == balance
                  && DayNumber(snapshots[k].date) <= DayNumber(d)
                  && forall i :: k < i < |snapshots| ==> DayNumber(d) < DayNumber(snapshots[i].date)
  }

  lemma {:induction false} BalanceIsLast(snapshots: seq<Snapshot>, d: Date)
    ensures LastBalance(snapshots, d, BalanceAt(snapshots, d))
  {
    hide DayNumber;
    if snapshots == [] {
    } else {
      var n := |snapshots| - 1;
      NotAfterIsDayOrder(snapshots[n].date, d);
      if NotAfter(snapshots[n].date, d) {
        assert DayNumber(snapshots[n].date) <= DayNumber(d);
      } else {
        BalanceIsLast(snapshots[..n], d);
        LastOfFront(snapshots, d, BalanceAt(snapshots[..n], d));
      }
    }
  }

  lemma LastOfFront(snapshots: seq<Snapshot>, d: Date, balance: int)
    requires snapshots != [] && DayNumber(d) < DayNumber(snapshots[|snapshots| - 1].date)
    requires LastBalance(snapshots[..|snapshots| - 1], d, balance)
    ensures LastBalance(snapshots, d, balance)
  {
    hide DayNumber;
    var n := |snapshots| - 1;
    if forall i :: 0 <= i < n ==> DayNumber(d) < DayNumber(snapshots[..n][i].date) {
      assert forall i :: 0 <= i < n ==> snapshots[..n][i] == snapshots[i];
    } else {
      var k :| 0 <= k < n && snapshots[..n][k].balance == balance && DayNumber(snapshots[..n][k].date) <= DayNumber(d)
               && forall i :: k < i < n ==> DayNumber(d) < DayNumber(snapshots[..n][i].date);
      assert snapshots[k] == snapshots[..n][k];
      assert forall i :: 0 <= i < n ==> snapshots[..n][i] == snapshots[i];
    }
  }

  /** A point a day: its text, and the balance then. */
  ghost predicate ShowsBalances(points: seq<Point>, snapshots: seq<Snapshot>, dates: seq<Date>) {
    && |points| == |dates|
    && forall i :: 0 <= i < |dates| ==>
         points[i].date == Format(dates[i]) && LastBalance(snapshots, dates[i], points[i].value)
  }

  lemma PointsShowBalances(snapshots: seq<Snapshot>, dates: seq<Date>)
    ensures ShowsBalances(Map(PointAt(snapshots), dates), snapshots, dates)
  {
    hide LastBalance, BalanceAt, Format;
    forall i | 0 <= i < |dates| ensures LastBalance(snapshots, dates[i], BalanceAt(snapshots, dates[i])) {
      BalanceIsLast(snapshots, dates[i]);
    }
  }

  // ---- The response ----

  function OnDays(start: Date, end: Date): Snapshot -> bool {
    (s: Snapshot) => DayNumber(start) <= DayNumber(s.date) <= DayNumber(end)
  }

  lemma {:induction false} SameCount(snapshots: seq<Snapshot>, start: Date, end: Date)
    ensures Filter(InRange(start, end), snapshots) == Filter(OnDays(start, end), snapshots)
  {
    hide DayNumber, NotAfter;
    if snapshots != [] {
      NotAfterIsDayOrder(start, snapshots[0].date);
      NotAfterIsDayOrder(snapshots[0].date, end);
      SameCount(snapshots[1..], start, end);
    }
  }

  /** The value shown for the i-th day of an account, nothing for an account that is not shown. */
  function ShownValue(histories: map<string, seq<Point>>, i: nat): string -> int {
    (id: string) => if id in histories && i < |histories[id]| then histories[id][i].value else 0
  }

  /** The accounts named that are the user's, with their balances and how many snapshots the range holds. */
  ghost predicate ShowsAccounts(data: Portfolio, accounts: Accounts, user: string, req: Request, dates: seq<Date>)
    requires req.start.Some? && req.end.Some?
  {
    && (forall id :: id in data.histories <==> id in req.accountIds && id in accounts && accounts[id].owner == user)
    && data.counts.Keys == data.histories.Keys
    && (forall id :: id in data.histories && id in accounts ==>
          && ShowsBalances(data.histories[id], accounts[id].snapshots, dates)
          && data.counts[id] == |Filter(OnDays(req.start.value, req.end.value), accounts[id].snapshots)|)
  }

  /** The combined history has just the days shown, each with the sum of what the named accounts show. */
  ghost predicate AddsUp(data: Portfolio, ids: seq<string>, dates: seq<Date>) {
    && (forall i :: 0 <= i < |dates| && data.histories != map[] ==>
          Point(Format(dates[i]), SumInt(ShownValue(data.histories, i), ids)) in data.combined)
    && (forall p :: p in data.combined ==>
          exists i :: 0 <= i < |dates| && p == Point(Format(dates[i]), SumInt(ShownValue(data.histories, i), ids)))
  }

  lemma MineAreOwned(accounts: Accounts, user: string, ids: seq<string>)
    ensures forall id :: id in Mine(accounts, user, ids) <==> id in ids && id in accounts && accounts[id].owner == user
  {
    FilterMembers((id: string) => PortfolioHistory.Owned(accounts, user, id), ids);
  }

  lemma TotalIsShown(data: Portfolio, accounts: Accounts, user: string, ids: seq<string>, dates: seq<Date>, i: nat)
    requires i < |dates| && AreHistories(data.histories, accounts, Mine(accounts, user, ids), dates)
    ensures Total(accounts, Mine(accounts, user, ids), dates[i]) == SumInt(ShownValue(data.histories, i), ids)
  {
    var mine, own := Mine(accounts, user, ids), (id: string) => PortfolioHistory.Owned(accounts, user, id);
    var balance := (id: string) => BalanceOf(accounts, id, dates[i]);
    MineAreOwned(accounts, user, ids);
    hide Format, BalanceAt;
    forall id | id in ids ensures ShownValue(data.histories, i)(id) == if own(id) then balance(id) else 0 {
      assert own(id) <==> id in mine;
    }
    SumIntOfPart(ShownValue(data.histories, i), own, balance, ids);
  }

  /** What a response says, column by column. */
  lemma ResponseInColumns(data: Portfolio, accounts: Accounts, user: string, req: Request, dates: seq<Date>)
    requires req.start.Some? && req.end.Some?
    requires IsTimeline(dates, req.interval == "daily", req.start.value, req.end.value)
    requires IsPortfolio(data, accounts, Mine(accounts, user, req.accountIds), req.start.value, req.end.value, dates)
    ensures ShowsDays(dates, req.interval, req.start.value, req.end.value)
    ensures ShowsAccounts(data, accounts, user, req, dates)
    ensures AddsUp(data, req.accountIds, dates)
  {
    hide IsTimeline, ShowsDays, ShowsBalances, Format, Total, Filter, Map, PointAt, InRange, OnDays;
    var mine := Mine(accounts, user, req.accountIds);
    TimelineShowsDays(dates, req.interval, req.start.value, req.end.value);
    MineAreOwned(accounts, user, req.accountIds);
    forall id | id in data.histories && id in accounts
      ensures ShowsBalances(data.histories[id], accounts[id].snapshots, dates)
      ensures Filter(InRange(req.start.value, req.end.value), accounts[id].snapshots)
           == Filter(OnDays(req.start.value, req.end.value), accounts[id].snapshots)
    {
      PointsShowBalances(accounts[id].snapshots, dates);
      SameCount(accounts[id].snapshots, req.start.value, req.end.value);
    }
    TotalsAddUp(data, accounts, user, req.accountIds, dates);
  }

  lemma TotalsAddUp(data: Portfolio, accounts: Accounts, user: string, ids: seq<string>, dates: seq<Date>)
    requires AreHistories(data.histories, accounts, Mine(accounts, user, ids), dates)
    requires HasTotals(data.combined, accounts, Mine(accounts, user, ids), dates)
    ensures AddsUp(data, ids, dates)
  {
    hide Format, Total, ShownValue, Mine, SumInt, PointAt, Map;
    var mine := Mine(accounts, user, ids);
    forall i | 0 <= i < |dates| && data.histories != map[]
      ensures Point(Format(dates[i]), SumInt(ShownValue(data.histories, i), ids)) in data.combined
    {
      TotalIsShown(data, accounts, user, ids, dates, i);
      assert dates[i] in dates;
      SomeAreMine(data, accounts, mine, dates);
    }
    forall p | p in data.combined
      ensures exists i :: 0 <= i < |dates| && p == Point(Format(dates[i]), SumInt(ShownValue(data.histories, i), ids))
    {
      var d :| d in dates && p == Point(Format(d), Total(accounts, mine, d));
      var i :| 0 <= i < |dates| && dates[i] == d;
      TotalIsShown(data, accounts, user, ids, dates, i);
    }
  }

  lemma SomeAreMine(data: Portfolio, accounts: Accounts, mine: seq<string>, dates: seq<Date>)
    requires AreHistories(data.histories, accounts, mine, dates) && data.histories != map[]
    ensures mine != []
  {
    var id :| id in data.histories.Keys;
    assert id in mine;
  }
}
