/** Balances of a user's accounts over time, one by one and added up. */
module PortfolioHistory {
  import opened Seqs
  import opened Calendar
  import Text
  import opened DateText
  import opened Timeline

  /** The snapshots of an account are in date order, one a day. */
  datatype Account = Account(owner: string, snapshots: seq<Snapshot>)

  type Accounts = map<string, Account>

  ghost predicate ValidAccounts(accounts: Accounts) {
    forall id :: id in accounts ==> InDateOrder(accounts[id].snapshots)
  }

  datatype Point = Point(date: string, value: int)

  type History = map<string, int>

  /** A date that does not parse is None. */
  datatype Request = Request(accountIds: seq<string>, start: Option<Date>, end: Option<Date>, interval: string)

  datatype Portfolio = Portfolio(combined: seq<Point>, histories: map<string, seq<Point>>, counts: map<string, int>)

  datatype Response = BadRequest | Success(data: Portfolio)

  // ---- One account ----

  function PointAt(snapshots: seq<Snapshot>): Date -> Point {
    (d: Date) => Point(Format(d), BalanceAt(snapshots, d))
  }

  function Through(end: Date): Snapshot -> bool {
    (s: Snapshot) => NotAfter(s.date, end)
  }

  function InRange(start: Date, end: Date): Snapshot -> bool {
    (s: Snapshot) => Within(start, end, s.date)
  }

  method CountFrom(snapshots: seq<Snapshot>, start: Date) returns (n: nat)
    ensures n == |Filter((s: Snapshot) => NotAfter(start, s.date), snapshots)|
  {
    n := 0;
    ghost var keep := (s: Snapshot) => NotAfter(start, s.date);
    for i := 0 to |snapshots|
      invariant n == |Filter(keep, snapshots[..i])|
    {
      assert snapshots[..i + 1] == snapshots[..i] + [snapshots[i]];
      FilterSnoc(keep, snapshots[..i], snapshots[i]);
      if NotAfter(start, snapshots[i].date) {
        n := n + 1;
      }
    }
    assert snapshots[..|snapshots|] == snapshots;
  }

  /** What `history` becomes when the points are added, each to the entry of its date. */
  ghost predicate AddsPoints(history: History, points: seq<Point>, after: History) {
    && after.Keys == history.Keys + (set p | p in points :: p.date)
    && (forall p :: p in points ==> after[p.date] == (if p.date in history then history[p.date] else 0) + p.value)
    && (forall key :: key in history && (forall p :: p in points ==> p.date != key) ==> after[key] == history[key])
  }

  method AddAccount(history: History, snapshots: seq<Snapshot>, dates: seq<Date>)
    returns (points: seq<Point>, after: History)
    requires InDateOrder(snapshots) && Ascending(dates)
    ensures points == Map(PointAt(snapshots), dates)
    ensures AddsPoints(history, points, after)
  {
    hide Format, BalanceAt, IsBalanceAt, AddsPoints;
    points, after := [], history;
    NoPoints(history);
    for i := 0 to |dates|
      invariant points == Map(PointAt(snapshots), dates[..i])
      invariant AddsPoints(history, points, after)
    {
      var value := ValueAt(snapshots, dates[i]);
      var text := Format(dates[i]);
      NewDate(snapshots, dates, i);
      AddPoint(history, points, after, Point(text, value));
      after := after[text := (if text in after then after[text] else 0) + value];
      points := points + [Point(text, value)];
      assert dates[..i + 1] == dates[..i] + [dates[i]];
    }
    assert dates[..|dates|] == dates;
  }

  lemma NoPoints(history: History)
    ensures AddsPoints(history, [], history)
  {
  }

  lemma NewDate(snapshots: seq<Snapshot>, dates: seq<Date>, i: nat)
    requires Ascending(dates) && i < |dates|
    ensures forall p :: p in Map(PointAt(snapshots), dates[..i]) ==> p.date != Format(dates[i])
  {
    hide Format, BalanceAt;
    var points := Map(PointAt(snapshots), dates[..i]);
    forall p | p in points ensures p.date != Format(dates[i]) {
      var k :| 0 <= k < i && points[k] == p;
      assert Before(dates[k], dates[i]);
      if Format(dates[k]) == Format(dates[i]) {
        FormatIsInjective(dates[k], dates[i]);
      }
    }
  }

  lemma AddPoint(history: History, points: seq<Point>, after: History, p: Point)
    requires AddsPoints(history, points, after)
    requires forall q :: q in points ==> q.date != p.date
    ensures AddsPoints(history, points + [p], after[p.date := (if p.date in after then after[p.date] else 0) + p.value])
  {
    var all := points + [p];
    assert forall q :: q in all <==> q in points || q == p;
    assert p in all;
    assert (set q | q in all :: q.date) == (set q | q in points :: q.date) + {p.date};
  }

  // ---- All accounts ----

  function BalanceOf(accounts: Accounts, id: string, d: Date): int {
    if id in accounts then BalanceAt(accounts[id].snapshots, d) else 0
  }

  function Total(accounts: Accounts, ids: seq<string>, d: Date): int {
    SumInt((id: string) => BalanceOf(accounts, id, d), ids)
  }

  predicate Owned(accounts: Accounts, user: string, id: string) {
    id in accounts && accounts[id].owner == user
  }

  /** The ids in the request that are the user's, as often as they are named. */
  function Mine(accounts: Accounts, user: string, ids: seq<string>): seq<string> {
    Filter((id: string) => Owned(accounts, user, id), ids)
  }

  ghost predicate IsHistory(history: History, accounts: Accounts, ids: seq<string>, dates: seq<Date>) {
    && history.Keys == (if ids == [] then {} else set d | d in dates :: Format(d))
    && forall d :: d in dates && ids != [] ==> history[Format(d)] == Total(accounts, ids, d)
  }

  ghost predicate AreHistories(histories: map<string, seq<Point>>, accounts: Accounts, ids: seq<string>, dates: seq<Date>) {
    && histories.Keys == (set id | id in ids)
    && forall id :: id in ids && id in accounts ==> histories[id] == Map(PointAt(accounts[id].snapshots), dates)
  }

  ghost predicate AreCounts(counts: map<string, int>, accounts: Accounts, ids: seq<string>, start: Date, end: Date) {
    && counts.Keys == (set id | id in ids)
    && forall id :: id in ids && id in accounts ==> counts[id] == |Filter(InRange(start, end), accounts[id].snapshots)|
  }

  /** The query leaves out snapshots after the end; no point of the timeline misses them. */
  lemma PointsIgnoreLater(snapshots: seq<Snapshot>, end: Date, dates: seq<Date>)
    requires InDateOrder(snapshots)
    requires forall d :: d in dates ==> NotAfter(d, end)
    ensures Map(PointAt(Filter(Through(end), snapshots)), dates) == Map(PointAt(snapshots), dates)
  {
    hide Format, BalanceAt, InDateOrder, Filter;
    forall i | 0 <= i < |dates|
      ensures PointAt(Filter(Through(end), snapshots))(dates[i]) == PointAt(snapshots)(dates[i])
    {
      assert dates[i] in dates;
      LaterSnapshotsDoNotMatter(snapshots, end, dates[i]);
    }
  }

  lemma PointDates(snapshots: seq<Snapshot>, dates: seq<Date>)
    ensures (set p | p in Map(PointAt(snapshots), dates) :: p.date) == (set d | d in dates :: Format(d))
    ensures forall d :: d in dates ==> Point(Format(d), BalanceAt(snapshots, d)) in Map(PointAt(snapshots), dates)
  {
    hide Format, BalanceAt;
    var points := Map(PointAt(snapshots), dates);
    forall d | d in dates
      ensures Point(Format(d), BalanceAt(snapshots, d)) in points && Format(d) in (set p | p in points :: p.date)
    {
      var i :| 0 <= i < |dates| && dates[i] == d;
      assert points[i] in points && points[i].date == Format(d);
    }
  }

  lemma HistoryValue(history: History, accounts: Accounts, ids: seq<string>, id: string, dates: seq<Date>, after: History, d: Date)
    requires id in accounts && IsHistory(history, accounts, ids, dates) && d in dates
    requires AddsPoints(history, Map(PointAt(accounts[id].snapshots), dates), after)
    ensures Format(d) in after && after[Format(d)] == Total(accounts, ids + [id], d)
  {
    PointDates(accounts[id].snapshots, dates);
    OneMoreAccount(accounts, ids, id, d);
    hide Format, BalanceAt, Map, Total, PointAt;
    var p := Point(Format(d), BalanceAt(accounts[id].snapshots, d));
    assert p in Map(PointAt(accounts[id].snapshots), dates);
    assert ids == [] ==> p.date !in history;
  }

  lemma HistoryStep(history: History, accounts: Accounts, ids: seq<string>, id: string, dates: seq<Date>, after: History)
    requires id in accounts && IsHistory(history, accounts, ids, dates)
    requires AddsPoints(history, Map(PointAt(accounts[id].snapshots), dates), after)
    ensures IsHistory(after, accounts, ids + [id], dates)
  {
    PointDates(accounts[id].snapshots, dates);
    assert after.Keys == set d | d in dates :: Format(d);
    hide Format, BalanceAt, Map, Total, PointAt, AddsPoints;
    forall d | d in dates ensures Format(d) in after && after[Format(d)] == Total(accounts, ids + [id], d) {
      HistoryValue(history, accounts, ids, id, dates, after, d);
    }
  }

  lemma OneMoreAccount(accounts: Accounts, ids: seq<string>, id: string, d: Date)
    requires id in accounts
    ensures Total(accounts, ids + [id], d) == Total(accounts, ids, d) + BalanceAt(accounts[id].snapshots, d)
    ensures Total(accounts, [], d) == 0
  {
    SumIntSnoc((x: string) => BalanceOf(accounts, x, d), ids, id);
  }

  lemma CountStep(snapshots: seq<Snapshot>, start: Date, end: Date)
    ensures Filter((s: Snapshot) => NotAfter(start, s.date), Filter(Through(end), snapshots))
            == Filter(InRange(start, end), snapshots)
  {
    FilterTwice(Through(end), (s: Snapshot) => NotAfter(start, s.date), InRange(start, end), snapshots);
  }

  // ---- Sorting ----

  ghost predicate AscendingTexts(points: seq<Point>) {
    forall i, j :: 0 <= i < j < |points| ==> Text.LexBefore(points[i].date, points[j].date)
  }

  ghost predicate Lists(points: seq<Point>, history: History) {
    forall p :: p in points <==> p.date in history && history[p.date] == p.value
  }

  method InsertByDate(points: seq<Point>, p: Point) returns (longer: seq<Point>)
    requires AscendingTexts(points) && forall q :: q in points ==> q.date != p.date
    ensures AscendingTexts(longer)
    ensures forall q :: q in longer <==> q in points || q == p
  {
    var i := 0;
    while i < |points| && Text.LexBefore(points[i].date, p.date)
      invariant i <= |points|
      invariant forall k :: 0 <= k < i ==> Text.LexBefore(points[k].date, p.date)
    {
      i := i + 1;
    }
    longer := points[..i] + [p] + points[i..];
    InsertedAscends(points, p, i);
    assert points == points[..i] + points[i..];
  }

  lemma InsertedAscends(points: seq<Point>, p: Point, i: nat)
    requires AscendingTexts(points) && forall q :: q in points ==> q.date != p.date
    requires i <= |points| && forall k :: 0 <= k < i ==> Text.LexBefore(points[k].date, p.date)
    requires i < |points| ==> !Text.LexBefore(points[i].date, p.date)
    ensures AscendingTexts(points[..i] + [p] + points[i..])
  {
    hide Text.LexBefore;
    if i < |points| {
      assert points[i] in points;
      LexTotal(points[i].date, p.date);
    }
    forall k | i < k < |points| ensures Text.LexBefore(p.date, points[k].date) {
      LexTransitive(p.date, points[i].date, points[k].date);
    }
  }

  /** The entries in the order of their texts; a map gives them in no particular order. */
  method SortByDate(history: History) returns (points: seq<Point>)
    ensures AscendingTexts(points) && Lists(points, history)
  {
    points := [];
    var left := history;
    while left.Keys != {}
      invariant left.Keys <= history.Keys && forall key :: key in left ==> left[key] == history[key]
      invariant AscendingTexts(points)
      invariant forall p :: p in points <==> p.date in history && p.date !in left && history[p.date] == p.value
      decreases |left.Keys|
    {
      var key :| key in left.Keys;
      points := InsertByDate(points, Point(key, left[key]));
      assert (left - {key}).Keys == left.Keys - {key};
      left := left - {key};
    }
  }
}
