/** The portfolio request: dates, histories per account, and their sum. */
module PortfolioAggregation {
  import opened Seqs
  import opened Calendar
  import Text
  import opened DateText
  import opened Timeline
  import opened PortfolioHistory
  import HistoryOrder

  /** The points of the combined history, in whatever order. */
  ghost predicate HasTotals(combined: seq<Point>, accounts: Accounts, mine: seq<string>, dates: seq<Date>) {
    forall p :: p in combined <==> mine != [] && exists d :: d in dates && p == Point(Format(d), Total(accounts, mine, d))
  }

  ghost predicate IsPortfolio(data: Portfolio, accounts: Accounts, mine: seq<string>, start: Date, end: Date, dates: seq<Date>) {
    && AscendingTexts(data.combined) && HasTotals(data.combined, accounts, mine, dates)
    && AreHistories(data.histories, accounts, mine, dates)
    && AreCounts(data.counts, accounts, mine, start, end)
  }

  /** What has been gathered over the owned accounts handled so far, whichever list the timeline is. */
  ghost predicate Gathered(history: History, histories: map<string, seq<Point>>, accounts: Accounts, mine: seq<string>,
                           daily: bool, start: Date, end: Date) {
    forall dates :: IsTimeline(dates, daily, start, end) ==>
      IsHistory(history, accounts, mine, dates) && AreHistories(histories, accounts, mine, dates)
  }

  lemma GatherOne(history: History, histories: map<string, seq<Point>>, accounts: Accounts, mine: seq<string>,
                  daily: bool, start: Date, end: Date, id: string, dates: seq<Date>, points: seq<Point>, after: History)
    requires ValidAccounts(accounts) && id in accounts && IsTimeline(dates, daily, start, end)
    requires Gathered(history, histories, accounts, mine, daily, start, end)
    requires points == Map(PointAt(Filter(Through(end), accounts[id].snapshots)), dates)
    requires AddsPoints(history, points, after)
    ensures Gathered(after, histories[id := points], accounts, mine + [id], daily, start, end)
  {
    forall d | d in dates ensures NotAfter(d, end) {
      assert OnTimeline(daily, start, end, d);
    }
    PointsIgnoreLater(accounts[id].snapshots, end, dates);
    HistoryStep(history, accounts, mine, id, dates, after);
    HistoriesStep(histories, accounts, mine, id, dates);
    hide AddsPoints, IsHistory, AreHistories, Map, Filter, PointAt;
    forall other | IsTimeline(other, daily, start, end) ensures other == dates {
      TimelineIsUnique(other, dates);
    }
  }

  lemma HistoriesStep(histories: map<string, seq<Point>>, accounts: Accounts, mine: seq<string>, id: string, dates: seq<Date>)
    requires id in accounts && AreHistories(histories, accounts, mine, dates)
    ensures AreHistories(histories[id := Map(PointAt(accounts[id].snapshots), dates)], accounts, mine + [id], dates)
  {
    assert forall x :: x in mine + [id] <==> x in mine || x == id;
    hide Map, PointAt;
  }

  lemma CountsStep(counts: map<string, int>, accounts: Accounts, mine: seq<string>, id: string, start: Date, end: Date, n: nat)
    requires id in accounts && AreCounts(counts, accounts, mine, start, end)
    requires n == |Filter((s: Snapshot) => NotAfter(start, s.date), Filter(Through(end), accounts[id].snapshots))|
    ensures AreCounts(counts[id := n], accounts, mine + [id], start, end)
  {
    CountStep(accounts[id].snapshots, start, end);
    assert forall x :: x in mine + [id] <==> x in mine || x == id;
    hide Filter;
  }

  method AggregatePortfolio(accounts: Accounts, user: string, req: Request) returns (response: Response)
    requires ValidAccounts(accounts)
    ensures response == BadRequest <==> |req.accountIds| > 100 || req.start == None || req.end == None
    ensures response.Success? ==>
              forall dates :: IsTimeline(dates, req.interval == "daily", req.start.value, req.end.value) ==>
                IsPortfolio(response.data, accounts, Mine(accounts, user, req.accountIds),
                            req.start.value, req.end.value, dates)
  {
    if |req.accountIds| > 100 || req.start.None? || req.end.None? {
      return BadRequest;
    }
    var start, end, ids, daily := req.start.value, req.end.value, req.accountIds, req.interval == "daily";
    var history: History := map[];
    var histories: map<string, seq<Point>> := map[];
    var counts: map<string, int> := map[];
    ghost var mine: seq<string> := [];
    for k := 0 to |ids|
      invariant mine == Mine(accounts, user, ids[..k])
      invariant Gathered(history, histories, accounts, mine, daily, start, end)
      invariant AreCounts(counts, accounts, mine, start, end)
    {
      var id := ids[k];
      hide IsTimeline, IsHistory, AreHistories, AreCounts, Gathered, Map, PointAt, Filter, InDateOrder;
      assert ids[..k + 1] == ids[..k] + [id];
      FilterSnoc((x: string) => PortfolioHistory.Owned(accounts, user, x), ids[..k], id);
      if !PortfolioHistory.Owned(accounts, user, id) {
        continue;
      }
      var snapshots := Filter(Through(end), accounts[id].snapshots);
      FilterKeepsDateOrder(accounts[id].snapshots, Through(end));
      var n := CountFrom(snapshots, start);
      CountsStep(counts, accounts, mine, id, start, end, n);
      counts := counts[id := n];
      var dates;
      if daily {
        dates := DailyDates(start, end);
      } else {
        dates := MonthlyDates(start, end);
      }
      assert Ascending(dates) by { TimelineAscends(dates, daily, start, end); }
      var points, after := AddAccount(history, snapshots, dates);
      GatherOne(history, histories, accounts, mine, daily, start, end, id, dates, points, after);
      history := after;
      histories := histories[id := points];
      mine := mine + [id];
    }
    assert ids[..|ids|] == ids;
    var combined := SortByDate(history);
    response := Success(Portfolio(combined, histories, counts));
    forall dates | IsTimeline(dates, daily, start, end)
      ensures IsPortfolio(response.data, accounts, mine, start, end, dates)
    {
      ListedTotals(combined, history, accounts, mine, dates);
    }
  }

  lemma TimelineAscends(dates: seq<Date>, daily: bool, start: Date, end: Date)
    requires IsTimeline(dates, daily, start, end)
    ensures Ascending(dates)
  {
  }

  lemma ListedTotals(combined: seq<Point>, history: History, accounts: Accounts, mine: seq<string>, dates: seq<Date>)
    requires Lists(combined, history) && IsHistory(history, accounts, mine, dates)
    ensures HasTotals(combined, accounts, mine, dates)
  {
    hide Format, Total;
  }

  // ---- Order of the combined history ----

  /** One point a date, in the order of the dates, each the sum over the accounts. */
  function Chronicle(accounts: Accounts, mine: seq<string>, dates: seq<Date>): seq<Point> {
    Map((d: Date) => Point(Format(d), Total(accounts, mine, d)), dates)
  }

  lemma {:induction false} SortedListIsUnique(a: seq<Point>, b: seq<Point>)
    requires AscendingTexts(a) && AscendingTexts(b) && forall p :: p in a <==> p in b
    ensures a == b
  {
    hide Text.LexBefore, AscendingTexts;
    NoneOrSome(a);
    NoneOrSome(b);
    if a != [] && b != [] {
      assert a[0] in a && b[0] in b;
      LexAsymmetric(a[0].date, b[0].date);
      RestOfSorted(a);
      RestOfSorted(b);
      SortedListIsUnique(a[1..], b[1..]);
      assert a == [a[0]] + a[1..] && b == [b[0]] + b[1..];
    }
  }

  lemma NoneOrSome(a: seq<Point>)
    ensures a == [] || exists p :: p in a
  {
    if a != [] {
      assert a[0] in a;
    }
  }

  lemma RestOfSorted(a: seq<Point>)
    requires AscendingTexts(a) && a != []
    ensures AscendingTexts(a[1..]) && forall p :: p in a[1..] <==> p in a && p != a[0]
    ensures forall p :: p in a && p != a[0] ==> Text.LexBefore(a[0].date, p.date)
  {
    hide Text.LexBefore;
    assert a == [a[0]] + a[1..];
    LexIrreflexive(a[0].date);
  }

  lemma LexAsymmetric(x: string, y: string)
    ensures !(Text.LexBefore(x, y) && Text.LexBefore(y, x))
  {
    if Text.LexBefore(x, y) && Text.LexBefore(y, x) {
      LexTransitive(x, y, x);
      LexIrreflexive(x);
    }
  }

  lemma ChronicleAscends(accounts: Accounts, mine: seq<string>, dates: seq<Date>)
    ensures AscendingTexts(Chronicle(accounts, mine, dates)) <==> HistoryOrder.TextsAscend(dates)
  {
    hide Text.LexBefore, Format, Total;
    var all := Chronicle(accounts, mine, dates);
    assert forall i :: 0 <= i < |dates| ==> all[i].date == Format(dates[i]);
  }

  lemma ChronicleMembers(combined: seq<Point>, accounts: Accounts, mine: seq<string>, dates: seq<Date>)
    requires HasTotals(combined, accounts, mine, dates) && mine != []
    ensures forall p :: p in combined <==> p in Chronicle(accounts, mine, dates)
  {
    hide Format, Total;
    var all := Chronicle(accounts, mine, dates);
    forall p | p in combined ensures p in all {
      var d :| d in dates && p == Point(Format(d), Total(accounts, mine, d));
      var i :| 0 <= i < |dates| && dates[i] == d;
      assert all[i] == p;
    }
    forall p | p in all ensures p in combined {
      var i :| 0 <= i < |all| && all[i] == p;
      assert dates[i] in dates;
    }
  }

  /**
   * The combined history, sorted by the printed dates, is in the order of the dates exactly if the
   * years of the first and the last date sort when printed: within 0 to 9999 they do.
   */
  lemma CombinedIsChronologicalExactlyWhen(data: Portfolio, accounts: Accounts, mine: seq<string>, daily: bool,
                                          start: Date, end: Date, dates: seq<Date>)
    requires IsTimeline(dates, daily, start, end) && IsPortfolio(data, accounts, mine, start, end, dates)
    requires mine != [] && dates != []
    ensures data.combined == Chronicle(accounts, mine, dates) <==> HistoryOrder.YearsSort(dates[0].year, end.year)
  {
    HistoryOrder.TimelineSortsExactlyWhen(dates, daily, start, end);
    ChronicleMembers(data.combined, accounts, mine, dates);
    ChronicleAscends(accounts, mine, dates);
    hide HistoryOrder.YearsSort, Chronicle, HasTotals, HistoryOrder.TextsAscend, IsTimeline;
    if HistoryOrder.TextsAscend(dates) {
      SortedListIsUnique(data.combined, Chronicle(accounts, mine, dates));
    }
  }

  /** Without an account of the user, or without a date, there is nothing to show. */
  lemma NothingToShow(data: Portfolio, accounts: Accounts, mine: seq<string>, start: Date, end: Date, dates: seq<Date>)
    requires IsPortfolio(data, accounts, mine, start, end, dates)
    ensures mine == [] || dates == [] <==> data.combined == []
  {
    hide Format, Total;
    NoneOrSome(data.combined);
    if mine != [] && dates != [] {
      assert dates[0] in dates;
      assert Point(Format(dates[0]), Total(accounts, mine, dates[0])) in data.combined;
    }
  }
}
