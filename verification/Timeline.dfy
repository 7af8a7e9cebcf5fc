/** The dates of a portfolio timeline and the balance carried forward to each. */
module Timeline {
  import opened Seqs
  import opened Calendar

  ghost predicate Ascending(dates: seq<Date>) {
    forall i, j :: 0 <= i < j < |dates| ==> Before(dates[i], dates[j])
  }

  predicate Within(start: Date, end: Date, d: Date) {
    NotAfter(start, d) && NotAfter(d, end)
  }

  /** The dates a timeline shows: every day, or the first of each month and the end in any case. */
  predicate OnDaily(start: Date, end: Date, d: Date) {
    Within(start, end, d)
  }

  predicate OnMonthly(start: Date, end: Date, d: Date) {
    (Within(start, end, d) && d.day == 1) || d == end
  }

  predicate OnTimeline(daily: bool, start: Date, end: Date, d: Date) {
    if daily then OnDaily(start, end, d) else OnMonthly(start, end, d)
  }

  /** In order, without repetition, and with just the dates of the timeline: there is one such list. */
  ghost predicate IsTimeline(dates: seq<Date>, daily: bool, start: Date, end: Date) {
    Ascending(dates) && forall d: Date :: d in dates <==> OnTimeline(daily, start, end, d)
  }

  // ---- Order of dates ----

  lemma NothingBeforeNextDay(d: Date, x: Date)
    ensures NotAfter(NextDay(d), x) <==> Before(d, x)
  {
    NextDayIsOneLater(d);
    BeforeIsDayOrder(d, x);
    BeforeIsDayOrder(NextDay(d), x);
    BeforeIsDayOrder(x, NextDay(d));
  }

  lemma NoFirstBeforeNextMonth(d: Date, x: Date)
    requires d.day == 1 && x.day == 1
    ensures NotAfter(NextMonthFirst(d), x) <==> Before(d, x)
  {
  }

  lemma AscendingSnoc(dates: seq<Date>, d: Date)
    requires Ascending(dates) && forall x :: x in dates ==> Before(x, d)
    ensures Ascending(dates + [d])
  {
  }

  method DailyDates(start: Date, end: Date) returns (dates: seq<Date>)
    ensures IsTimeline(dates, true, start, end)
  {
    dates := [];
    var d := start;
    while NotAfter(d, end)
      invariant NotAfter(start, d)
      invariant Ascending(dates)
      invariant forall x: Date :: x in dates <==> OnDaily(start, end, x) && Before(x, d)
      decreases DayNumber(end) - DayNumber(d) + 1
    {
      BeforeIsDayOrder(d, end);
      NextDayIsOneLater(d);
      forall x: Date ensures Before(x, NextDay(d)) <==> NotAfter(x, d) {
        NothingBeforeNextDay(d, x);
      }
      AscendingSnoc(dates, d);
      dates := dates + [d];
      d := NextDay(d);
    }
  }

  method MonthlyDates(start: Date, end: Date) returns (dates: seq<Date>)
    ensures IsTimeline(dates, false, start, end)
  {
    dates := [];
    var d := MonthFirst(start);
    while NotAfter(d, end)
      invariant d.day == 1
      invariant Ascending(dates)
      invariant forall x: Date :: x in dates <==> Within(start, end, x) && x.day == 1 && Before(x, d)
      decreases 12 * (end.year - d.year) + end.month - d.month + 1
    {
      forall x: Date | x.day == 1 ensures Before(x, NextMonthFirst(d)) <==> NotAfter(x, d) {
        NoFirstBeforeNextMonth(d, x);
      }
      if NotAfter(start, d) {
        AscendingSnoc(dates, d);
        dates := dates + [d];
      }
      d := NextMonthFirst(d);
    }
    if dates == [] || dates[|dates| - 1] != end {
      forall x | x in dates ensures Before(x, end) {
        var i :| 0 <= i < |dates| && dates[i] == x;
        assert i < |dates| - 1 ==> Before(dates[i], dates[|dates| - 1]);
        assert dates[|dates| - 1] in dates;
      }
      AscendingSnoc(dates, end);
      dates := dates + [end];
    }
  }

  lemma HeadComesFirst(a: seq<Date>)
    requires Ascending(a) && a != []
    ensures forall d :: d in a[1..] <==> d in a && d != a[0]
  {
    assert a == [a[0]] + a[1..];
  }

  lemma EmptyOrMember(a: seq<Date>)
    ensures a == [] || exists d :: d in a
  {
    if a != [] {
      assert a[0] in a;
    }
  }

  /** The list of dates is determined by the request. */
  lemma {:induction false} TimelineIsUnique(a: seq<Date>, b: seq<Date>)
    requires Ascending(a) && Ascending(b) && forall d: Date :: d in a <==> d in b
    ensures a == b
  {
    EmptyOrMember(a);
    EmptyOrMember(b);
    if a != [] && b != [] {
      assert a[0] in b && b[0] in a;
      assert a[0] == b[0];
      HeadComesFirst(a);
      HeadComesFirst(b);
      TimelineIsUnique(a[1..], b[1..]);
      assert a == [a[0]] + a[1..] && b == [b[0]] + b[1..];
    }
  }

  lemma {:induction false} DailyExists(start: Date, end: Date) returns (dates: seq<Date>)
    ensures IsTimeline(dates, true, start, end)
    decreases DayNumber(end) - DayNumber(start) + 1
  {
    BeforeIsDayOrder(start, end);
    if NotAfter(start, end) {
      NextDayIsOneLater(start);
      var later := DailyExists(NextDay(start), end);
      forall x: Date ensures NotAfter(NextDay(start), x) <==> Before(start, x) {
        NothingBeforeNextDay(start, x);
      }
      dates := [start] + later;
      forall j | 0 <= j < |later| ensures Before(start, later[j]) {
        assert later[j] in later;
      }
    } else {
      dates := [];
    }
  }

  lemma {:induction false} FirstsAscend(dates: seq<Date>, end: Date)
    requires Ascending(dates) && forall d :: d in dates ==> NotAfter(d, end)
    ensures Ascending(Filter((d: Date) => d.day == 1 && d != end, dates) + [end])
  {
    var keep := (d: Date) => d.day == 1 && d != end;
    if dates == [] {
    } else {
      FirstsAscend(dates[1..], end);
      FilterMembers(keep, dates[1..]);
      HeadComesFirst(dates);
      var rest := Filter(keep, dates[1..]);
      forall i | 0 <= i < |rest| ensures Before(dates[0], rest[i]) {
        assert rest[i] in dates[1..];
        var j :| 0 <= j < |dates| && dates[j] == rest[i];
      }
      assert Filter(keep, dates) + [end] == (if keep(dates[0]) then [dates[0]] else []) + (rest + [end]);
      assert dates[0] in dates;
    }
  }

  /** Every request has its list of dates. */
  lemma TimelineExists(daily: bool, start: Date, end: Date) returns (dates: seq<Date>)
    ensures IsTimeline(dates, daily, start, end)
  {
    dates := DailyExists(start, end);
    if !daily {
      var keep := (d: Date) => d.day == 1 && d != end;
      FirstsAscend(dates, end);
      FilterMembers(keep, dates);
      dates := Filter(keep, dates) + [end];
    }
  }

  // ---- Balances ----

  datatype Snapshot = Snapshot(date: Date, balance: int)

  ghost predicate InDateOrder(snapshots: seq<Snapshot>) {
    forall i, j :: 0 <= i < j < |snapshots| ==> Before(snapshots[i].date, snapshots[j].date)
  }

  /** `i` is the latest snapshot at or before `d`. */
  ghost predicate IsLatest(snapshots: seq<Snapshot>, d: Date, i: nat) {
    && i < |snapshots| && NotAfter(snapshots[i].date, d)
    && forall j :: 0 <= j < |snapshots| && NotAfter(snapshots[j].date, d) ==> NotAfter(snapshots[j].date, snapshots[i].date)
  }

  /** The balance of the latest snapshot at or before `d`, or zero. */
  ghost predicate IsBalanceAt(snapshots: seq<Snapshot>, d: Date, balance: int) {
    if forall s :: s in snapshots ==> Before(d, s.date) then balance == 0
    else exists i: nat :: IsLatest(snapshots, d, i) && balance == snapshots[i].balance
  }

  function BalanceAt(snapshots: seq<Snapshot>, d: Date): int {
    if snapshots == [] then 0
    else if NotAfter(snapshots[|snapshots| - 1].date, d) then snapshots[|snapshots| - 1].balance
    else BalanceAt(snapshots[..|snapshots| - 1], d)
  }

  /** The snapshots before `p` are the ones at or before `d`. */
  ghost predicate IsPartition(snapshots: seq<Snapshot>, d: Date, p: nat) {
    && p <= |snapshots|
    && (forall i :: 0 <= i < p ==> NotAfter(snapshots[i].date, d))
    && (forall i :: p <= i < |snapshots| ==> Before(d, snapshots[i].date))
  }

  lemma {:induction false} BalanceAtPartition(snapshots: seq<Snapshot>, d: Date, p: nat)
    requires IsPartition(snapshots, d, p)
    ensures BalanceAt(snapshots, d) == if p == 0 then 0 else snapshots[p - 1].balance
  {
    if snapshots != [] && p < |snapshots| {
      BalanceAtPartition(snapshots[..|snapshots| - 1], d, p);
    }
  }

  method PartitionPoint(snapshots: seq<Snapshot>, d: Date) returns (p: nat)
    requires InDateOrder(snapshots)
    ensures IsPartition(snapshots, d, p)
  {
    p := 0;
    var high := |snapshots|;
    while p < high
      invariant p <= high <= |snapshots|
      invariant forall i :: 0 <= i < p ==> NotAfter(snapshots[i].date, d)
      invariant forall i :: high <= i < |snapshots| ==> Before(d, snapshots[i].date)
    {
      var mid := (p + high) / 2;
      if NotAfter(snapshots[mid].date, d) {
        p := mid + 1;
      } else {
        high := mid;
      }
    }
  }

  method ValueAt(snapshots: seq<Snapshot>, d: Date) returns (balance: int)
    requires InDateOrder(snapshots)
    ensures IsBalanceAt(snapshots, d, balance)
    ensures balance == BalanceAt(snapshots, d)
  {
    if snapshots == [] {
      return 0;
    }
    var p := PartitionPoint(snapshots, d);
    balance := if p > 0 then snapshots[p - 1].balance else 0;
    PartitionGivesBalance(snapshots, d, p);
    BalanceAtIsTheBalance(snapshots, d, balance);
  }

  lemma PartitionGivesBalance(snapshots: seq<Snapshot>, d: Date, p: nat)
    requires InDateOrder(snapshots) && IsPartition(snapshots, d, p)
    ensures IsBalanceAt(snapshots, d, if p > 0 then snapshots[p - 1].balance else 0)
  {
    if p > 0 {
      assert snapshots[p - 1] in snapshots && IsLatest(snapshots, d, p - 1);
    } else {
      forall s | s in snapshots ensures Before(d, s.date) {
        var i :| 0 <= i < |snapshots| && snapshots[i] == s;
      }
    }
  }

  lemma OneLatest(snapshots: seq<Snapshot>, d: Date, i: nat, j: nat)
    requires InDateOrder(snapshots) && IsLatest(snapshots, d, i) && IsLatest(snapshots, d, j)
    ensures i == j
  {
    assert !Before(snapshots[i].date, snapshots[j].date) && !Before(snapshots[j].date, snapshots[i].date);
  }

  lemma OneBalanceAt(snapshots: seq<Snapshot>, d: Date, a: int, b: int)
    requires InDateOrder(snapshots) && IsBalanceAt(snapshots, d, a) && IsBalanceAt(snapshots, d, b)
    ensures a == b
  {
    hide InDateOrder, NotAfter;
    if exists s :: s in snapshots && !Before(d, s.date) {
      var i: nat :| IsLatest(snapshots, d, i) && a == snapshots[i].balance;
      var j: nat :| IsLatest(snapshots, d, j) && b == snapshots[j].balance;
      OneLatest(snapshots, d, i, j);
    }
  }

  lemma {:induction false} PartitionExists(snapshots: seq<Snapshot>, d: Date) returns (p: nat)
    requires InDateOrder(snapshots)
    ensures IsPartition(snapshots, d, p)
  {
    var last := |snapshots| - 1;
    if snapshots == [] {
      p := 0;
    } else if NotAfter(snapshots[last].date, d) {
      p := |snapshots|;
      assert forall i :: 0 <= i < last ==> Before(snapshots[i].date, snapshots[last].date);
    } else {
      p := PartitionExists(snapshots[..last], d);
    }
  }

  /** The balance is determined: being the latest snapshot's and being found from the end are the same. */
  lemma BalanceAtIsTheBalance(snapshots: seq<Snapshot>, d: Date, balance: int)
    requires InDateOrder(snapshots)
    ensures IsBalanceAt(snapshots, d, balance) <==> balance == BalanceAt(snapshots, d)
  {
    var p := PartitionExists(snapshots, d);
    BalanceAtPartition(snapshots, d, p);
    PartitionGivesBalance(snapshots, d, p);
    hide IsBalanceAt, BalanceAt, IsPartition;
    if IsBalanceAt(snapshots, d, balance) {
      OneBalanceAt(snapshots, d, balance, BalanceAt(snapshots, d));
    }
  }

  /** Snapshots after the end of the range do not matter to a date within it. */
  lemma {:induction false} LaterSnapshotsDoNotMatter(snapshots: seq<Snapshot>, end: Date, d: Date)
    requires InDateOrder(snapshots) && NotAfter(d, end)
    ensures BalanceAt(Filter((s: Snapshot) => NotAfter(s.date, end), snapshots), d) == BalanceAt(snapshots, d)
  {
    var through := (s: Snapshot) => NotAfter(s.date, end);
    if snapshots == [] {
    } else {
      var last := |snapshots| - 1;
      assert snapshots == snapshots[..last] + [snapshots[last]];
      FilterSnoc(through, snapshots[..last], snapshots[last]);
      if through(snapshots[last]) {
        forall s | s in snapshots ensures through(s) {
          var i :| 0 <= i < |snapshots| && snapshots[i] == s;
          assert i < last ==> Before(snapshots[i].date, snapshots[last].date);
        }
        FilterAll(through, snapshots);
      } else {
        LaterSnapshotsDoNotMatter(snapshots[..last], end, d);
      }
    }
  }

  lemma {:induction false} FilterKeepsDateOrder(snapshots: seq<Snapshot>, keep: Snapshot -> bool)
    requires InDateOrder(snapshots)
    ensures InDateOrder(Filter(keep, snapshots))
  {
    if snapshots == [] {
    } else {
      var last := |snapshots| - 1;
      assert snapshots == snapshots[..last] + [snapshots[last]];
      FilterSnoc(keep, snapshots[..last], snapshots[last]);
      FilterKeepsDateOrder(snapshots[..last], keep);
      FilterMembers(keep, snapshots[..last]);
      hide Filter;
      var kept := Filter(keep, snapshots[..last]);
      forall i | 0 <= i < |kept| ensures Before(kept[i].date, snapshots[last].date) {
        assert kept[i] in snapshots[..last];
      }
    }
  }
}
