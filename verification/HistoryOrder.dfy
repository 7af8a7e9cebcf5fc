/** When the printed dates of a timeline sort like its dates, over all years. */
module HistoryOrder {
  import Seqs
  import opened Calendar
  import opened Text
  import opened DateText
  import opened Timeline

  function Width(n: nat): nat {
    |Number(n, 4)|
  }

  /** Printed in this order, the dates of a timeline from year `y` to year `z` sort. */
  predicate YearsSort(y: int, z: int) {
    if y > 9999 then z > 0 && Width(y) == Width(z)
    else if y >= 0 then z <= 9999
    else if z >= 0 then y == -1 && z <= 9999
    else y == z || (z == y + 1 && Width(-y) > Width(-z))
  }

  // ---- Numbers of different widths ----

  lemma {:induction false} WidthsAscend(n: nat, m: nat, width: nat)
    requires n <= m
    ensures |Number(n, width)| <= |Number(m, width)|
    decreases m, width
  {
    if m > 0 || width > 0 {
      WidthsAscend(n / 10, m / 10, Less(width));
    }
  }

  lemma Carry(n: nat)
    ensures (n + 1) / 10 == n / 10 + (if n % 10 == 9 then 1 else 0)
  {
  }

  /** A number gets wider only from all nines to a one. */
  lemma {:induction false} WidthGrows(n: nat, width: nat)
    requires |Number(n + 1, width)| > |Number(n, width)|
    ensures forall i :: 0 <= i < |Number(n, width)| ==> Number(n, width)[i] == '9'
    ensures Number(n + 1, width)[0] == '1'
    ensures n > 0 || width > 0 ==> n % 10 == 9
    decreases n, width
  {
    var rest := Less(width);
    if n > 0 || width > 0 {
      Carry(n);
      if n % 10 == 9 {
        WidthGrows(n / 10, rest);
        assert Number(n, width) == Number(n / 10, rest) + [Digit(9)];
        assert Number(n + 1, width) == Number(n / 10 + 1, rest) + [Digit((n + 1) % 10)];
      }
    } else {
      assert Number(1, 0) == Number(0, 0) + [Digit(1)];
    }
  }

  lemma WidthGrowsOnce(n: nat)
    requires Width(n + 2) > Width(n + 1)
    ensures Width(n + 1) == Width(n)
  {
    WidthGrows(n + 1, 4);
    assert (n + 1) / 10 == n / 10;
  }

  lemma {:induction false} CrossingExists(y: nat, z: nat) returns (c: nat)
    requires y <= z && Width(y) != Width(z)
    ensures y <= c < z && Width(c + 1) > Width(c)
    decreases z - y
  {
    hide Number;
    WidthsAscend(y, y + 1, 4);
    if Width(y + 1) > Width(y) {
      c := y;
    } else {
      c := CrossingExists(y + 1, z);
    }
  }

  // ---- Two dates of different years ----

  function Rest(d: Date): string {
    "-" + (Number(d.month, 2) + ("-" + Number(d.day, 2)))
  }

  lemma SameYearSorts(a: Date, b: Date)
    requires a.year == b.year && Before(a, b)
    ensures LexBefore(Format(a), Format(b))
  {
    MonthDayTextsSort(a, b);
    LexConcat(YearText(a.year), YearText(b.year), Rest(a), Rest(b));
  }

  /** Within one sign and width, printed years sort by size. */
  lemma OneWidthSorts(a: Date, b: Date, n: nat, m: nat, sign: string)
    requires YearText(a.year) == sign + Number(n, 4) && YearText(b.year) == sign + Number(m, 4)
    requires Width(n) == Width(m) && n != m
    ensures LexBefore(Format(a), Format(b)) <==> n < m
  {
    NumbersSort(n, m, 4);
    NumberReadsBack(n, 4);
    NumberReadsBack(m, 4);
    hide Number, Value, YearText;
    LexIrreflexive(sign);
    LexConcat(sign, sign, Number(n, 4), Number(m, 4));
    assert (sign + Number(n, 4))[|sign|..] == Number(n, 4) && (sign + Number(m, 4))[|sign|..] == Number(m, 4);
    LexConcat(sign + Number(n, 4), sign + Number(m, 4), Rest(a), Rest(b));
  }

  /** At a change of width the wider number, starting with a one, comes first. */
  lemma WiderComesFirst(a: Date, b: Date, n: nat, sign: string)
    requires YearText(a.year) == sign + Number(n, 4) && YearText(b.year) == sign + Number(n + 1, 4)
    requires Width(n + 1) > Width(n) && |sign| == 1
    ensures LexBefore(Format(b), Format(a)) && !LexBefore(Format(a), Format(b))
  {
    WidthGrows(n, 4);
    NumberIsDigits(n, 4);
    assert Format(a)[0] == Format(b)[0] == sign[0];
    assert Format(a)[1] == '9' && Format(b)[1] == '1';
    assert Format(a)[1..][0] == '9' && Format(b)[1..][0] == '1';
  }

  lemma FirstCharSorts(a: Date, b: Date)
    requires YearText(a.year) != "" && YearText(b.year) != "" && YearText(a.year)[0] < YearText(b.year)[0]
    ensures LexBefore(Format(a), Format(b)) && !LexBefore(Format(b), Format(a))
  {
  }

  lemma SignsSort(a: Date, b: Date)
    requires a.year < 0 <= b.year || a.year <= 9999 < b.year
    ensures LexBefore(Format(a), Format(b)) <==> b.year <= 9999
  {
    NumberIsDigits(Seqs.Abs(a.year), 4);
    NumberIsDigits(Seqs.Abs(b.year), 4);
    hide Number;
    if b.year <= 9999 {
      FirstCharSorts(a, b);
    } else {
      FirstCharSorts(b, a);
    }
  }

  // ---- A whole timeline ----

  ghost predicate TextsAscend(dates: seq<Date>) {
    forall i, j :: 0 <= i < j < |dates| ==> LexBefore(Format(dates[i]), Format(dates[j]))
  }

  lemma Misplaced(dates: seq<Date>, a: Date, b: Date)
    requires Ascending(dates) && a in dates && b in dates && Before(a, b)
    requires !LexBefore(Format(a), Format(b))
    ensures !TextsAscend(dates)
  {
    hide LexBefore, Format;
    var i :| 0 <= i < |dates| && dates[i] == a;
    var j :| 0 <= j < |dates| && dates[j] == b;
    assert j < i ==> Before(dates[j], dates[i]);
  }

  lemma FirstAndLast(dates: seq<Date>, daily: bool, start: Date, end: Date)
    requires IsTimeline(dates, daily, start, end) && dates != []
    ensures dates[0] in dates && end in dates && NotAfter(dates[0], end)
    ensures forall d :: d in dates ==> NotAfter(dates[0], d) && NotAfter(d, end)
  {
    assert dates[0] in dates && OnTimeline(daily, start, end, dates[0]);
    assert OnTimeline(daily, start, end, end);
    forall d | d in dates ensures NotAfter(dates[0], d) && NotAfter(d, end) {
      assert OnTimeline(daily, start, end, d);
      var i :| 0 <= i < |dates| && dates[i] == d;
    }
  }

  /** Every month first between the first date and the last is on the timeline. */
  lemma MonthFirstsAreOn(dates: seq<Date>, daily: bool, start: Date, end: Date, d: Date)
    requires IsTimeline(dates, daily, start, end) && dates != []
    requires d.day == 1 && NotAfter(dates[0], d) && NotAfter(d, end)
    ensures d in dates
  {
    assert dates[0] in dates && OnTimeline(daily, start, end, dates[0]);
    assert OnTimeline(daily, start, end, d);
  }

  /** A date of each year from the first date's to the last's. */
  lemma DateOfYear(dates: seq<Date>, daily: bool, start: Date, end: Date, year: int) returns (d: Date)
    requires IsTimeline(dates, daily, start, end) && dates != [] && dates[0].year <= year <= end.year
    ensures d in dates && d.year == year
  {
    FirstAndLast(dates, daily, start, end);
    if year == dates[0].year {
      d := dates[0];
    } else {
      d := CivilDate(year, 1, 1);
      MonthFirstsAreOn(dates, daily, start, end, d);
    }
  }

  lemma PairSorts(a: Date, b: Date, y: int, z: int)
    requires Before(a, b) && y <= a.year && b.year <= z && YearsSort(y, z)
    ensures LexBefore(Format(a), Format(b))
  {
    hide LexBefore, Format, Number;
    if a.year == b.year {
      SameYearSorts(a, b);
    } else if y > 9999 {
      WidthsAscend(y, a.year, 4);
      WidthsAscend(a.year, b.year, 4);
      WidthsAscend(b.year, z, 4);
      OneWidthSorts(a, b, a.year, b.year, "+");
    } else if a.year >= 0 {
      FourDigitYearsSort(a, b);
    } else if b.year >= 0 {
      SignsSort(a, b);
    } else {
      WiderComesFirst(b, a, -b.year, "-");
    }
  }

  /** Of two adjacent years that print in the wrong order one date each is enough. */
  lemma YearsMisplaced(dates: seq<Date>, daily: bool, start: Date, end: Date, year: int)
    requires IsTimeline(dates, daily, start, end) && dates != []
    requires dates[0].year <= year < end.year
    requires if year >= 0 then year == 9999 || (year > 9999 && Width(year + 1) > Width(year))
             else year + 1 < 0 && Width(-year) == Width(-(year + 1))
    ensures !TextsAscend(dates)
  {
    hide IsTimeline;
    var a := DateOfYear(dates, daily, start, end, year);
    var b := DateOfYear(dates, daily, start, end, year + 1);
    if year == 9999 {
      SignsSort(a, b);
    } else if year > 9999 {
      WiderComesFirst(a, b, year, "+");
    } else {
      OneWidthSorts(a, b, -year, -(year + 1), "-");
    }
    TimelineIsAscending(dates, daily, start, end);
    hide LexBefore, Format, TextsAscend, Ascending;
    Misplaced(dates, a, b);
  }

  lemma TimelineIsAscending(dates: seq<Date>, daily: bool, start: Date, end: Date)
    requires IsTimeline(dates, daily, start, end)
    ensures Ascending(dates)
  {
  }

  lemma TimelineMisplaced(dates: seq<Date>, daily: bool, start: Date, end: Date)
    requires IsTimeline(dates, daily, start, end) && dates != []
    requires dates[0].year <= end.year && !YearsSort(dates[0].year, end.year)
    ensures !TextsAscend(dates)
  {
    var y, z := dates[0].year, end.year;
    hide IsTimeline, Number, TextsAscend, Ascending, Format;
    if y > 9999 {
      var c := CrossingExists(y, z);
      YearsMisplaced(dates, daily, start, end, c);
    } else if y >= 0 {
      YearsMisplaced(dates, daily, start, end, 9999);
    } else if z > 9999 {
      FirstAndLast(dates, daily, start, end);
      TimelineIsAscending(dates, daily, start, end);
      SignsSort(dates[0], end);
      Misplaced(dates, dates[0], end);
    } else if z >= 0 {
      FourDigits(2);
      FourDigits(1);
      YearsMisplaced(dates, daily, start, end, -2);
    } else {
      NegativeYearsMisplaced(dates, daily, start, end, y, z);
    }
  }

  lemma NegativeYearsMisplaced(dates: seq<Date>, daily: bool, start: Date, end: Date, y: int, z: int)
    requires IsTimeline(dates, daily, start, end) && dates != []
    requires dates[0].year == y < z == end.year < 0 && !YearsSort(y, z)
    ensures !TextsAscend(dates)
  {
    hide IsTimeline, Number, TextsAscend;
    if z == y + 1 {
      WidthsAscend(-z, -y, 4);
      YearsMisplaced(dates, daily, start, end, y);
    } else {
      WidthsAscend(-y - 1, -y, 4);
      if Width(-y) > Width(-y - 1) {
        WidthGrowsOnce(-y - 2);
        YearsMisplaced(dates, daily, start, end, y + 1);
      } else {
        YearsMisplaced(dates, daily, start, end, y);
      }
    }
  }

  /** Sorting a timeline's dates as texts keeps their order for just these first and last years. */
  lemma TimelineSortsExactlyWhen(dates: seq<Date>, daily: bool, start: Date, end: Date)
    requires IsTimeline(dates, daily, start, end) && dates != []
    ensures TextsAscend(dates) <==> YearsSort(dates[0].year, end.year)
  {
    FirstAndLast(dates, daily, start, end);
    TimelineIsAscending(dates, daily, start, end);
    if YearsSort(dates[0].year, end.year) {
      hide LexBefore, Format, YearsSort, IsTimeline;
      forall i, j | 0 <= i < j < |dates| ensures LexBefore(Format(dates[i]), Format(dates[j])) {
        assert dates[i] in dates && dates[j] in dates && Before(dates[i], dates[j]);
        PairSorts(dates[i], dates[j], dates[0].year, end.year);
      }
    } else {
      hide YearsSort, IsTimeline, TextsAscend;
      TimelineMisplaced(dates, daily, start, end);
    }
  }
}
