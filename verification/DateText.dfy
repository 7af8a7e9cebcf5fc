/** Dates printed as `%Y-%m-%d`, and when the printed dates sort like the dates. */
module DateText {
  import Calendar
  import opened Text
  import Seqs

  function Digit(n: nat): char
    requires n < 10
  {
    (48 + n) as char
  }

  function Less(width: nat): nat {
    if width == 0 then 0 else width - 1
  }

  /** Decimal digits, filled up with zeros to `width`. */
  function Number(n: nat, width: nat): string
    decreases n, width
  {
    if n == 0 && width == 0 then ""
    else Number(n / 10, Less(width)) + [Digit(n % 10)]
  }

  /** Years outside 0 to 9999 carry a sign. */
  function YearText(y: int): string {
    if y < 0 then "-" + Number(-y, 4)
    else if y > 9999 then "+" + Number(y, 4)
    else Number(y, 4)
  }

  function Format(d: Calendar.Date): string {
    YearText(d.year) + ("-" + (Number(d.month, 2) + ("-" + Number(d.day, 2))))
  }

  // ---- Numbers ----

  function Value(s: string): int {
    if s == "" then 0 else 10 * Value(s[..|s| - 1]) + (s[|s| - 1] as int - 48)
  }

  lemma {:induction false} NumberReadsBack(n: nat, width: nat)
    ensures Value(Number(n, width)) == n
    decreases n, width
  {
    if n > 0 || width > 0 {
      var rest := Less(width);
      NumberReadsBack(n / 10, rest);
      assert Number(n, width)[..|Number(n, width)| - 1] == Number(n / 10, rest);
    }
  }

  lemma {:induction false} NumberIsDigits(n: nat, width: nat)
    ensures |Number(n, width)| >= width
    ensures forall i :: 0 <= i < |Number(n, width)| ==> '0' <= Number(n, width)[i] <= '9'
    decreases n, width
  {
    if n > 0 || width > 0 {
      NumberIsDigits(n / 10, Less(width));
    }
  }

  lemma FourDigits(y: nat)
    requires y <= 9999
    ensures |Number(y, 4)| == 4
  {
    assert y / 10 <= 999 && y / 10 / 10 <= 99 && y / 10 / 10 / 10 <= 9;
    assert Number(y / 10 / 10 / 10 / 10, 0) == "";
    assert |Number(y / 10 / 10 / 10, 1)| == 1;
    assert |Number(y / 10 / 10, 2)| == 2;
    assert |Number(y / 10, 3)| == 3;
  }

  lemma TwoDigits(n: nat)
    requires n <= 99
    ensures |Number(n, 2)| == 2
  {
    assert n / 10 <= 9;
    assert Number(n / 10 / 10, 0) == "";
    assert |Number(n / 10, 1)| == 1;
  }

  // ---- Lexicographic order ----

  lemma {:induction false} LexConcat(a: string, b: string, x: string, y: string)
    requires |a| == |b|
    ensures LexBefore(a + x, b + y) <==> LexBefore(a, b) || (a == b && LexBefore(x, y))
  {
    if a == "" {
      assert a + x == x && b + y == y;
    } else {
      assert (a + x)[1..] == a[1..] + x && (b + y)[1..] == b[1..] + y;
      assert a == [a[0]] + a[1..] && b == [b[0]] + b[1..];
      LexConcat(a[1..], b[1..], x, y);
    }
  }

  lemma {:induction false} LexIrreflexive(a: string)
    ensures !LexBefore(a, a)
  {
    if a == "" {
    } else {
      LexIrreflexive(a[1..]);
    }
  }

  lemma {:induction false} LexTotal(a: string, b: string)
    ensures LexBefore(a, b) || LexBefore(b, a) || a == b
  {
    if a != "" && b != "" {
      LexTotal(a[1..], b[1..]);
      assert a == [a[0]] + a[1..] && b == [b[0]] + b[1..];
    }
  }

  lemma {:induction false} LexTransitive(a: string, b: string, c: string)
    requires LexBefore(a, b) && LexBefore(b, c)
    ensures LexBefore(a, c)
  {
    if a != "" && a[0] == b[0] == c[0] {
      LexTransitive(a[1..], b[1..], c[1..]);
    }
  }

  lemma {:induction false} LastDigit(n: nat, width: nat)
    requires n > 0 || width > 0
    ensures Number(n, width) == Number(n / 10, Less(width)) + [Digit(n % 10)]
    ensures Value([Digit(n % 10)]) == n % 10
  {
    assert [Digit(n % 10)][..0] == "";
  }

  /** Numbers printed equally wide sort as numbers. */
  lemma {:induction false} NumbersSort(n: nat, m: nat, width: nat)
    requires |Number(n, width)| == |Number(m, width)|
    ensures LexBefore(Number(n, width), Number(m, width)) <==> n < m
    decreases n, width
  {
    hide Number, LexBefore, Value, Digit;
    OnlyZeroIsEmpty(n, width);
    OnlyZeroIsEmpty(m, width);
    if n == 0 && width == 0 {
      LexBeforeNothing("");
    } else {
      LastDigit(n, width);
      LastDigit(m, width);
      var a, b := Number(n / 10, Less(width)), Number(m / 10, Less(width));
      NumbersSort(n / 10, m / 10, Less(width));
      NumberReadsBack(n / 10, Less(width));
      NumberReadsBack(m / 10, Less(width));
      LexConcat(a, b, [Digit(n % 10)], [Digit(m % 10)]);
      DigitsSort(n % 10, m % 10);
    }
  }

  lemma OnlyZeroIsEmpty(n: nat, width: nat)
    ensures Number(n, width) == "" <==> n == 0 && width == 0
  {
  }

  lemma LexBeforeNothing(s: string)
    ensures !LexBefore(s, "")
  {
  }

  lemma DigitsSort(a: nat, b: nat)
    requires a < 10 && b < 10
    ensures LexBefore([Digit(a)], [Digit(b)]) <==> a < b
  {
  }

  // ---- Dates ----

  lemma MonthDayTextsSort(a: Calendar.Date, b: Calendar.Date)
    ensures var x, y := "-" + (Number(a.month, 2) + ("-" + Number(a.day, 2))), "-" + (Number(b.month, 2) + ("-" + Number(b.day, 2)));
            && |x| == |y| == 6
            && (LexBefore(x, y) <==> a.month < b.month || (a.month == b.month && a.day < b.day))
  {
    TwoDigits(a.month);
    TwoDigits(b.month);
    TwoDigits(a.day);
    TwoDigits(b.day);
    NumbersSort(a.month, b.month, 2);
    NumbersSort(a.day, b.day, 2);
    NumberReadsBack(a.month, 2);
    NumberReadsBack(b.month, 2);
    hide Number;
    LexConcat("-", "-", Number(a.month, 2) + ("-" + Number(a.day, 2)), Number(b.month, 2) + ("-" + Number(b.day, 2)));
    LexConcat(Number(a.month, 2), Number(b.month, 2), "-" + Number(a.day, 2), "-" + Number(b.day, 2));
    LexConcat("-", "-", Number(a.day, 2), Number(b.day, 2));
    LexIrreflexive("-");
  }

  /** Within the years 0 to 9999 the printed dates sort like the dates. */
  lemma FourDigitYearsSort(a: Calendar.Date, b: Calendar.Date)
    requires 0 <= a.year <= 9999 && 0 <= b.year <= 9999
    ensures LexBefore(Format(a), Format(b)) <==> Calendar.Before(a, b)
  {
    FourDigits(a.year);
    FourDigits(b.year);
    NumbersSort(a.year, b.year, 4);
    NumberReadsBack(a.year, 4);
    NumberReadsBack(b.year, 4);
    MonthDayTextsSort(a, b);
    hide Number;
    LexConcat(Number(a.year, 4), Number(b.year, 4), "-" + (Number(a.month, 2) + ("-" + Number(a.day, 2))),
              "-" + (Number(b.month, 2) + ("-" + Number(b.day, 2))));
  }

  /** Digits of a number. */
  predicate IsNumeral(s: string, n: int) {
    Value(s) == n && forall i :: 0 <= i < |s| ==> '0' <= s[i] <= '9'
  }

  /** What is printed reads year, month and day with dashes between them, a sign before a year of other than four digits. */
  lemma DateReadsBack(d: Calendar.Date)
    ensures var s := Format(d);
            var n := |s|;
            && n >= 10 && s[n - 3] == '-' && s[n - 6] == '-'
            && IsNumeral(s[n - 2..], d.day) && IsNumeral(s[n - 5..n - 3], d.month)
            && (if 0 <= d.year <= 9999 then n == 10 && IsNumeral(s[..4], d.year)
                else s[0] == (if d.year < 0 then '-' else '+') && IsNumeral(s[1..n - 6], Seqs.Abs(d.year)))
  {
    hide Number, Value;
    var y, m, k := YearText(d.year), Number(d.month, 2), Number(d.day, 2);
    var s := y + ("-" + (m + ("-" + k)));
    NumberReadsBack(d.month, 2);
    NumberReadsBack(d.day, 2);
    NumberIsDigits(d.month, 2);
    NumberIsDigits(d.day, 2);
    TwoDigits(d.month);
    TwoDigits(d.day);
    YearReadsBack(d.year);
    assert s[|s| - 2..] == k && s[|s| - 5..|s| - 3] == m && s[..|s| - 6] == y;
    assert s[1..|s| - 6] == y[1..];
  }

  lemma YearReadsBack(year: int)
    ensures var y := YearText(year);
            if 0 <= year <= 9999 then |y| == 4 && IsNumeral(y, year)
            else |y| >= 5 && y[0] == (if year < 0 then '-' else '+') && IsNumeral(y[1..], Seqs.Abs(year))
  {
    hide Number, Value;
    var n := Seqs.Abs(year);
    NumberReadsBack(n, 4);
    NumberIsDigits(n, 4);
    if n <= 9999 {
      FourDigits(n);
    }
    assert ("-" + Number(n, 4))[1..] == Number(n, 4) && ("+" + Number(n, 4))[1..] == Number(n, 4);
  }

  lemma YearTextIsInjective(y: int, z: int)
    requires YearText(y) == YearText(z)
    ensures y == z
  {
    var n, m := Seqs.Abs(y), Seqs.Abs(z);
    NumberIsDigits(n, 4);
    NumberIsDigits(m, 4);
    NumberReadsBack(n, 4);
    NumberReadsBack(m, 4);
    hide Number, Value;
    assert ("-" + Number(n, 4))[1..] == Number(n, 4) && ("+" + Number(n, 4))[1..] == Number(n, 4);
    assert ("-" + Number(m, 4))[1..] == Number(m, 4) && ("+" + Number(m, 4))[1..] == Number(m, 4);
    assert YearText(y)[0] == YearText(z)[0];
  }

  /** No two dates print alike, whatever their years. */
  lemma FormatIsInjective(a: Calendar.Date, b: Calendar.Date)
    requires Format(a) == Format(b)
    ensures a == b
  {
    MonthDayTextsSort(a, b);
    MonthDayTextsSort(b, a);
    hide Number;
    var x, y := "-" + (Number(a.month, 2) + ("-" + Number(a.day, 2))), "-" + (Number(b.month, 2) + ("-" + Number(b.day, 2)));
    assert YearText(a.year) == Format(a)[..|Format(a)| - 6] == YearText(b.year);
    assert x == Format(a)[|Format(a)| - 6..] == y;
    LexIrreflexive(x);
    hide YearText;
    YearTextIsInjective(a.year, b.year);
  }
}
