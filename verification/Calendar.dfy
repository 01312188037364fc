/**
 * UTC calendar dates of time values (milliseconds since the epoch), after section
 * 21.4.1 of ECMA-262, and the day arithmetic that the dashboard does with them.
 */
module Calendar {
  import opened Decimal

  const DAY_MS := 86_400_000

  function Day(t: int): int {
    t / DAY_MS
  }

  predicate IsLeap(y: int) {
    y % 4 == 0 && (y % 100 != 0 || y % 400 == 0)
  }

  function DaysInYear(y: int): int {
    if IsLeap(y) then 366 else 365
  }

  function DayFromYear(y: int): int {
    365 * (y - 1970) + (y - 1969) / 4 - (y - 1901) / 100 + (y - 1601) / 400
  }

  lemma YearLength(y: int)
    ensures DayFromYear(y + 1) == DayFromYear(y) + DaysInYear(y)
  {
    EveryFourth(y);
    EveryHundredth(y);
    EveryFourHundredth(y);
    CenturiesAreFourths(y);
  }

  lemma EveryFourth(y: int)
    ensures (y + 1 - 1969) / 4 == (y - 1969) / 4 + if y % 4 == 0 then 1 else 0
  {
  }

  lemma EveryHundredth(y: int)
    ensures (y + 1 - 1901) / 100 == (y - 1901) / 100 + if y % 100 == 0 then 1 else 0
  {
  }

  lemma EveryFourHundredth(y: int)
    ensures (y + 1 - 1601) / 400 == (y - 1601) / 400 + if y % 400 == 0 then 1 else 0
  {
  }

  lemma CenturiesAreFourths(y: int)
    ensures y % 400 == 0 ==> y % 100 == 0
    ensures y % 100 == 0 ==> y % 4 == 0
  {
  }

  lemma {:induction false} YearsGrow(a: int, b: int)
    requires a <= b
    ensures DayFromYear(b) >= DayFromYear(a) + 365 * (b - a)
    decreases b - a
  {
    if a < b {
      YearsGrow(a, b - 1);
      YearLength(b - 1);
    }
  }

  /** The last year that has begun by day `d`, looking from year `y` on. */
  function LastYear(y: int, d: int): (r: int)
    requires DayFromYear(y) <= d
    ensures DayFromYear(r) <= d < DayFromYear(r + 1)
    decreases d - DayFromYear(y)
  {
    YearLength(y);
    if DayFromYear(y + 1) <= d then LastYear(y + 1, d) else y
  }

  function YearOfDay(d: int): (y: int)
    ensures DayFromYear(y) <= d < DayFromYear(y + 1)
  {
    var start := if d >= 0 then 1970 else 1970 + (d - 364) / 365;
    YearsGrow(start, 1970);
    LastYear(start, d)
  }

  lemma YearIsUnique(d: int, y: int)
    requires DayFromYear(y) <= d < DayFromYear(y + 1)
    ensures YearOfDay(d) == y
  {
    hide DayFromYear;
    var r := YearOfDay(d);
    if r < y {
      YearsGrow(r + 1, y);
    } else if y < r {
      YearsGrow(y + 1, r);
    }
  }

  function MonthStart(m: int, leap: bool): int
    requires 0 <= m <= 12
  {
    var extra := if leap && m >= 2 then 1 else 0;
    [0, 31, 59, 90, 120, 151, 181, 212, 243, 273, 304, 334, 365][m] + extra
  }

  function MonthAt(m: nat, k: nat, leap: bool): (r: nat)
    requires m < 12 && MonthStart(m, leap) <= k < MonthStart(12, leap)
    ensures r < 12 && MonthStart(r, leap) <= k < MonthStart(r + 1, leap)
    decreases 12 - m
  {
    if MonthStart(m + 1, leap) <= k then MonthAt(m + 1, k, leap) else m
  }

  lemma MonthLength(m: nat, leap: bool)
    requires m < 12
    ensures MonthStart(m, leap) < MonthStart(m + 1, leap) <= MonthStart(m, leap) + 31
  {
  }

  datatype Date = Date(year: int, month: nat, day: nat)

  /** The day's number in its year, from 0. */
  function DayInYear(d: int): (k: nat)
    ensures k < MonthStart(12, IsLeap(YearOfDay(d))) && d == DayFromYear(YearOfDay(d)) + k
  {
    YearLength(YearOfDay(d));
    d - DayFromYear(YearOfDay(d))
  }

  /** getUTCFullYear, getUTCMonth (from 0) and getUTCDate (from 1) of a day. */
  function DateOf(d: int): (r: Date)
    ensures r.month < 12 && 1 <= r.day <= 31
  {
    var y, k := YearOfDay(d), DayInYear(d);
    var m := MonthAt(0, k, IsLeap(y));
    MonthLength(m, IsLeap(y));
    Date(y, m, k - MonthStart(m, IsLeap(y)) + 1)
  }

  function MakeDay(year: int, month: nat, day: int): int
    requires month < 12
  {
    DayFromYear(year) + MonthStart(month, IsLeap(year)) + day - 1
  }

  /** Date.UTC(year, month, day): the years 0 to 99 are taken as 1900 to 1999. */
  function DateUtc(year: int, month: nat, day: int): int
    requires month < 12
  {
    MakeDay(if 0 <= year <= 99 then 1900 + year else year, month, day) * DAY_MS
  }

  function StartOfUtcDay(t: int): int {
    var d := DateOf(Day(t));
    DateUtc(d.year, d.month, d.day)
  }

  function FormatDate(d: Date): string {
    PadStart(ToDecimal(d.year), 4, '0') + "-" + PadStart(ToDecimal(d.month + 1), 2, '0') + "-" + PadStart(ToDecimal(d.day), 2, '0')
  }

  function FormatDay(d: int): string {
    FormatDate(DateOf(d))
  }

  // ---------------------------------------------------------------------
  // Dates and days
  // ---------------------------------------------------------------------

  lemma MakeDayOfDate(d: int)
    ensures MakeDay(DateOf(d).year, DateOf(d).month, DateOf(d).day) == d
  {
  }

  lemma AnotherCentury(year: nat, month: nat, day: int)
    requires month < 12
    ensures MakeDay(1900 + year, month, day) > MakeDay(year, month, day)
  {
    YearsGrow(year, 1900 + year);
  }

  lemma WholeDays(d: int, t: int)
    ensures d * DAY_MS == t / DAY_MS * DAY_MS <==> d == Day(t)
    ensures d * DAY_MS % DAY_MS == 0
  {
  }

  /** The start of the day is the time rounded down to whole days, except in the years 0 to 99. */
  lemma StartOfUtcDayIff(t: int)
    ensures StartOfUtcDay(t) == t / DAY_MS * DAY_MS <==> !(0 <= DateOf(Day(t)).year <= 99)
    ensures StartOfUtcDay(t) % DAY_MS == 0
  {
    hide DateOf, MakeDay, Day;
    var d := DateOf(Day(t));
    MakeDayOfDate(Day(t));
    if 0 <= d.year <= 99 {
      AnotherCentury(d.year, d.month, d.day);
    }
    WholeDays(MakeDay(if 0 <= d.year <= 99 then 1900 + d.year else d.year, d.month, d.day), t);
  }

  /** Years, then months, then days. */
  predicate Earlier(a: Date, b: Date) {
    a.year < b.year || (a.year == b.year && (a.month < b.month || (a.month == b.month && a.day < b.day)))
  }

  lemma MonthsGrow(a: nat, b: nat, leap: bool)
    requires a < b <= 12
    ensures MonthStart(a + 1, leap) <= MonthStart(b, leap)
  {
  }

  /** `r` is the date of day `d`, in bounds that need no search. */
  predicate Spans(r: Date, d: int) {
    && r.month < 12
    && DayFromYear(r.year) <= d < DayFromYear(r.year + 1)
    && MonthStart(r.month, IsLeap(r.year)) <= d - DayFromYear(r.year) < MonthStart(r.month + 1, IsLeap(r.year))
    && d == MakeDay(r.year, r.month, r.day)
  }

  lemma DateSpansDay(d: int)
    ensures Spans(DateOf(d), d)
  {
  }

  lemma EarlierSpan(p: Date, q: Date, a: int, b: int)
    requires Spans(p, a) && Spans(q, b) && Earlier(p, q)
    ensures a < b
  {
    if p.year < q.year {
      YearsGrow(p.year + 1, q.year);
    } else if p.month < q.month {
      MonthsGrow(p.month, q.month, IsLeap(p.year));
    }
  }

  lemma DatesAreOrdered(a: int, b: int)
    ensures a < b <==> Earlier(DateOf(a), DateOf(b))
    ensures a == b <==> DateOf(a) == DateOf(b)
  {
    DateSpansDay(a);
    DateSpansDay(b);
    if Earlier(DateOf(a), DateOf(b)) {
      EarlierSpan(DateOf(a), DateOf(b), a, b);
    } else if Earlier(DateOf(b), DateOf(a)) {
      EarlierSpan(DateOf(b), DateOf(a), b, a);
    }
  }

  /** Day 0 is 1 January 1970. */
  lemma Epoch()
    ensures DateOf(0) == Date(1970, 0, 1) && MakeDay(1970, 0, 1) == 0
  {
    hide DateOf, LastYear, YearOfDay, MonthAt;
    FirstOfJanuary(1970);
    assert DayFromYear(1970) == 0;
  }

  /** The years and months of the Gregorian calendar. */
  lemma GregorianLengths(y: int, m: nat)
    requires m < 12
    ensures var leap := y % 4 == 0 && (y % 100 != 0 || y % 400 == 0);
            && MakeDay(y + 1, 0, 1) - MakeDay(y, 0, 1) == (if leap then 366 else 365)
            && MonthStart(m + 1, IsLeap(y)) - MonthStart(m, IsLeap(y)) ==
               [31, if leap then 29 else 28, 31, 30, 31, 30, 31, 31, 30, 31, 30, 31][m]
  {
    YearLength(y);
    hide DayFromYear;
  }

  /** Every date of the calendar is the date of its day. */
  lemma DateOfMakeDay(y: int, m: nat, d: nat)
    requires m < 12 && 1 <= d <= MonthStart(m + 1, IsLeap(y)) - MonthStart(m, IsLeap(y))
    ensures DateOf(MakeDay(y, m, d)) == Date(y, m, d)
  {
    var k := MakeDay(y, m, d);
    YearLength(y);
    MonthsInYear(m, IsLeap(y));
    assert Spans(Date(y, m, d), k);
    DateSpansDay(k);
    if Earlier(Date(y, m, d), DateOf(k)) {
      EarlierSpan(Date(y, m, d), DateOf(k), k, k);
    } else if Earlier(DateOf(k), Date(y, m, d)) {
      EarlierSpan(DateOf(k), Date(y, m, d), k, k);
    }
  }

  lemma MonthsInYear(m: nat, leap: bool)
    requires m < 12
    ensures 0 <= MonthStart(m, leap) < MonthStart(m + 1, leap) <= if leap then 366 else 365
  {
  }

  // ---------------------------------------------------------------------
  // The text of a day
  // ---------------------------------------------------------------------

  function StripZeros(s: string): string {
    if s != [] && s[0] == '0' then StripZeros(s[1..]) else s
  }

  lemma {:induction false} StripUndoesPad(s: string, width: nat)
    requires s != [] && s[0] != '0'
    ensures StripZeros(PadStart(s, width, '0')) == s
  {
    if |s| < width {
      StripUndoesPad(s, width - 1);
      assert PadStart(s, width, '0')[1..] == PadStart(s, width - 1, '0');
    }
  }

  lemma {:induction false} StripKeepsDigits(s: string)
    requires AllDigits(s)
    ensures AllDigits(StripZeros(s))
  {
    if s != [] {
      StripKeepsDigits(s[1..]);
    }
  }

  function YearText(y: int): string {
    PadStart(ToDecimal(y), 4, '0')
  }

  lemma YearTextForms(y: int)
    ensures y < 0 ==> StripZeros(YearText(y)) == ToDecimal(y) && StripZeros(YearText(y))[0] == '-'
    ensures y >= 0 ==> AllDigits(YearText(y)) && NatValue(YearText(y)) == y && AllDigits(StripZeros(YearText(y)))
  {
    if y < 0 {
      StripUndoesPad(ToDecimal(y), 4);
    } else {
      PaddingKeepsValue(Digits(y), 4);
      DigitsHaveValue(y);
      StripKeepsDigits(YearText(y));
    }
  }

  lemma YearTextIsInjective(x: int, y: int)
    requires YearText(x) == YearText(y)
    ensures x == y
  {
    YearTextForms(x);
    YearTextForms(y);
    if x < 0 && y < 0 {
      ParseIntOfDecimal(x);
      ParseIntOfDecimal(y);
    }
  }

  lemma {:induction false} DigitCount(n: nat, bound: nat, width: nat)
    requires width >= 1 && bound >= 1 && n < 10 * bound
    requires width == 1 ==> bound == 1
    requires width == 2 ==> bound == 10
    requires width == 3 ==> bound == 100
    requires width == 4 ==> bound == 1000
    requires width <= 4
    ensures |Digits(n)| <= width
  {
    if n >= 10 {
      DigitCount(n / 10, bound / 10, width - 1);
    }
  }

  /** The two-digit month or day. */
  lemma TwoDigits(n: nat)
    requires n < 100
    ensures var s := PadStart(ToDecimal(n), 2, '0'); |s| == 2 && AllDigits(s) && NatValue(s) == n
  {
    DigitCount(n, 10, 2);
    DigitsHaveValue(n);
    PaddingKeepsValue(Digits(n), 2);
  }

  /** Everything after the year. */
  function MonthDayText(d: Date): string {
    "-" + (PadStart(ToDecimal(d.month + 1), 2, '0') + ("-" + PadStart(ToDecimal(d.day), 2, '0')))
  }

  lemma JoinedByDashes(y: string, m: string, d: string)
    ensures y + "-" + m + "-" + d == y + ("-" + (m + ("-" + d)))
  {
  }

  lemma FormatDateSplits(r: Date)
    requires r.month < 12 && 1 <= r.day <= 31
    ensures FormatDate(r) == YearText(r.year) + MonthDayText(r)
    ensures |MonthDayText(r)| == 6
  {
    TwoDigits(r.month + 1);
    TwoDigits(r.day);
    JoinedByDashes(YearText(r.year), PadStart(ToDecimal(r.month + 1), 2, '0'), PadStart(ToDecimal(r.day), 2, '0'));
  }

  lemma ConcatSplits<T>(a: seq<T>, b: seq<T>, c: seq<T>, d: seq<T>)
    requires a + b == c + d && (|a| == |c| || |b| == |d|)
    ensures a == c && b == d
  {
    assert |a + b| == |c + d|;
    assert a == (a + b)[..|a|] == c;
    assert b == (a + b)[|a|..] == d;
  }

  /** Two days with the same text are the same day. */
  lemma FormatDayIsInjective(a: int, b: int)
    requires FormatDay(a) == FormatDay(b)
    ensures a == b
  {
    var p, q := DateOf(a), DateOf(b);
    FormatDateSplits(p);
    FormatDateSplits(q);
    ConcatSplits(YearText(p.year), MonthDayText(p), YearText(q.year), MonthDayText(q));
    YearTextIsInjective(p.year, q.year);
    MonthDayDetermines(p, q);
    DatesAreOrdered(a, b);
  }

  lemma MonthDayDetermines(p: Date, q: Date)
    requires p.month < 12 && q.month < 12 && 1 <= p.day <= 31 && 1 <= q.day <= 31
    requires MonthDayText(p) == MonthDayText(q)
    ensures p.month == q.month && p.day == q.day
  {
    var m, n := PadStart(ToDecimal(p.month + 1), 2, '0'), PadStart(ToDecimal(q.month + 1), 2, '0');
    var x, y := PadStart(ToDecimal(p.day), 2, '0'), PadStart(ToDecimal(q.day), 2, '0');
    TwoDigits(p.month + 1);
    TwoDigits(q.month + 1);
    TwoDigits(p.day);
    TwoDigits(q.day);
    ConcatSplits("-", m + ("-" + x), "-", n + ("-" + y));
    ConcatSplits(m, "-" + x, n, "-" + y);
    ConcatSplits("-", x, "-", y);
  }

  /** Comparison of strings, code unit by code unit. */
  predicate LexLess(a: string, b: string) {
    b != [] && (a == [] || a[0] < b[0] || (a[0] == b[0] && LexLess(a[1..], b[1..])))
  }

  lemma {:induction false} LexConcat(a: string, b: string, c: string, d: string)
    requires |a| == |c|
    ensures LexLess(a + b, c + d) <==> LexLess(a, c) || (a == c && LexLess(b, d))
  {
    if a == [] {
      assert a + b == b && c + d == d;
    } else {
      assert (a + b)[1..] == a[1..] + b && (c + d)[1..] == c[1..] + d;
      assert a == c <==> a[0] == c[0] && a[1..] == c[1..];
      LexConcat(a[1..], b, c[1..], d);
    }
  }

  lemma {:induction false} LexDigits(a: string, b: string)
    requires |a| == |b| && AllDigits(a) && AllDigits(b)
    ensures LexLess(a, b) <==> NatValue(a) < NatValue(b)
    ensures a == b <==> NatValue(a) == NatValue(b)
  {
    if a != [] {
      var n := |a| - 1;
      LexDigits(a[..n], b[..n]);
      LexConcat(a[..n], a[n..], b[..n], b[n..]);
      assert a == a[..n] + a[n..] && b == b[..n] + b[n..];
      assert LexLess(a[n..], b[n..]) <==> a[n] < b[n];
    }
  }

  lemma LexDash(a: string, b: string)
    ensures LexLess("-" + a, "-" + b) <==> LexLess(a, b)
  {
    assert ("-" + a)[1..] == a && ("-" + b)[1..] == b;
  }

  lemma MonthDayOrder(p: Date, q: Date)
    requires p.month < 12 && q.month < 12 && 1 <= p.day <= 31 && 1 <= q.day <= 31
    ensures LexLess(MonthDayText(p), MonthDayText(q)) <==> p.month < q.month || (p.month == q.month && p.day < q.day)
  {
    hide PadStart, ToDecimal, NatValue, LexLess;
    var m, n := PadStart(ToDecimal(p.month + 1), 2, '0'), PadStart(ToDecimal(q.month + 1), 2, '0');
    var x, y := PadStart(ToDecimal(p.day), 2, '0'), PadStart(ToDecimal(q.day), 2, '0');
    TwoDigits(p.month + 1);
    TwoDigits(q.month + 1);
    TwoDigits(p.day);
    TwoDigits(q.day);
    LexDash(m + ("-" + x), n + ("-" + y));
    LexConcat(m, "-" + x, n, "-" + y);
    LexDash(x, y);
    LexDigits(m, n);
    LexDigits(x, y);
  }

  lemma FourDigits(y: int)
    requires 0 <= y <= 9999
    ensures |YearText(y)| == 4 && AllDigits(YearText(y)) && NatValue(YearText(y)) == y
  {
    DigitCount(y, 1000, 4);
    YearTextForms(y);
  }

  lemma TwoDigitsAt(n: nat)
    requires n < 100
    ensures var s := PadStart(ToDecimal(n), 2, '0');
            |s| == 2 && s[0] as int == '0' as int + n / 10 && s[1] as int == '0' as int + n % 10
  {
    TwoDigits(n);
    var s := PadStart(ToDecimal(n), 2, '0');
    assert s[..1][..0] == [];
    assert NatValue(s) == 10 * NatValue(s[..1]) + DigitValue(s[1]);
    assert NatValue(s[..1]) == DigitValue(s[0]);
  }

  lemma FourDigitsAt(y: int)
    requires 0 <= y <= 9999
    ensures var s := YearText(y);
            && |s| == 4
            && s[0] as int == '0' as int + y / 1000 && s[1] as int == '0' as int + y / 100 % 10
            && s[2] as int == '0' as int + y / 10 % 10 && s[3] as int == '0' as int + y % 10
  {
    FourDigits(y);
    var s := YearText(y);
    hide YearText;
    assert s[..3][..2] == s[..2] && s[..2][..1] == s[..1] && s[..1][..0] == [];
    assert NatValue(s) == 10 * NatValue(s[..3]) + DigitValue(s[3]);
    assert NatValue(s[..3]) == 10 * NatValue(s[..2]) + DigitValue(s[2]);
    assert NatValue(s[..2]) == 10 * NatValue(s[..1]) + DigitValue(s[1]);
    assert NatValue(s[..1]) == DigitValue(s[0]);
    hide NatValue;
    Quotients(DigitValue(s[0]), DigitValue(s[1]), DigitValue(s[2]), DigitValue(s[3]), y);
  }

  lemma Quotients(a: nat, b: nat, c: nat, d: nat, y: nat)
    requires a < 10 && b < 10 && c < 10 && d < 10 && y == 10 * (10 * (10 * a + b) + c) + d
    ensures y / 1000 == a && y / 100 % 10 == b && y / 10 % 10 == c && y % 10 == d
  {
    assert y / 10 == 10 * (10 * a + b) + c;
    assert y / 100 == 10 * a + b;
  }

  /** YYYY-MM-DD, digit by digit, for years of up to four digits. */
  lemma FormatDayTells(d: int)
    requires 0 <= DateOf(d).year <= 9999
    ensures var s, r := FormatDay(d), DateOf(d);
      && |s| == 10 && s[4] == '-' && s[7] == '-'
      && s[0] as int == '0' as int + r.year / 1000 && s[1] as int == '0' as int + r.year / 100 % 10
      && s[2] as int == '0' as int + r.year / 10 % 10 && s[3] as int == '0' as int + r.year % 10
      && s[5] as int == '0' as int + (r.month + 1) / 10 && s[6] as int == '0' as int + (r.month + 1) % 10
      && s[8] as int == '0' as int + r.day / 10 && s[9] as int == '0' as int + r.day % 10
  {
    hide DateOf, ToDecimal, PadStart;
    FourDigitsAt(DateOf(d).year);
    TwoDigitsAt(DateOf(d).month + 1);
    TwoDigitsAt(DateOf(d).day);
  }

  /** From year 0 to year 9999 the texts sort as the days do. */
  lemma FormatDayKeepsOrder(a: int, b: int)
    requires 0 <= DateOf(a).year <= 9999 && 0 <= DateOf(b).year <= 9999
    ensures LexLess(FormatDay(a), FormatDay(b)) <==> a < b
  {
    hide DateOf, FormatDate, YearText, MonthDayText, LexLess, NatValue;
    var p, q := DateOf(a), DateOf(b);
    FormatDateSplits(p);
    FormatDateSplits(q);
    FourDigits(p.year);
    FourDigits(q.year);
    LexConcat(YearText(p.year), MonthDayText(p), YearText(q.year), MonthDayText(q));
    LexDigits(YearText(p.year), YearText(q.year));
    MonthDayOrder(p, q);
    DatesAreOrdered(a, b);
  }

  lemma FirstOfJanuary(y: int)
    ensures DateOf(DayFromYear(y)) == Date(y, 0, 1)
  {
    YearLength(y);
    YearIsUnique(DayFromYear(y), y);
  }

  /** The year 10000 sorts before the year 9999. */
  lemma FiveDigitYearsSortFirst()
    ensures LexLess(FormatDay(DayFromYear(10000)), FormatDay(DayFromYear(9999)))
    ensures DayFromYear(9999) < DayFromYear(10000)
  {
    FirstOfJanuary(9999);
    FirstOfJanuary(10000);
    FormatDateSplits(Date(9999, 0, 1));
    FormatDateSplits(Date(10000, 0, 1));
    YearTextsAtTheBound();
  }

  lemma YearTextsAtTheBound()
    ensures YearText(9999) == "9999" && YearText(10000) == "10000"
  {
    assert Digits(99) == "99";
    assert Digits(999) == "999";
    assert Digits(100) == "100";
    assert Digits(1000) == "1000";
  }

  lemma YearBounds(d: int)
    ensures DayFromYear(0) <= d < DayFromYear(10000) <==> 0 <= DateOf(d).year <= 9999
  {
    hide DayFromYear;
    var y := DateOf(d).year;
    DateSpansDay(d);
    if y < 0 {
      YearsGrow(y + 1, 0);
    } else {
      YearsGrow(0, y);
    }
    if y <= 9999 {
      YearsGrow(y + 1, 10000);
    } else {
      YearsGrow(10000, y);
    }
  }

  predicate SortedTexts(from: int, to: int) {
    forall a, b :: from <= a <= to && from <= b <= to ==> (LexLess(FormatDay(a), FormatDay(b)) <==> a < b)
  }

  /** The texts of the days from year 0 on sort as the days do exactly up to the end of the year 9999. */
  lemma TextsSortIff(n: int)
    requires n >= DayFromYear(0)
    ensures SortedTexts(DayFromYear(0), n) <==> n < DayFromYear(10000)
  {
    hide LexLess, FormatDay, DateOf;
    FiveDigitYearsSortFirst();
    if n < DayFromYear(10000) {
      forall a, b | DayFromYear(0) <= a <= n && DayFromYear(0) <= b <= n
        ensures LexLess(FormatDay(a), FormatDay(b)) <==> a < b
      {
        YearBounds(a);
        YearBounds(b);
        FormatDayKeepsOrder(a, b);
      }
    } else {
      YearsGrow(0, 9999);
      assert !(LexLess(FormatDay(DayFromYear(10000)), FormatDay(DayFromYear(9999))) <==> DayFromYear(10000) < DayFromYear(9999));
    }
  }
}
