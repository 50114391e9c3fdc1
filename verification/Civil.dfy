/** The civil calendar: `yyyymmdd` numbers keep the order of days, and name one date each. */
module Civil {

  datatype Date = Date(year: nat, month: nat, day: nat)

  predicate Leap(y: nat) { y % 4 == 0 && (y % 100 != 0 || y % 400 == 0) }

  function MonthDays(y: nat, m: nat): nat {
    if m == 2 then (if Leap(y) then 29 else 28)
    else if m == 4 || m == 6 || m == 9 || m == 11 then 30
    else 31
  }

  predicate Real(d: Date) {
    1 <= d.year <= 9999 && 1 <= d.month <= 12 && 1 <= d.day <= MonthDays(d.year, d.month)
  }

  type RealDate = d: Date | Real(d) witness Date(1, 1, 1)

  function DaysBeforeYear(y: nat): nat
    requires 1 <= y
  {
    (y - 1) * 365 + (y - 1) / 4 - (y - 1) / 100 + (y - 1) / 400
  }

  function DaysBeforeMonth(y: nat, m: nat): nat {
    if m <= 1 then 0 else DaysBeforeMonth(y, m - 1) + MonthDays(y, m - 1)
  }

  /** `date.toordinal()`: the first of January of year 1 is day 1, a Monday. */
  function Ordinal(d: Date): nat
    requires Real(d)
  {
    DaysBeforeYear(d.year) + DaysBeforeMonth(d.year, d.month) + d.day
  }

  /** `date.weekday()`: Monday is 0. */
  function WeekdayOf(d: Date): nat
    requires Real(d)
  {
    (Ordinal(d) + 6) % 7
  }

  function Ymd(d: Date): nat { d.year * 10000 + d.month * 100 + d.day }

  function FromYmd(n: nat): Date { Date(n / 10000, n / 100 % 100, n % 100) }

  /** A stored day is a session: the number of a real weekday. */
  predicate Session(n: nat) { Real(FromYmd(n)) && WeekdayOf(FromYmd(n)) < 5 }

  lemma YmdNamesOneDate(d: Date)
    requires Real(d)
    ensures FromYmd(Ymd(d)) == d
  {
    var n, ym := Ymd(d), d.year * 100 + d.month;
    assert n == ym * 100 + d.day && n / 100 == ym && n % 100 == d.day;
    assert ym / 100 == d.year && ym % 100 == d.month;
    assert n / 10000 == d.year;
  }

  lemma {:induction false} MonthsGrow(y: nat, m: nat, n: nat)
    requires 1 <= m < n
    ensures DaysBeforeMonth(y, m) + MonthDays(y, m) <= DaysBeforeMonth(y, n)
    decreases n
  {
    if m < n - 1 {
      MonthsGrow(y, m, n - 1);
    }
  }

  lemma MonthSteps(y: nat, m: nat)
    requires 1 <= m
    ensures DaysBeforeMonth(y, m + 2) == DaysBeforeMonth(y, m) + MonthDays(y, m) + MonthDays(y, m + 1)
  {
    assert DaysBeforeMonth(y, m + 1) == DaysBeforeMonth(y, m) + MonthDays(y, m);
  }

  lemma LeapDay(n: nat)
    ensures (n + 1) / 4 - n / 4 == if (n + 1) % 4 == 0 then 1 else 0
    ensures (n + 1) / 100 - n / 100 == if (n + 1) % 100 == 0 then 1 else 0
    ensures (n + 1) / 400 - n / 400 == if (n + 1) % 400 == 0 then 1 else 0
    ensures (n + 1) % 400 == 0 ==> (n + 1) % 100 == 0
    ensures (n + 1) % 100 == 0 ==> (n + 1) % 4 == 0
  {
  }

  lemma YearLength(y: nat)
    requires 1 <= y
    ensures DaysBeforeYear(y + 1) == DaysBeforeYear(y) + DaysBeforeMonth(y, 13)
  {
    MonthSteps(y, 1);
    MonthSteps(y, 3);
    MonthSteps(y, 5);
    MonthSteps(y, 7);
    MonthSteps(y, 9);
    MonthSteps(y, 11);
    LeapDay(y - 1);
  }

  lemma {:induction false} YearsGrow(y: nat, z: nat)
    requires 1 <= y < z
    ensures DaysBeforeYear(y) + DaysBeforeMonth(y, 13) <= DaysBeforeYear(z)
    decreases z
  {
    YearLength(z - 1);
    if y < z - 1 {
      YearsGrow(y, z - 1);
    }
  }

  lemma EarlierDate(a: Date, b: Date)
    requires Real(a) && Real(b) && Ymd(a) < Ymd(b)
    ensures Ordinal(a) < Ordinal(b)
  {
    hide DaysBeforeYear, DaysBeforeMonth;
    if a.year < b.year {
      YearsGrow(a.year, b.year);
      MonthsGrow(a.year, a.month, 13);
    } else if a.month < b.month {
      MonthsGrow(a.year, a.month, b.month);
    }
  }

  /** The stored number orders days exactly as the calendar does. */
  lemma YmdKeepsOrder(a: Date, b: Date)
    requires Real(a) && Real(b)
    ensures Ymd(a) < Ymd(b) <==> Ordinal(a) < Ordinal(b)
    ensures Ymd(a) == Ymd(b) <==> a == b
  {
    YmdNamesOneDate(a);
    YmdNamesOneDate(b);
    if Ymd(a) < Ymd(b) {
      EarlierDate(a, b);
    } else if Ymd(b) < Ymd(a) {
      EarlierDate(b, a);
    }
  }

  /** 1 January 1970 was a Thursday and 1 January 2016 a Friday; both have their day numbers. */
  lemma KnownDays()
    ensures WeekdayOf(Date(1970, 1, 1)) == 3 && Ordinal(Date(1970, 1, 1)) == 719163
    ensures WeekdayOf(Date(2016, 1, 1)) == 4 && Ordinal(Date(2016, 1, 1)) == 735964
  {
    assert DaysBeforeMonth(1970, 1) == 0 && DaysBeforeMonth(2016, 1) == 0;
  }

  /** The date after `d`. */
  function Tomorrow(d: Date): Date {
    if d.day < MonthDays(d.year, d.month) then d.(day := d.day + 1)
    else if d.month < 12 then Date(d.year, d.month + 1, 1)
    else Date(d.year + 1, 1, 1)
  }

  /** Days are numbered one after another, and weekdays go round. */
  lemma NextDayNext(d: Date)
    requires Real(d) && Real(Tomorrow(d))
    ensures Ordinal(Tomorrow(d)) == Ordinal(d) + 1
    ensures WeekdayOf(Tomorrow(d)) == (WeekdayOf(d) + 1) % 7
  {
    hide DaysBeforeYear;
    YearLength(d.year);
    assert DaysBeforeMonth(d.year, d.month + 1) == DaysBeforeMonth(d.year, d.month) + MonthDays(d.year, d.month);
    assert DaysBeforeMonth(d.year, 1) == 0 && DaysBeforeMonth(d.year + 1, 1) == 0;
  }
}
