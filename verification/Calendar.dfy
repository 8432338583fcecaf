/**
  Gregorian dates and Go's month arithmetic.  `AddMonths` is `time.Time.AddDate(0, n, 0)`: the month moves
  by n and a day that the new month does not have spills into the month after it.
 */
module Calendar {

  /** `month` is 1 to 12. */
  datatype Date = Date(year: nat, month: nat, day: nat)

  predicate IsLeap(y: nat) { y % 4 == 0 && (y % 100 != 0 || y % 400 == 0) }

  /** Months counted from January of year 0. */
  function DaysIn(idx: nat): (n: nat)
    ensures 28 <= n <= 31
  {
    var m := idx % 12 + 1;
    if m == 2 then (if IsLeap(idx / 12) then 29 else 28)
    else if m == 4 || m == 6 || m == 9 || m == 11 then 30 else 31
  }

  predicate Valid(d: Date) {
    1 <= d.month <= 12 && 1 <= d.day <= DaysIn(MonthIndex(d))
  }

  function MonthIndex(d: Date): nat
    requires d.month >= 1
  {
    12 * d.year + d.month - 1
  }

  function FromIndex(idx: nat, day: nat): (d: Date)
    ensures 1 <= d.month <= 12 && MonthIndex(d) == idx && d.day == day
  {
    Date(idx / 12, idx % 12 + 1, day)
  }

  /** The day number of the first of a month. */
  function First(idx: nat): nat {
    if idx == 0 then 0 else First(idx - 1) + DaysIn(idx - 1)
  }

  function Serial(d: Date): int
    requires d.month >= 1
  {
    First(MonthIndex(d)) + d.day - 1
  }

  function AddMonths(d: Date, n: nat): (e: Date)
    requires Valid(d)
    ensures Valid(e)
  {
    var idx := MonthIndex(d) + n;
    if d.day <= DaysIn(idx) then FromIndex(idx, d.day) else FromIndex(idx + 1, d.day - DaysIn(idx))
  }

  // ----- day numbers -----

  lemma {:induction false} FirstStep(i: nat, j: nat)
    requires i <= j
    ensures 28 * (j - i) <= First(j) - First(i) <= 31 * (j - i)
    decreases j
  {
    if i < j {
      FirstStep(i, j - 1);
    }
  }

  lemma SerialBounds(d: Date)
    requires Valid(d)
    ensures First(MonthIndex(d)) <= Serial(d) < First(MonthIndex(d) + 1)
  {
  }

  lemma SameDate(a: Date, b: Date)
    requires Valid(a) && Valid(b)
    ensures a == b <==> MonthIndex(a) == MonthIndex(b) && a.day == b.day
  {
  }

  lemma LaterMonth(a: Date, b: Date)
    requires Valid(a) && Valid(b) && MonthIndex(a) < MonthIndex(b)
    ensures Serial(a) < Serial(b)
  {
    SerialBounds(a);
    SerialBounds(b);
    FirstStep(MonthIndex(a) + 1, MonthIndex(b));
  }

  /** Day numbers order the valid dates and tell them apart. */
  lemma SerialOrder(a: Date, b: Date)
    requires Valid(a) && Valid(b)
    ensures Serial(a) == Serial(b) <==> a == b
    ensures MonthIndex(a) < MonthIndex(b) ==> Serial(a) < Serial(b)
  {
    if MonthIndex(a) < MonthIndex(b) {
      LaterMonth(a, b);
    } else if MonthIndex(b) < MonthIndex(a) {
      LaterMonth(b, a);
    } else {
      SameDate(a, b);
    }
  }

  /** Leap years before year `y`, counting year 0. */
  function LeapsBefore(y: nat): nat { (y + 3) / 4 - (y + 99) / 100 + (y + 399) / 400 }

  function DaysBefore(m: nat): nat
    requires m <= 12
  {
    match m
    case 0 => 0 case 1 => 31 case 2 => 59 case 3 => 90 case 4 => 120 case 5 => 151
    case 6 => 181 case 7 => 212 case 8 => 243 case 9 => 273 case 10 => 304 case 11 => 334
    case _ => 365
  }

  lemma {:induction false} FirstInYear(y: nat, m: nat)
    requires m <= 12
    ensures First(12 * y + m) == First(12 * y) + DaysBefore(m) + if m >= 2 && IsLeap(y) then 1 else 0
  {
    if m > 0 {
      FirstInYear(y, m - 1);
      assert (12 * y + (m - 1)) / 12 == y && (12 * y + (m - 1)) % 12 == m - 1;
    }
  }

  /** The recursive day count is the closed Gregorian formula. */
  lemma {:induction false} FirstOfYear(y: nat)
    ensures First(12 * y) == 365 * y + LeapsBefore(y)
  {
    if y > 0 {
      FirstOfYear(y - 1);
      FirstInYear(y - 1, 12);
      LeapsStep(y - 1);
    }
  }

  lemma Quarter(y: nat)
    ensures (y + 4) / 4 == (y + 3) / 4 + if y % 4 == 0 then 1 else 0
  {
  }

  lemma Century(y: nat)
    ensures (y + 100) / 100 == (y + 99) / 100 + if y % 100 == 0 then 1 else 0
  {
  }

  lemma FourCenturies(y: nat)
    ensures (y + 400) / 400 == (y + 399) / 400 + if y % 400 == 0 then 1 else 0
  {
  }

  lemma FourDivides(m: int)
    ensures (4 * m) % 4 == 0
  {
  }

  lemma HundredDivides(m: int)
    ensures (100 * m) % 100 == 0
  {
  }

  lemma CenturiesAreQuarters(y: nat)
    ensures y % 100 == 0 ==> y % 4 == 0
    ensures y % 400 == 0 ==> y % 100 == 0
  {
    FourDivides(25 * (y / 100));
    HundredDivides(4 * (y / 400));
  }

  lemma LeapsStep(y: nat)
    ensures LeapsBefore(y + 1) == LeapsBefore(y) + if IsLeap(y) then 1 else 0
  {
    Quarter(y);
    Century(y);
    FourCenturies(y);
    CenturiesAreQuarters(y);
  }

  // ----- adding months -----

  /** Go builds the day number of the n-th following month's first day and adds the days: this is that date. */
  lemma AddMonthsSerial(d: Date, n: nat)
    requires Valid(d)
    ensures Serial(AddMonths(d, n)) == First(MonthIndex(d) + n) + d.day - 1
  {
  }

  /** A term of n months lasts as long as n consecutive months from its start month. */
  lemma SpanIsWholeMonths(d: Date, n: nat)
    requires Valid(d)
    ensures Serial(AddMonths(d, n)) - Serial(d) == First(MonthIndex(d) + n) - First(MonthIndex(d))
    ensures 28 * n <= Serial(AddMonths(d, n)) - Serial(d) <= 31 * n
  {
    AddMonthsSerial(d, n);
    FirstStep(MonthIndex(d), MonthIndex(d) + n);
  }

  /** Month and day of the result, without the year arithmetic. */
  lemma AddMonthsParts(d: Date, n: nat)
    requires Valid(d)
    ensures var e, idx := AddMonths(d, n), MonthIndex(d) + n;
            if d.day <= DaysIn(idx) then MonthIndex(e) == idx && e.day == d.day
            else MonthIndex(e) == idx + 1 && e.day == d.day - DaysIn(idx)
  {
  }

  /** Terms that differ by more than a month end on different dates. */
  lemma LongerEndsElsewhere(d: Date, a: nat, b: nat)
    requires Valid(d) && a + 1 < b
    ensures AddMonths(d, a) != AddMonths(d, b)
  {
    AddMonthsParts(d, a);
    AddMonthsParts(d, b);
  }

  /** Moving by a and then by b equals moving by a + b exactly when the first move does not spill,
      or spills out of a month as long as the last one. */
  lemma AdditiveIff(d: Date, a: nat, b: nat)
    requires Valid(d)
    ensures AddMonths(AddMonths(d, a), b) == AddMonths(d, a + b)
            <==> d.day <= DaysIn(MonthIndex(d) + a) || DaysIn(MonthIndex(d) + a) == DaysIn(MonthIndex(d) + a + b)
  {
    AddMonthsParts(d, a);
    AddMonthsParts(AddMonths(d, a), b);
    AddMonthsParts(d, a + b);
    SameDate(AddMonths(AddMonths(d, a), b), AddMonths(d, a + b));
  }

  /** A month end drifts: 31 January, one month, then one more, is 3 April and not 31 March. */
  lemma MonthEndDrifts()
    ensures AddMonths(AddMonths(Date(2025, 1, 31), 1), 1) == Date(2025, 4, 3)
    ensures AddMonths(Date(2025, 1, 31), 2) == Date(2025, 3, 31)
  {
    assert MonthIndex(Date(2025, 1, 31)) == 24300;
    assert DaysIn(24301) == 28 && DaysIn(24302) == 31 && DaysIn(24303) == 30;
    assert AddMonths(Date(2025, 1, 31), 1) == FromIndex(24302, 3);
  }

  function AddAll(d: Date, ns: seq<nat>): (e: Date)
    requires Valid(d)
    ensures Valid(e)
    decreases |ns|
  {
    if ns == [] then d else AddMonths(AddAll(d, ns[..|ns| - 1]), ns[|ns| - 1])
  }

  function Total(ns: seq<nat>): nat {
    if ns == [] then 0 else Total(ns[..|ns| - 1]) + ns[|ns| - 1]
  }

  /** Up to day 28 a chain of terms ends exactly the summed months later, on the same day of the month. */
  lemma {:induction false} ChainOfTerms(d: Date, ns: seq<nat>)
    requires Valid(d) && d.day <= 28
    ensures AddAll(d, ns) == AddMonths(d, Total(ns))
    ensures AddAll(d, ns).day == d.day && MonthIndex(AddAll(d, ns)) == MonthIndex(d) + Total(ns)
  {
    if ns != [] {
      ChainOfTerms(d, ns[..|ns| - 1]);
    }
  }

  /** Once a term has spilled, the day of the month is at most 3 and never moves again. */
  lemma SpillsOnce(d: Date, n: nat, ns: seq<nat>)
    requires Valid(d) && d.day > DaysIn(MonthIndex(d) + n)
    ensures AddMonths(d, n).day <= 3
    ensures AddAll(AddMonths(d, n), ns).day == AddMonths(d, n).day
  {
    ChainOfTerms(AddMonths(d, n), ns);
  }
}
