/** Day numbers of civil dates: the closed formula the log reader evaluates, and
    the proleptic Gregorian calendar it must agree with. */
module CivilCalendar {

  datatype Date = Date(year: int, month: int, day: int)

  // ---- the formula ----

  /** Division of signed machine integers, which discards the fraction. */
  function TruncatingDiv(a: int, b: int): int
    requires b > 0
  {
    if a >= 0 then a / b else -((-a) / b)
  }

  /** Days from 1 March to the given day, in a year that starts in March. */
  function DayOfMarchYear(month: int, day: int): int {
    TruncatingDiv(153 * (month + if month > 2 then -3 else 9) + 2, 5) + day - 1
  }

  function DayNumber(date: Date): int {
    var year := date.year - if date.month <= 2 then 1 else 0;
    var era := TruncatingDiv(if year >= 0 then year else year - 399, 400);
    var yearOfEra := year - era * 400;
    var dayOfEra :=
      yearOfEra * 365 + TruncatingDiv(yearOfEra, 4) - TruncatingDiv(yearOfEra, 100)
      + DayOfMarchYear(date.month, date.day);
    era * 146097 + dayOfEra - 719468
  }

  // ---- the calendar ----

  predicate Leap(year: int) {
    year % 4 == 0 && (year % 100 != 0 || year % 400 == 0)
  }

  function DaysIn(year: int, month: int): (r: int)
    ensures 28 <= r <= 31
  {
    if month == 2 then (if Leap(year) then 29 else 28)
    else if month == 4 || month == 6 || month == 9 || month == 11 then 30
    else 31
  }

  /** What the log reader accepts: any day up to 31 in every month. */
  predicate Accepted(date: Date) {
    1 <= date.month <= 12 && 1 <= date.day <= 31
  }

  predicate Valid(date: Date) {
    1 <= date.month <= 12 && 1 <= date.day <= DaysIn(date.year, date.month)
  }

  predicate Before(a: Date, b: Date) {
    a.year < b.year
    || (a.year == b.year && a.month < b.month)
    || (a.year == b.year && a.month == b.month && a.day < b.day)
  }

  function Next(date: Date): (r: Date)
    requires Valid(date)
    ensures Valid(r) && Before(date, r)
  {
    if date.day < DaysIn(date.year, date.month) then date.(day := date.day + 1)
    else if date.month < 12 then Date(date.year, date.month + 1, 1)
    else Date(date.year + 1, 1, 1)
  }

  function Previous(date: Date): (r: Date)
    requires Valid(date)
    ensures Valid(r) && Next(r) == date
  {
    if date.day > 1 then date.(day := date.day - 1)
    else if date.month > 1 then Date(date.year, date.month - 1, DaysIn(date.year, date.month - 1))
    else Date(date.year - 1, 12, 31)
  }

  /** The calendar by counting: n days after 1 January 1970, forwards or back. */
  function DateOf(n: int): (r: Date)
    ensures Valid(r)
    decreases if n < 0 then -n else n
  {
    if n == 0 then Date(1970, 1, 1)
    else if n > 0 then Next(DateOf(n - 1))
    else Previous(DateOf(n + 1))
  }

  // ---- the formula is the calendar ----

  /** Leap days in the years 1 to `year`, continued to negative years. */
  function LeapDays(year: int): int {
    year / 4 - year / 100 + year / 400
  }

  lemma FloorsWithinEra(year: int)
    ensures year / 4 == 100 * (year / 400) + (year % 400) / 4
    ensures year / 100 == 4 * (year / 400) + (year % 400) / 100
  {
  }

  /** The truncating era branch is a floor, and the eras cancel out. */
  lemma DayNumberIsClosed(date: Date)
    ensures var year := date.year - if date.month <= 2 then 1 else 0;
      DayNumber(date) == 365 * year + LeapDays(year) + DayOfMarchYear(date.month, date.day) - 719468
  {
    var year := date.year - if date.month <= 2 then 1 else 0;
    var era := TruncatingDiv(if year >= 0 then year else year - 399, 400);
    assert era == year / 400;
    assert year - era * 400 == year % 400;
    FloorsWithinEra(year);
  }

  lemma LeapDaysStep(year: int)
    ensures LeapDays(year) == LeapDays(year - 1) + if Leap(year) then 1 else 0
  {
    FourStep(year);
    HundredStep(year);
    FourHundredStep(year);
    LeapDivisors(year);
  }

  lemma FourStep(n: int)
    ensures n / 4 == (n - 1) / 4 + if n % 4 == 0 then 1 else 0
  {
  }

  lemma HundredStep(n: int)
    ensures n / 100 == (n - 1) / 100 + if n % 100 == 0 then 1 else 0
  {
  }

  lemma FourHundredStep(n: int)
    ensures n / 400 == (n - 1) / 400 + if n % 400 == 0 then 1 else 0
  {
  }

  lemma LeapDivisors(n: int)
    ensures n % 400 == 0 ==> n % 100 == 0
    ensures n % 100 == 0 ==> n % 4 == 0
  {
  }

  lemma WithinMonth(date: Date)
    ensures DayNumber(date) == DayNumber(date.(day := 1)) + date.day - 1
  {
  }

  lemma MonthTurn(year: int, month: int)
    requires 1 <= month < 12
    ensures DayNumber(Date(year, month + 1, 1)) == DayNumber(Date(year, month, 1)) + DaysIn(year, month)
  {
    if month == 2 {
      DayNumberIsClosed(Date(year, 2, 1));
      DayNumberIsClosed(Date(year, 3, 1));
      LeapDaysStep(year);
    } else {
      MonthLength(year, month);
      SameYearMonths(year, month);
    }
  }

  /** Months on one side of the leap day differ only in the table. */
  lemma SameYearMonths(year: int, month: int)
    requires 1 <= month < 12 && month != 2
    ensures DayNumber(Date(year, month + 1, 1)) - DayNumber(Date(year, month, 1))
         == DayOfMarchYear(month + 1, 1) - DayOfMarchYear(month, 1)
  {
  }

  lemma MonthLength(year: int, month: int)
    requires 1 <= month < 12 && month != 2
    ensures DayOfMarchYear(month + 1, 1) == DayOfMarchYear(month, 1) + DaysIn(year, month)
  {
    if month <= 6 {
      assert month in [1, 3, 4, 5, 6];
    } else {
      assert month in [7, 8, 9, 10, 11];
    }
  }

  lemma YearTurn(year: int)
    ensures DayNumber(Date(year + 1, 1, 1)) == DayNumber(Date(year, 12, 31)) + 1
  {
  }

  /** The next calendar day has the next number. */
  lemma NextDayNumber(date: Date)
    requires Valid(date)
    ensures DayNumber(Next(date)) == DayNumber(date) + 1
  {
    if date.day < DaysIn(date.year, date.month) {
      WithinMonth(date);
      WithinMonth(Next(date));
    } else if date.month < 12 {
      WithinMonth(date);
      MonthTurn(date.year, date.month);
    } else {
      YearTurn(date.year);
    }
  }

  /** The formula inverts the calendar: every integer is the number of the date
      reached by counting that many days. */
  lemma {:induction false} DateOfHasNumber(n: int)
    ensures DayNumber(DateOf(n)) == n
    decreases if n < 0 then -n else n
  {
    if n > 0 {
      DateOfHasNumber(n - 1);
      NextDayNumber(DateOf(n - 1));
    } else if n < 0 {
      DateOfHasNumber(n + 1);
      NextDayNumber(DateOf(n));
    }
  }

  lemma {:induction false} MonthsAhead(year: int, month: int, later: int)
    requires 1 <= month < later <= 12
    ensures DayNumber(Date(year, later, 1)) >= DayNumber(Date(year, month, 1)) + DaysIn(year, month)
    decreases later
  {
    MonthTurn(year, later - 1);
    if month == later - 1 {
    } else {
      MonthsAhead(year, month, later - 1);
    }
  }

  lemma {:induction false} YearsAhead(year: int, later: int)
    requires year < later
    ensures DayNumber(Date(later, 1, 1)) > DayNumber(Date(year, 12, 31))
    decreases later - year
  {
    YearTurn(later - 1);
    if year == later - 1 {
    } else {
      YearsAhead(year, later - 1);
      MonthsAhead(later - 1, 1, 12);
      WithinMonth(Date(later - 1, 12, 31));
    }
  }

  /** Day numbers keep the order of dates. */
  lemma OrderKept(a: Date, b: Date)
    requires Valid(a) && Valid(b) && Before(a, b)
    ensures DayNumber(a) < DayNumber(b)
  {
    if a.year == b.year {
      WithinMonth(a);
      WithinMonth(b);
      if a.month < b.month { MonthsAhead(a.year, a.month, b.month); }
    } else {
      YearsAhead(a.year, b.year);
      WithinYear(a);
      WithinYear(b);
    }
  }

  lemma WithinYear(date: Date)
    requires Valid(date)
    ensures DayNumber(Date(date.year, 1, 1)) <= DayNumber(date) <= DayNumber(Date(date.year, 12, 31))
  {
    WithinMonth(date);
    WithinMonth(Date(date.year, 12, 31));
    if date.month < 12 { MonthsAhead(date.year, date.month, 12); }
    if 1 < date.month { MonthsAhead(date.year, 1, date.month); }
  }

  /** On valid dates the formula is exactly the calendar's count, and so maps no
      two dates to one number. */
  lemma DayNumberIsCalendar(date: Date, n: int)
    requires Valid(date)
    ensures DayNumber(date) == n <==> date == DateOf(n)
  {
    DateOfHasNumber(n);
    if Before(date, DateOf(n)) {
      OrderKept(date, DateOf(n));
    } else if Before(DateOf(n), date) {
      OrderKept(DateOf(n), date);
    }
  }

  // ---- dates the reader accepts although no calendar has them ----

  /** Where a day past the end of its month falls. */
  function Spilled(date: Date): (r: Date)
    requires Accepted(date)
    ensures Valid(r)
  {
    if Valid(date) then date
    else Date(date.year, date.month + 1, date.day - DaysIn(date.year, date.month))
  }

  /** Two accepted dates share a number exactly when they spill onto one date. */
  lemma AcceptedDatesCollide(a: Date, b: Date)
    requires Accepted(a) && Accepted(b)
    ensures DayNumber(a) == DayNumber(b) <==> Spilled(a) == Spilled(b)
  {
    SpillKeepsNumber(a);
    SpillKeepsNumber(b);
    DayNumberIsCalendar(Spilled(a), DayNumber(a));
    DayNumberIsCalendar(Spilled(b), DayNumber(b));
  }

  lemma SpillKeepsNumber(date: Date)
    requires Accepted(date)
    ensures DayNumber(Spilled(date)) == DayNumber(date)
  {
    if !Valid(date) {
      var last := date.(day := DaysIn(date.year, date.month));
      NextDayNumber(last);
      WithinMonth(last);
      WithinMonth(date);
      WithinMonth(Spilled(date));
    }
  }

  /** 31 February is accepted, and cannot be told from a day in March. */
  lemma FebruaryThirtyFirst(year: int)
    ensures Accepted(Date(year, 2, 31)) && !Valid(Date(year, 2, 31))
    ensures DayNumber(Date(year, 2, 31)) == DayNumber(Date(year, 3, if Leap(year) then 2 else 3))
  {
    SpillKeepsNumber(Date(year, 2, 31));
  }
}
