/** Ages, as Go computes them for display and as SQL computes them for the discovery
    filter, on one shared calendar date. */
module Age {
  import opened Common

  datatype Date = Date(year: int, month: int, day: int)

  predicate IsLeap(y: int) {
    y % 4 == 0 && (y % 100 != 0 || y % 400 == 0)
  }

  function DaysIn(y: int, m: int): int {
    if m == 2 then if IsLeap(y) then 29 else 28
    else if m == 4 || m == 6 || m == 9 || m == 11 then 30
    else 31
  }

  predicate IsDate(d: Date) {
    1 <= d.month <= 12 && 1 <= d.day <= DaysIn(d.year, d.month)
  }

  predicate Before(a: Date, b: Date) {
    a.year < b.year || (a.year == b.year && (a.month < b.month || (a.month == b.month && a.day < b.day)))
  }

  /** The leap years up to `y`, counted from the year 1: 97 in 400 years. */
  function LeapYears(y: int): int {
    y / 4 - y / 100 + y / 400
  }

  /** Days from 1 March to the first of the month `m` after it. */
  function DaysFromMarch(m: int): int {
    (153 * m + 2) / 5
  }

  /** Days since 1 March of the year 0. */
  function DayNumber(d: Date): int {
    var y, m := if d.month < 3 then d.year - 1 else d.year, if d.month < 3 then d.month + 9 else d.month - 3;
    365 * y + LeapYears(y) + DaysFromMarch(m) + d.day - 1
  }

  function Tomorrow(d: Date): Date {
    if d.day < DaysIn(d.year, d.month) then Date(d.year, d.month, d.day + 1)
    else if d.month < 12 then Date(d.year, d.month + 1, 1)
    else Date(d.year + 1, 1, 1)
  }

  /** The lengths of the months fit the number of days gone by. */
  lemma DaysFollow(d: Date)
    requires IsDate(d)
    ensures IsDate(Tomorrow(d)) && DayNumber(Tomorrow(d)) == DayNumber(d) + 1
  {
    if d.day == DaysIn(d.year, d.month) { MonthFollows(d.year, d.month); }
  }

  lemma MonthFollows(y: int, m: int)
    requires 1 <= m <= 12
    ensures DayNumber(if m < 12 then Date(y, m + 1, 1) else Date(y + 1, 1, 1)) ==
            DayNumber(Date(y, m, DaysIn(y, m))) + 1
  {
    if m == 2 {
      FebruaryFollows(y);
    } else if 3 <= m < 12 {
      FromMarch(m);
    } else {
      assert DaysFromMarch(9) == 275 && DaysFromMarch(10) == 306 && DaysFromMarch(11) == 337;
    }
  }

  lemma FebruaryFollows(y: int)
    ensures DayNumber(Date(y, 3, 1)) == DayNumber(Date(y, 2, DaysIn(y, 2))) + 1
  {
    assert DaysFromMarch(0) == 0 && DaysFromMarch(11) == 337;
    LeapDay(y);
  }

  lemma FromMarch(m: int)
    requires 3 <= m < 12
    ensures DaysFromMarch(m - 2) == DaysFromMarch(m - 3) + if m == 4 || m == 6 || m == 9 || m == 11 then 30 else 31
  {
  }

  lemma LeapDay(y: int)
    ensures LeapYears(y) - LeapYears(y - 1) == if IsLeap(y) then 1 else 0
  {
    Multiples(y, 4);
    Multiples(y, 100);
    Multiples(y, 400);
    MultipleOf(y, 4, 25);
    MultipleOf(y, 100, 4);
  }

  lemma Quotient(y: int, n: int, q: int)
    requires n > 0 && n * q <= y < n * q + n
    ensures y / n == q && y % n == y - n * q
  {
    var p, r := y / n, y % n;
    assert y == n * p + r && n * (p - q) == n * p - n * q;
    AtLeast(n, p - q);
  }

  lemma AtLeast(n: int, d: int)
    requires n >= 0
    ensures d >= 1 ==> n * d >= n
    ensures d <= -1 ==> n * d <= -n
  {
    if d >= 1 {
      Product(n, d - 1);
      assert n * (d - 1) == n * d - n;
    } else if d <= -1 {
      Product(n, -d - 1);
      assert n * (-d - 1) == -(n * d) - n;
    }
  }

  lemma Product(a: nat, b: nat)
    ensures a * b >= 0
  {
  }

  /** A quotient grows with the multiples. */
  lemma Multiples(y: int, n: int)
    requires n > 0
    ensures y / n - (y - 1) / n == if y % n == 0 then 1 else 0
  {
    var q := y / n;
    assert y == n * q + y % n;
    if y % n == 0 { Quotient(y - 1, n, q - 1); } else { Quotient(y - 1, n, q); }
  }

  lemma MultipleOf(y: int, n: int, k: int)
    requires n > 0 && k > 0
    ensures y % (n * k) == 0 ==> y % n == 0
  {
    if y % (n * k) == 0 {
      var q := y / (n * k);
      assert y == n * k * q == n * (k * q);
      Quotient(y, n, k * q);
    }
  }

  /** `time.Date` carries a day past the end of its month into the next. */
  function TimeDate(y: int, m: int, d: int): Date {
    if d <= DaysIn(y, m) then Date(y, m, d)
    else if m == 12 then Date(y + 1, 1, d - DaysIn(y, m))
    else Date(y, m + 1, d - DaysIn(y, m))
  }

  /** `calcAge`.  A moment of today is before a midnight exactly when today is an earlier date. */
  function CalcAge(birth: Option<Date>, today: Date): Option<int> {
    if birth.None? then None
    else
      var b := birth.value;
      var years := today.year - b.year;
      Some(if Before(today, TimeDate(today.year, b.month, b.day)) then years - 1 else years)
  }

  // ---------- SQL ----------

  datatype Interval = Interval(years: int, months: int, days: int)

  /** PostgreSQL's AGE subtracts field by field, then borrows days by the length of the birth
      month and months by the year. */
  function BorrowDays(b: Date, i: Interval): Interval
    requires IsDate(b)
    decreases if i.days < 0 then -i.days else 0
  {
    if i.days < 0 then
      BorrowDays(b, i.(days := i.days + DaysIn(b.year, b.month), months := i.months - 1))
    else i
  }

  function BorrowMonths(i: Interval): Interval
    decreases if i.months < 0 then -i.months else 0
  {
    if i.months < 0 then BorrowMonths(i.(months := i.months + 12, years := i.years - 1)) else i
  }

  /** AGE(birth) for a birth date not in the future. */
  function SqlAge(today: Date, b: Date): Interval
    requires IsDate(b)
  {
    BorrowMonths(BorrowDays(b, Interval(today.year - b.year, today.month - b.month, today.day - b.day)))
  }

  // ---------- Anniversaries ----------

  /** The birthday of year `y`: 1 March where 29 February does not exist. */
  function Anniversary(b: Date, y: int): Date {
    if b.month == 2 && b.day == 29 && !IsLeap(y) then Date(y, 3, 1) else Date(y, b.month, b.day)
  }

  /** How many birthdays after birth and up to the year `y` are not after today. */
  function Passed(b: Date, today: Date, y: int): nat
    decreases if y > b.year then y - b.year else 0
  {
    if y <= b.year then 0
    else Passed(b, today, y - 1) + if Before(today, Anniversary(b, y)) then 0 else 1
  }

  lemma {:induction false} PassedEarlier(b: Date, today: Date, y: int)
    requires IsDate(b) && IsDate(today) && b.year <= y < today.year
    ensures Passed(b, today, y) == y - b.year
    decreases y - b.year
  {
    if y > b.year { PassedEarlier(b, today, y - 1); }
  }

  /** The age shown is the number of birthdays since birth. */
  lemma AgeCountsBirthdays(b: Date, today: Date)
    requires IsDate(b) && IsDate(today) && !Before(today, b)
    ensures CalcAge(Some(b), today) == Some(Passed(b, today, today.year))
  {
    if b.year < today.year { PassedEarlier(b, today, today.year - 1); }
  }

  /** The age shown is the year of SQL's AGE. */
  lemma AgeIsSqlYear(b: Date, today: Date)
    requires IsDate(b) && IsDate(today) && !Before(today, b)
    ensures CalcAge(Some(b), today) == Some(SqlAge(today, b).years)
    ensures var i := SqlAge(today, b); i.years >= 0 && 0 <= i.months < 12 && i.days >= 0
  {
    var i := Interval(today.year - b.year, today.month - b.month, today.day - b.day);
    assert i.days < 0 ==> i.days + DaysIn(b.year, b.month) >= 0;
    var j := BorrowDays(b, i);
    if i.days < 0 {
      var k := i.(days := i.days + DaysIn(b.year, b.month), months := i.months - 1);
      assert j == BorrowDays(b, k) == k;
    }
    assert BorrowMonths(j) == if j.months < 0 then j.(months := j.months + 12, years := j.years - 1) else j;
  }

  /** Ages do not go down. */
  lemma AgeMonotone(b: Date, today: Date, later: Date)
    requires IsDate(b) && IsDate(today) && IsDate(later) && !Before(today, b) && !Before(later, today)
    ensures CalcAge(Some(b), today).value <= CalcAge(Some(b), later).value
  {
  }
}
