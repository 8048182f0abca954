/** Days since 1 January 1970 and dates of the Gregorian calendar, for every integer day number. */
module Calendar {
  datatype Date = Date(y: int, m: int, d: int)

  // The conversion as it is computed.

  function Start(yoe: int): int {
    365 * yoe + yoe / 4 - yoe / 100
  }

  function YearOfEra(doe: int): int {
    (doe - doe / 1460 + doe / 36524 - doe / 146096) / 365
  }

  /** The date of the day `doy` of the year `y` that begins in March. */
  function OfMarchYear(y: int, doy: int): Date {
    var mp := (5 * doy + 2) / 153;
    var d := doy - (153 * mp + 2) / 5 + 1;
    var m := if mp < 10 then mp + 3 else mp - 9;
    Date(if m <= 2 then y + 1 else y, m, d)
  }

  function CivilFromDays(z: int): Date {
    var era := (z + 719468) / 146097;
    var doe := (z + 719468) % 146097;
    var yoe := YearOfEra(doe);
    OfMarchYear(yoe + era * 400, doe - Start(yoe))
  }

  // The calendar itself.

  predicate Leap(y: int) {
    y % 4 == 0 && (y % 100 != 0 || y % 400 == 0)
  }

  function DaysIn(y: int, m: int): int {
    if m == 2 then if Leap(y) then 29 else 28
    else if m == 4 || m == 6 || m == 9 || m == 11 then 30
    else 31
  }

  predicate Valid(a: Date) {
    1 <= a.m <= 12 && 1 <= a.d <= DaysIn(a.y, a.m)
  }

  function Next(a: Date): Date {
    if a.d < DaysIn(a.y, a.m) then Date(a.y, a.m, a.d + 1)
    else if a.m < 12 then Date(a.y, a.m + 1, 1)
    else Date(a.y + 1, 1, 1)
  }

  /** Days before the first of January, counted from a fixed day. */
  function BeforeYear(y: int): int {
    365 * y + (y - 1) / 4 - (y - 1) / 100 + (y - 1) / 400
  }

  function BeforeMonth(y: int, m: int): int
    decreases m
  {
    if m <= 1 then 0 else BeforeMonth(y, m - 1) + DaysIn(y, m - 1)
  }

  function DayNumber(a: Date): int {
    BeforeYear(a.y) - BeforeYear(1970) + BeforeMonth(a.y, a.m) + a.d - 1
  }

  // The count of days is the calendar's: the next date has the next number.

  lemma Multiples(y: int, k: int)
    requires k == 4 || k == 100 || k == 400
    ensures y / k - (y - 1) / k == if y % k == 0 then 1 else 0
  {
    if k == 4 {
    } else if k == 100 {
    } else {
    }
  }

  lemma HundredsAreFours(y: int)
    ensures y % 100 == 0 ==> y % 4 == 0
    ensures y % 400 == 0 ==> y % 100 == 0
  {
    assert y == 100 * (y / 100) + y % 100;
    assert y == 400 * (y / 400) + y % 400;
    if y % 100 == 0 { assert y == 4 * (25 * (y / 100)); }
    if y % 400 == 0 { assert y == 100 * (4 * (y / 400)); }
  }

  lemma LeapCount(y: int)
    ensures y / 4 - y / 100 + y / 400 == (y - 1) / 4 - (y - 1) / 100 + (y - 1) / 400 + if Leap(y) then 1 else 0
  {
    Multiples(y, 4);
    Multiples(y, 100);
    Multiples(y, 400);
    HundredsAreFours(y);
  }

  lemma MonthTable(y: int)
    ensures BeforeMonth(y, 1) == 0 && BeforeMonth(y, 2) == 31
    ensures var l := if Leap(y) then 1 else 0;
            && BeforeMonth(y, 3) == 59 + l && BeforeMonth(y, 4) == 90 + l && BeforeMonth(y, 5) == 120 + l
            && BeforeMonth(y, 6) == 151 + l && BeforeMonth(y, 7) == 181 + l && BeforeMonth(y, 8) == 212 + l
            && BeforeMonth(y, 9) == 243 + l && BeforeMonth(y, 10) == 273 + l && BeforeMonth(y, 11) == 304 + l
            && BeforeMonth(y, 12) == 334 + l && BeforeMonth(y, 13) == 365 + l
  {
    hide Leap;
    assert BeforeMonth(y, 3) == BeforeMonth(y, 2) + DaysIn(y, 2);
    assert BeforeMonth(y, 5) == BeforeMonth(y, 4) + DaysIn(y, 4);
    assert BeforeMonth(y, 7) == BeforeMonth(y, 6) + DaysIn(y, 6);
    assert BeforeMonth(y, 9) == BeforeMonth(y, 8) + DaysIn(y, 8);
    assert BeforeMonth(y, 11) == BeforeMonth(y, 10) + DaysIn(y, 10);
    assert BeforeMonth(y, 13) == BeforeMonth(y, 12) + DaysIn(y, 12);
  }

  lemma YearLength(y: int)
    ensures BeforeYear(y + 1) == BeforeYear(y) + BeforeMonth(y, 13)
  {
    hide Leap, BeforeMonth;
    LeapCount(y);
    MonthTable(y);
  }

  lemma NextNumber(a: Date)
    requires Valid(a)
    ensures Valid(Next(a)) && DayNumber(Next(a)) == DayNumber(a) + 1
  {
    hide BeforeYear, Leap;
    if a.d == DaysIn(a.y, a.m) && a.m == 12 {
      YearLength(a.y);
    }
  }

  // No two dates share a number.

  lemma {:induction false} MonthsAhead(y: int, m: int, n: int)
    requires 1 <= m < n <= 13
    ensures BeforeMonth(y, m) + DaysIn(y, m) <= BeforeMonth(y, n)
    decreases n
  {
    hide Leap;
    if n > m + 1 {
      MonthsAhead(y, m, n - 1);
    }
  }

  lemma {:induction false} YearsAhead(y: int, n: int)
    requires y < n
    ensures BeforeYear(y) + BeforeMonth(y, 13) <= BeforeYear(n)
    decreases n - y
  {
    hide BeforeYear, BeforeMonth;
    YearLength(n - 1);
    if y < n - 1 {
      YearsAhead(y, n - 1);
      MonthTable(n - 1);
    }
  }

  lemma WithinYear(a: Date)
    requires Valid(a)
    ensures 0 <= BeforeMonth(a.y, a.m) + a.d - 1 < BeforeMonth(a.y, 13)
  {
    hide Leap, BeforeMonth, DaysIn;
    MonthsAhead(a.y, a.m, 13);
    if a.m > 1 { MonthsAhead(a.y, 1, a.m); }
    MonthTable(a.y);
  }

  lemma EarlierIsLess(a: Date, b: Date)
    requires Valid(a) && Valid(b)
    requires a.y < b.y || (a.y == b.y && (a.m < b.m || (a.m == b.m && a.d < b.d)))
    ensures DayNumber(a) < DayNumber(b)
  {
    hide Leap, BeforeMonth, BeforeYear, DaysIn;
    WithinYear(a);
    WithinYear(b);
    if a.y < b.y {
      YearsAhead(a.y, b.y);
    } else if a.m < b.m {
      MonthsAhead(a.y, a.m, b.m);
    }
  }

  lemma SameNumber(a: Date, b: Date)
    requires Valid(a) && Valid(b) && DayNumber(a) == DayNumber(b)
    ensures a == b
  {
    hide Valid, DayNumber;
    if a.y < b.y || (a.y == b.y && (a.m < b.m || (a.m == b.m && a.d < b.d))) {
      EarlierIsLess(a, b);
    } else if a != b {
      EarlierIsLess(b, a);
    }
  }

  // The conversion: the year of the era.

  /** A day of an era by century, four years, year and day: only a leap year has a day 365. */
  predicate Parts(doe: int, c: int, q: int, w: int, t: int) {
    && 0 <= c <= 3 && 0 <= q <= 24 && 0 <= w <= 3 && 0 <= t <= 365
    && doe == 36524 * c + 1461 * q + 365 * w + t
    && (t == 365 ==> w == 3 && (q < 24 || c == 3))
  }

  lemma PartsOf(doe: int) returns (c: int, q: int, w: int, t: int)
    requires 0 <= doe < 146097
    ensures Parts(doe, c, q, w, t)
  {
    c := if doe == 146096 then 3 else doe / 36524;
    var r := doe - 36524 * c;
    q := r / 1461;
    var s := r - 1461 * q;
    w := if s == 1460 then 3 else s / 365;
    t := s - 365 * w;
  }

  lemma StartOfParts(c: int, q: int, w: int)
    requires 0 <= c <= 3 && 0 <= q <= 24 && 0 <= w <= 3
    ensures Start(100 * c + 4 * q + w) == 36524 * c + 1461 * q + 365 * w
  {}

  lemma YearOfParts(doe: int, c: int, q: int, w: int, t: int)
    requires Parts(doe, c, q, w, t)
    ensures YearOfEra(doe) == 100 * c + 4 * q + w
  {
    var y := 100 * c + 4 * q + w;
    var r := 24 * c + q + 365 * w + t;
    assert doe == 1460 * (25 * c + q) + r;
    Centuries(doe, c, q, w, t);
    var e := if r >= 1460 then 1 else 0;
    assert doe / 1460 == 25 * c + q + e;
    assert doe - doe / 1460 + c == 365 * y + (t - e);
    assert 0 <= t - e < 365;
  }

  lemma Centuries(doe: int, c: int, q: int, w: int, t: int)
    requires Parts(doe, c, q, w, t)
    ensures doe / 36524 - doe / 146096 == c
  {
    var r := 1461 * q + 365 * w + t;
    assert doe == 36524 * c + r && r <= 36524;
    assert r == 36524 ==> c == 3;
  }

  // The conversion: the month and the day.

  /** Days before the month that comes `mp` months after March. */
  lemma MarchTable(mp: int)
    requires 0 <= mp <= 11
    ensures (153 * mp + 2) / 5 == [0, 31, 61, 92, 122, 153, 184, 214, 245, 275, 306, 337][mp]
  {}

  lemma MonthOf(doy: int)
    requires 0 <= doy <= 365
    ensures var mp := (5 * doy + 2) / 153;
            && 0 <= mp <= 11 && (153 * mp + 2) / 5 <= doy && (mp < 11 ==> doy < (153 * (mp + 1) + 2) / 5)
  {}

  /** The first of March has the number that the year of the era begins with. */
  lemma MarchFirst(era: int, yoe: int)
    requires 0 <= yoe < 400
    ensures var y := yoe + era * 400;
            BeforeYear(y) - BeforeYear(1970) + 59 + (if Leap(y) then 1 else 0) == 146097 * era + Start(yoe) - 719468
  {
    hide Leap;
    var y := yoe + era * 400;
    LeapCount(y);
    assert y / 4 == yoe / 4 + 100 * era;
    assert y / 100 == yoe / 100 + 4 * era;
    assert y / 400 == era;
  }

  /** The day `doy` of the year from March on is a valid date, with the number that many after the first of March. */
  lemma MarchYear(y: int, doy: int)
    requires 0 <= doy <= 365 && (doy == 365 ==> Leap(y + 1))
    ensures var a := OfMarchYear(y, doy);
            && Valid(a)
            && DayNumber(a) == BeforeYear(y) - BeforeYear(1970) + 59 + (if Leap(y) then 1 else 0) + doy
  {
    hide BeforeYear, BeforeMonth, Leap;
    MonthOf(doy);
    var mp := (5 * doy + 2) / 153;
    MarchTable(mp);
    if mp < 11 { MarchTable(mp + 1); }
    MonthTable(y);
    MonthTable(y + 1);
    YearLength(y);
  }

  lemma LeapAfter(era: int, c: int, q: int, w: int)
    requires 0 <= c <= 3 && 0 <= q <= 24 && w == 3 && (q < 24 || c == 3)
    ensures Leap(100 * c + 4 * q + w + era * 400 + 1)
  {
    hide Leap;
    if q < 24 {
      FourthIsLeap(c + 4 * era, 4 * q + 4);
    } else {
      FourthCenturyIsLeap(era + 1);
    }
  }

  lemma Fours(k: int)
    ensures (4 * k) % 4 == 0
  {}

  lemma Hundreds(k: int, r: nat)
    requires r < 100
    ensures (100 * k + r) % 100 == r
  {}

  lemma FourHundreds(k: int)
    ensures (400 * k) % 400 == 0
  {}

  lemma FourthIsLeap(century: int, y: int)
    requires 0 < y < 100 && y % 4 == 0
    ensures Leap(100 * century + y)
  {
    Fours(25 * century + y / 4);
    Hundreds(century, y);
    assert 100 * century + y == 4 * (25 * century + y / 4);
  }

  lemma FourthCenturyIsLeap(n: int)
    ensures Leap(400 * n)
  {
    Fours(100 * n);
    FourHundreds(n);
    assert 400 * n == 4 * (100 * n);
  }

  /** Every day number gives a valid date, whose number it is. */
  lemma NumberOfCivil(z: int)
    ensures Valid(CivilFromDays(z)) && DayNumber(CivilFromDays(z)) == z
  {
    hide Leap, Valid, DayNumber, OfMarchYear, YearOfEra, Start, BeforeYear;
    var era, doe := (z + 719468) / 146097, (z + 719468) % 146097;
    var c, q, w, t := PartsOf(doe);
    var yoe := 100 * c + 4 * q + w;
    YearOfParts(doe, c, q, w, t);
    StartOfParts(c, q, w);
    assert doe - Start(yoe) == t;
    if t == 365 { LeapAfter(era, c, q, w); }
    MarchYear(yoe + era * 400, t);
    MarchFirst(era, yoe);
  }

  /** Every valid date is the date of its number. */
  lemma CivilOfNumber(a: Date)
    requires Valid(a)
    ensures CivilFromDays(DayNumber(a)) == a
  {
    hide Valid, DayNumber, CivilFromDays;
    NumberOfCivil(DayNumber(a));
    SameNumber(CivilFromDays(DayNumber(a)), a);
  }

  /** Day by day the calendar advances by one date, and day 0 is 1 January 1970. */
  lemma ConsecutiveDays(z: int)
    ensures CivilFromDays(z + 1) == Next(CivilFromDays(z)) && CivilFromDays(0) == Date(1970, 1, 1)
  {
    hide Valid, DayNumber, CivilFromDays, Next;
    NumberOfCivil(z);
    NumberOfCivil(z + 1);
    NextNumber(CivilFromDays(z));
    SameNumber(CivilFromDays(z + 1), Next(CivilFromDays(z)));
    DayZero();
    CivilOfNumber(Date(1970, 1, 1));
  }

  lemma DayZero()
    ensures Valid(Date(1970, 1, 1)) && DayNumber(Date(1970, 1, 1)) == 0
  {
    hide BeforeYear;
  }
}
