/** Civil dates and day numbers: two halves of one bijection, each written in a different crate. */
module Calendar {

  datatype Date = Date(year: int, month: int, day: int)

  // --- the proleptic Gregorian calendar --------------------------------------------------------

  predicate Leap(y: int) { y % 4 == 0 && (y % 100 != 0 || y % 400 == 0) }

  function DaysInMonth(y: int, m: int): int {
    if m == 2 then (if Leap(y) then 29 else 28)
    else if m == 4 || m == 6 || m == 9 || m == 11 then 30 else 31
  }

  predicate Valid(c: Date) { 1 <= c.month <= 12 && 1 <= c.day <= DaysInMonth(c.year, c.month) }

  function Tomorrow(c: Date): Date {
    if c.day < DaysInMonth(c.year, c.month) then Date(c.year, c.month, c.day + 1)
    else if c.month < 12 then Date(c.year, c.month + 1, 1)
    else Date(c.year + 1, 1, 1)
  }

  // --- the two algorithms ----------------------------------------------------------------------

  /** Division that truncates toward zero. */
  function Quotient(a: int, b: int): int
    requires b > 0
  {
    if a >= 0 then a / b else -(-a / b)
  }

  /** The civil date of a day counted from 1970-01-01. */
  function CivilFromDays(days: int): Date {
    var z := days + 719_468;
    var era := Quotient(if z >= 0 then z else z - 146_096, 146_097);
    var doe := z - era * 146_097;
    var yoe := Quotient(doe - Quotient(doe, 1460) + Quotient(doe, 36_524) - Quotient(doe, 146_096), 365);
    var y := yoe + era * 400;
    var doy := doe - (365 * yoe + Quotient(yoe, 4) - Quotient(yoe, 100));
    var mp := Quotient(5 * doy + 2, 153);
    var d := doy - Quotient(153 * mp + 2, 5) + 1;
    var m := if mp < 10 then mp + 3 else mp - 9;
    Date(if m <= 2 then y + 1 else y, m, d)
  }

  /** The day count of a parsed date; the month is in range, and the day from 1 to 31. */
  function DaysFromCivil(c: Date): int {
    var yy := if c.month <= 2 then c.year - 1 else c.year;
    var era := Quotient(if yy >= 0 then yy else yy - 399, 400);
    var yoe := yy - era * 400;
    var doy := Quotient(153 * (if c.month > 2 then c.month - 3 else c.month + 9) + 2, 5) + c.day - 1;
    var doe := yoe * 365 + Quotient(yoe, 4) - Quotient(yoe, 100) + doy;
    era * 146_097 + doe - 719_468
  }

  // --- eras ------------------------------------------------------------------------------------

  /** Shifting a negative numerator makes truncating division round down. */
  lemma EraRoundsDown(z: int, n: int)
    requires n > 0
    ensures var era := Quotient(if z >= 0 then z else z - (n - 1), n);
      0 <= z - era * n < n
  {
    if z < 0 {
      var a := n - 1 - z;
      assert Quotient(z - (n - 1), n) == -(a / n);
      assert a == (a / n) * n + a % n;
      assert (-(a / n)) * n == -((a / n) * n);
    } else {
      assert z == (z / n) * n + z % n;
    }
  }

  lemma SameEra(z: int, a: int, b: int)
    requires 0 <= z - a * 146_097 < 146_097 && 0 <= z - b * 146_097 < 146_097
    ensures a == b
  {
  }

  lemma SameCycle(y: int, a: int, b: int)
    requires 0 <= y - a * 400 < 400 && 0 <= y - b * 400 < 400
    ensures a == b
  {
  }

  // --- years of an era, counted from March -----------------------------------------------------

  /** The first day of a year of an era. */
  function YearStart(yoe: int): int { 365 * yoe + yoe / 4 - yoe / 100 }

  /** The days before the next year: only the last year of an era runs one day longer than the formula says. */
  function YearEnd(yoe: int): int { if yoe == 399 then 146_097 else YearStart(yoe + 1) }

  function YearOf(doe: int): int { (doe - doe / 1460 + doe / 36_524 - doe / 146_096) / 365 }

  /** The year formula finds the year that holds the day. */
  lemma YearHolds(doe: int)
    requires 0 <= doe < 146_097
    ensures 0 <= YearOf(doe) <= 399
    ensures YearStart(YearOf(doe)) <= doe < YearEnd(YearOf(doe))
  {
    if doe == 146_096 {
      assert YearOf(doe) == 399;
    } else {
      var b := doe / 36_524;
      assert b == 0 || b == 1 || b == 2 || b == 3;
      CenturyYear(doe, b);
    }
  }

  /** Within a century: whole four-year cycles of 1461 days, then whole years, the last of which may be long. */
  lemma CenturyYear(doe: int, b: int)
    requires 0 <= b <= 3 && 36_524 * b <= doe < 36_524 * (b + 1)
    ensures YearStart(YearOf(doe)) <= doe < YearEnd(YearOf(doe)) && 0 <= YearOf(doe) <= 399
  {
    var r := doe - 36_524 * b;
    var f, g := r / 1461, r % 1461;
    var s := if g < 365 then 0 else if g < 730 then 1 else if g < 1095 then 2 else 3;
    CycleDivisions(doe, b, f, g);
    var q := 100 * b + 4 * f + s;
    assert doe - doe / 1460 + b == 365 * q + (g - 365 * s) - (24 * b + f + g) / 1460;
    assert 0 <= (g - 365 * s) - (24 * b + f + g) / 1460 < 365;
    YearOfCycle(doe, b, q, (g - 365 * s) - (24 * b + f + g) / 1460);
    CycleStart(b, f, s);
  }

  lemma CycleDivisions(doe: int, b: int, f: int, g: int)
    requires 0 <= b <= 3 && 0 <= f <= 24 && 0 <= g < 1461 && doe == 36_524 * b + 1461 * f + g
    ensures doe / 1460 == 25 * b + f + (24 * b + f + g) / 1460
  {
    assert doe == 1460 * (25 * b + f) + (24 * b + f + g);
  }

  lemma YearOfCycle(doe: int, b: int, q: int, left: int)
    requires 0 <= b <= 3 && 36_524 * b <= doe < 36_524 * (b + 1)
    requires doe - doe / 1460 + b == 365 * q + left && 0 <= left < 365
    ensures YearOf(doe) == q
  {
    assert doe / 36_524 == b && doe / 146_096 == 0;
  }

  /** The year before which `b` centuries, `f` four-year cycles and `s` years have passed, and the next. */
  lemma CycleStart(b: int, f: int, s: int)
    requires 0 <= b <= 3 && 0 <= f <= 24 && 0 <= s <= 3
    ensures var q := 100 * b + 4 * f + s;
      && YearStart(q) == 36_524 * b + 1461 * f + 365 * s
      && YearEnd(q) == if s < 3 then YearStart(q) + 365 else if f < 24 then 36_524 * b + 1461 * (f + 1)
                       else if b < 3 then 36_524 * (b + 1) else 146_097
  {
    var q := 100 * b + 4 * f + s;
    assert q / 4 == 25 * b + f && q / 100 == b;
    assert s < 3 ==> (q + 1) / 4 == 25 * b + f && (q + 1) / 100 == b;
    assert s == 3 ==> (q + 1) / 4 == 25 * b + f + 1;
    assert s == 3 && f < 24 ==> (q + 1) / 100 == b;
  }

  lemma YearsRise(p: int, q: int)
    requires 0 <= p < q <= 399
    ensures YearEnd(p) <= YearStart(q)
  {
  }

  /** The year that holds a day is the only one. */
  lemma YearUnique(doe: int, yoe: int)
    requires 0 <= yoe <= 399 && YearStart(yoe) <= doe < YearEnd(yoe)
    ensures 0 <= doe < 146_097 && YearOf(doe) == yoe
  {
    if yoe < 399 {
      YearsRise(yoe, 399);
    }
    YearHolds(doe);
    if YearOf(doe) < yoe {
      YearsRise(YearOf(doe), yoe);
    }
    if yoe < YearOf(doe) {
      YearsRise(yoe, YearOf(doe));
    }
  }

  // --- months of a year, counted from March ----------------------------------------------------

  function MonthStart(mp: int): int { (153 * mp + 2) / 5 }

  function MonthIndex(m: int): int { if m > 2 then m - 3 else m + 9 }

  /** The month formula finds the month that holds the day of the year, and the two month numberings agree. */
  lemma MonthHolds(doy: int)
    requires 0 <= doy <= 365
    ensures var mp := (5 * doy + 2) / 153;
      0 <= mp <= 11 && MonthStart(mp) <= doy && (mp < 11 ==> doy < MonthStart(mp + 1))
  {
  }

  lemma MonthUnique(doy: int, mp: int)
    requires 0 <= mp <= 11 && MonthStart(mp) <= doy <= 365 && (mp < 11 ==> doy < MonthStart(mp + 1))
    ensures (5 * doy + 2) / 153 == mp
  {
  }

  /** The length of the March-based year: long when the civil year it runs into is a leap year. */
  lemma YearLength(era: int, yoe: int)
    requires 0 <= yoe <= 399
    ensures YearEnd(yoe) - YearStart(yoe) == if Leap(yoe + era * 400 + 1) then 366 else 365
  {
    var y := yoe + 1;
    LeapShift(y, era);
    assert (y / 4) - (yoe / 4) == if y % 4 == 0 then 1 else 0;
    assert (y / 100) - (yoe / 100) == if y % 100 == 0 then 1 else 0;
  }

  lemma LeapShift(y: int, era: int)
    ensures Leap(y + era * 400) <==> Leap(y)
  {
    FourShift(y, era);
    CenturyShift(y, era);
    CycleShift(y, era);
  }

  lemma FourShift(y: int, era: int)
    ensures (y + era * 400) % 4 == y % 4
  {
    assert y + era * 400 == 4 * (y / 4 + 100 * era) + y % 4;
  }

  lemma CenturyShift(y: int, era: int)
    ensures (y + era * 400) % 100 == y % 100
  {
    assert y + era * 400 == 100 * (y / 100 + 4 * era) + y % 100;
  }

  lemma CycleShift(y: int, era: int)
    ensures (y + era * 400) % 400 == y % 400
  {
    assert y + era * 400 == 400 * (y / 400 + era) + y % 400;
  }

  /** Each month but the last ends where the next one starts; February ends the March-based year. */
  lemma MonthLength(y: int, m: int)
    requires 1 <= m <= 12 && m != 2
    ensures MonthStart(MonthIndex(m) + 1) - MonthStart(MonthIndex(m)) == DaysInMonth(y, m)
  {
  }

  // --- the bijection ---------------------------------------------------------------------------

  /** The civil date and its coordinates: era, year of era, day of year, month index. */
  function DateAt(era: int, yoe: int, doy: int): Date {
    var mp := (5 * doy + 2) / 153;
    var m := if mp < 10 then mp + 3 else mp - 9;
    Date(if m <= 2 then yoe + era * 400 + 1 else yoe + era * 400, m, doy - MonthStart(mp) + 1)
  }

  function DayAt(era: int, yoe: int, doy: int): int { era * 146_097 + YearStart(yoe) + doy - 719_468 }

  predicate InYear(yoe: int, doy: int) { 0 <= yoe <= 399 && 0 <= doy < YearEnd(yoe) - YearStart(yoe) }

  /** Every day number has coordinates, and the first algorithm finds them. */
  lemma DaysHaveCoordinates(days: int) returns (era: int, yoe: int, doy: int)
    ensures InYear(yoe, doy) && days == DayAt(era, yoe, doy) && CivilFromDays(days) == DateAt(era, yoe, doy)
  {
    var z := days + 719_468;
    EraRoundsDown(z, 146_097);
    era := Quotient(if z >= 0 then z else z - 146_096, 146_097);
    var doe := z - era * 146_097;
    CivilOfEra(days, era, doe);
    hide CivilFromDays, DateAt, YearStart, YearEnd, YearOf, Quotient;
    YearHolds(doe);
    yoe := YearOf(doe);
    doy := doe - YearStart(yoe);
  }

  /** Within an era all the divisions are of numbers that are not negative. */
  lemma CivilOfEra(days: int, era: int, doe: int)
    requires era == Quotient(if days + 719_468 >= 0 then days + 719_468 else days + 719_468 - 146_096, 146_097)
    requires 0 <= doe < 146_097 && doe == days + 719_468 - era * 146_097
    ensures CivilFromDays(days) == DateAt(era, YearOf(doe), doe - YearStart(YearOf(doe)))
  {
    YearHolds(doe);
    YearTerms(doe);
    MonthTerms(doe - YearStart(YearOf(doe)));
    hide YearOf, YearEnd, Quotient;
  }

  lemma YearTerms(doe: int)
    requires 0 <= doe < 146_097 && 0 <= YearOf(doe) <= 399
    ensures Quotient(doe - Quotient(doe, 1460) + Quotient(doe, 36_524) - Quotient(doe, 146_096), 365) == YearOf(doe)
    ensures 365 * YearOf(doe) + Quotient(YearOf(doe), 4) - Quotient(YearOf(doe), 100) == YearStart(YearOf(doe))
  {
  }

  lemma MonthTerms(doy: int)
    requires 0 <= doy
    ensures Quotient(5 * doy + 2, 153) == (5 * doy + 2) / 153
    ensures Quotient(153 * Quotient(5 * doy + 2, 153) + 2, 5) == MonthStart((5 * doy + 2) / 153)
  {
  }

  /** Day numbers with coordinates are those coordinates' dates. */
  lemma CivilAt(era: int, yoe: int, doy: int)
    requires InYear(yoe, doy)
    ensures CivilFromDays(DayAt(era, yoe, doy)) == DateAt(era, yoe, doy)
  {
    hide CivilFromDays, DateAt, YearStart, YearEnd, YearOf;
    var days := DayAt(era, yoe, doy);
    var e, y, d := DaysHaveCoordinates(days);
    YearUnique(YearStart(yoe) + doy, yoe);
    YearUnique(YearStart(y) + d, y);
    SameEra(days + 719_468, era, e);
  }

  /** The dates of coordinates are valid, and the second algorithm counts their days. */
  lemma DateAtValid(era: int, yoe: int, doy: int)
    requires InYear(yoe, doy)
    ensures Valid(DateAt(era, yoe, doy)) && DaysFromCivil(DateAt(era, yoe, doy)) == DayAt(era, yoe, doy)
  {
    var c := DateAt(era, yoe, doy);
    YearLength(era, yoe);
    MonthHolds(doy);
    if c.month != 2 {
      MonthLength(c.year, c.month);
    }
    DaysAt(c, era, yoe);
  }

  /** What the day count computes, given the era and year of era of the March-based year. */
  lemma DaysAt(c: Date, era: int, yoe: int)
    requires 1 <= c.month <= 12 && c.day >= 1 && 0 <= yoe <= 399
    requires (if c.month <= 2 then c.year - 1 else c.year) == yoe + era * 400
    ensures DaysFromCivil(c) == DayAt(era, yoe, MonthStart(MonthIndex(c.month)) + c.day - 1)
  {
    var yy := if c.month <= 2 then c.year - 1 else c.year;
    EraRoundsDown(yy, 400);
    SameCycle(yy, Quotient(if yy >= 0 then yy else yy - 399, 400), era);
  }

  /** Every valid date has coordinates. */
  lemma DatesHaveCoordinates(c: Date) returns (era: int, yoe: int, doy: int)
    requires Valid(c)
    ensures InYear(yoe, doy) && c == DateAt(era, yoe, doy)
  {
    var yy := if c.month <= 2 then c.year - 1 else c.year;
    EraRoundsDown(yy, 400);
    era := Quotient(if yy >= 0 then yy else yy - 399, 400);
    yoe := yy - era * 400;
    var mp := MonthIndex(c.month);
    doy := MonthStart(mp) + c.day - 1;
    YearLength(era, yoe);
    if c.month != 2 {
      MonthLength(c.year, c.month);
    }
    assert doy < YearEnd(yoe) - YearStart(yoe);
    MonthUnique(doy, mp);
  }

  /** Counting the days of the date of a day number gives the day number back, for every integer. */
  lemma DaysRoundTrip(days: int)
    ensures Valid(CivilFromDays(days)) && DaysFromCivil(CivilFromDays(days)) == days
  {
    var era, yoe, doy := DaysHaveCoordinates(days);
    DateAtValid(era, yoe, doy);
  }

  /** A date with the day in 1 to 31 comes back from its day count exactly when its month has that day. */
  lemma DateRoundTrip(c: Date)
    requires 1 <= c.month <= 12 && 1 <= c.day <= 31
    ensures CivilFromDays(DaysFromCivil(c)) == c <==> c.day <= DaysInMonth(c.year, c.month)
  {
    hide CivilFromDays, DaysFromCivil, DaysInMonth;
    DaysRoundTrip(DaysFromCivil(c));
    if Valid(c) {
      ValidRoundTrip(c);
    }
  }

  lemma ValidRoundTrip(c: Date)
    requires Valid(c)
    ensures CivilFromDays(DaysFromCivil(c)) == c
  {
    hide CivilFromDays, DaysFromCivil, DaysInMonth, Valid, YearStart, YearEnd, DateAt;
    var era, yoe, doy := DatesHaveCoordinates(c);
    DateAtValid(era, yoe, doy);
    CivilAt(era, yoe, doy);
  }

  // --- it is the Gregorian calendar ------------------------------------------------------------

  /** The day after is one day later; with the epoch this fixes both algorithms on all dates. */
  lemma TomorrowIsNext(c: Date)
    requires Valid(c)
    ensures Valid(Tomorrow(c)) && DaysFromCivil(Tomorrow(c)) == DaysFromCivil(c) + 1
  {
    var yy := if c.month <= 2 then c.year - 1 else c.year;
    EraRoundsDown(yy, 400);
    var era := Quotient(if yy >= 0 then yy else yy - 399, 400);
    var yoe := yy - era * 400;
    DaysAt(c, era, yoe);
    if c.day == DaysInMonth(c.year, c.month) && c.month == 2 {
      YearLength(era, yoe);
      MarchFirst(era, yoe, c.day);
      hide DaysFromCivil, YearStart, YearEnd, Leap;
      DaysAt(Tomorrow(c), if yoe < 399 then era else era + 1, if yoe < 399 then yoe + 1 else 0);
    } else {
      MonthLength(c.year, if c.month == 2 then 1 else c.month);
      hide DaysFromCivil, YearStart, Leap;
      DaysAt(Tomorrow(c), era, yoe);
    }
  }

  /** The last day of a February is followed by the first day of the next March-based year. */
  lemma MarchFirst(era: int, yoe: int, day: int)
    requires 0 <= yoe <= 399 && YearEnd(yoe) - YearStart(yoe) == 337 + day
    ensures DayAt(if yoe < 399 then era else era + 1, if yoe < 399 then yoe + 1 else 0, 0)
         == DayAt(era, yoe, MonthStart(11) + day - 1) + 1
  {
  }

  lemma EpochIsZero()
    ensures DaysFromCivil(Date(1970, 1, 1)) == 0 && CivilFromDays(0) == Date(1970, 1, 1)
  {
    EpochCount();
    hide CivilFromDays, DaysFromCivil;
    ValidRoundTrip(Date(1970, 1, 1));
  }

  lemma EpochCount()
    ensures DaysFromCivil(Date(1970, 1, 1)) == 0
  {
    DaysAt(Date(1970, 1, 1), 4, 369);
  }

  /** Day by day, the dates of consecutive day numbers are consecutive dates. */
  lemma DaysAreConsecutive(days: int)
    ensures CivilFromDays(days + 1) == Tomorrow(CivilFromDays(days))
  {
    hide CivilFromDays, DaysFromCivil, Tomorrow, Valid;
    DaysRoundTrip(days);
    TomorrowIsNext(CivilFromDays(days));
    ValidRoundTrip(Tomorrow(CivilFromDays(days)));
  }

  /** A parsed day past the end of its month counts into the next one. */
  lemma OverflowingDay(c: Date)
    requires 1 <= c.month <= 12 && DaysInMonth(c.year, c.month) < c.day <= 31
    ensures var next := if c.month < 12 then Date(c.year, c.month + 1, c.day - DaysInMonth(c.year, c.month))
                        else Date(c.year + 1, 1, c.day - DaysInMonth(c.year, c.month));
      CivilFromDays(DaysFromCivil(c)) == next
  {
    hide DaysFromCivil, CivilFromDays, Leap;
    var end := Date(c.year, c.month, DaysInMonth(c.year, c.month));
    var first := Tomorrow(end);
    TomorrowIsNext(end);
    var next := Date(first.year, first.month, c.day - DaysInMonth(c.year, c.month));
    DaysLinear(c, end.day);
    DaysLinear(next, 1);
    ValidRoundTrip(next);
  }

  lemma DaysLinear(c: Date, day: int)
    ensures DaysFromCivil(c) == DaysFromCivil(c.(day := day)) + (c.day - day)
  {
  }
}
