/**
 Date-only values: a string of the form YYYY-MM-DD, stored as the UTC midnight of
 that day. The calendar is the arithmetic of section 21.4.1 of ECMA-262; the accepted
 strings are the full-date of section 5.6 of RFC 3339 with the day limits of section 5.7.
 */
module DateOnly {
  import opened Foundations
  import opened Numerals

  const MS_PER_DAY: int := 86400000

  predicate Leap(y: int) {
    y % 4 == 0 && (y % 100 != 0 || y % 400 == 0)
  }

  function DaysInYear(y: int): int {
    if Leap(y) then 366 else 365
  }

  function DayFromYear(y: int): int {
    365 * (y - 1970) + (y - 1969) / 4 - (y - 1901) / 100 + (y - 1601) / 400
  }

  lemma EveryFour(y: int)
    ensures (y - 1968) / 4 - (y - 1969) / 4 == if y % 4 == 0 then 1 else 0
  {
  }

  lemma EveryHundred(y: int)
    ensures (y - 1900) / 100 - (y - 1901) / 100 == if y % 100 == 0 then 1 else 0
  {
  }

  lemma EveryFourHundred(y: int)
    ensures (y - 1600) / 400 - (y - 1601) / 400 == if y % 400 == 0 then 1 else 0
  {
  }

  lemma HundredDivides(q: int)
    ensures 100 * q % 100 == 0
  {
  }

  lemma FourDivides(q: int)
    ensures 4 * q % 4 == 0
  {
  }

  lemma CenturiesNest(y: int)
    ensures y % 400 == 0 ==> y % 100 == 0
    ensures y % 100 == 0 ==> y % 4 == 0
  {
    HundredDivides(4 * (y / 400));
    FourDivides(25 * (y / 100));
    assert y % 400 == 0 ==> y == 100 * (4 * (y / 400));
    assert y % 100 == 0 ==> y == 4 * (25 * (y / 100));
  }

  lemma YearStep(y: int)
    ensures DayFromYear(y + 1) == DayFromYear(y) + DaysInYear(y)
  {
    EveryFour(y);
    EveryHundred(y);
    EveryFourHundred(y);
    CenturiesNest(y);
  }

  lemma {:induction false} YearsAscend(y: int, z: int)
    requires y < z
    ensures DayFromYear(y + 1) <= DayFromYear(z)
    decreases z - y
  {
    if y + 1 < z {
      YearStep(y + 1);
      YearsAscend(y + 1, z);
    }
  }

  /** Days before the month of index m (0 is January, 12 is the end of the year). */
  function MonthStart(leap: bool, m: int): int
    requires 0 <= m <= 12
  {
    var feb := if leap then 29 else 28;
    [0, 31, 31 + feb, 62 + feb, 92 + feb, 123 + feb, 153 + feb, 184 + feb, 215 + feb, 245 + feb, 276 + feb, 306 + feb, 337 + feb][m]
  }

  /** Day number of a year, a zero-based month and a date, each possibly out of range. */
  function MakeDay(year: int, month: int, date: int): int {
    var ym := year + month / 12;
    DayFromYear(ym) + MonthStart(Leap(ym), month % 12) + date - 1
  }

  /** The year a day falls in: the largest y with DayFromYear(y) <= day. */
  function YearFrom(y: int, day: int): (r: int)
    ensures DayFromYear(r) <= day < DayFromYear(r + 1)
    decreases Distance(y, day)
  {
    DistanceShrinks(y, day);
    if day < DayFromYear(y) then YearFrom(y - 1, day)
    else if day >= DayFromYear(y + 1) then YearFrom(y + 1, day)
    else y
  }

  function Distance(y: int, day: int): nat {
    if DayFromYear(y) <= day < DayFromYear(y + 1) then 0
    else if day < DayFromYear(y) then DayFromYear(y) - day else day - DayFromYear(y)
  }

  lemma DistanceShrinks(y: int, day: int)
    ensures day < DayFromYear(y) ==> Distance(y - 1, day) < Distance(y, day)
    ensures day >= DayFromYear(y + 1) ==> Distance(y + 1, day) < Distance(y, day)
  {
    YearStep(y - 1);
    YearStep(y);
    YearStep(y + 1);
  }

  function Year(t: Instant): int {
    YearFrom(1970, t / MS_PER_DAY)
  }

  function DayInYear(t: Instant): (d: int)
    ensures 0 <= d < DaysInYear(Year(t))
  {
    YearStep(Year(t));
    t / MS_PER_DAY - DayFromYear(Year(t))
  }

  function MonthOfDay(leap: bool, d: int, m: int): (r: int)
    requires 0 <= m < 12 && MonthStart(leap, m) <= d < MonthStart(leap, 12)
    ensures 0 <= r < 12 && MonthStart(leap, r) <= d < MonthStart(leap, r + 1)
    decreases 12 - m
  {
    if d < MonthStart(leap, m + 1) then m else MonthOfDay(leap, d, m + 1)
  }

  /** getUTCMonth: zero-based. */
  function Month(t: Instant): (m: int)
    ensures 0 <= m < 12
  {
    MonthOfDay(Leap(Year(t)), DayInYear(t), 0)
  }

  /** getUTCDate. */
  function Date(t: Instant): int {
    DayInYear(t) - MonthStart(Leap(Year(t)), Month(t)) + 1
  }

  function DaysInMonth(y: int, m: int): int
    requires 1 <= m <= 12
  {
    MonthStart(Leap(y), m) - MonthStart(Leap(y), m - 1)
  }

  predicate RealDate(y: int, m: int, d: int) {
    1 <= m <= 12 && 1 <= d <= DaysInMonth(y, m)
  }

  function UtcCalendarDate(y: int, m: int, d: int): Instant {
    MakeDay(y, m - 1, d) * MS_PER_DAY
  }

  lemma {:induction false} MonthIsUnique(leap: bool, m: int, n: int, d: int)
    requires 0 <= m < 12 && 0 <= n < 12
    requires MonthStart(leap, m) <= d < MonthStart(leap, m + 1)
    requires MonthStart(leap, n) <= d < MonthStart(leap, n + 1)
    ensures m == n
  {
  }

  lemma YearIsUnique(y: int, z: int, day: int)
    requires DayFromYear(y) <= day < DayFromYear(y + 1)
    requires DayFromYear(z) <= day < DayFromYear(z + 1)
    ensures y == z
  {
    if y < z { YearsAscend(y, z); }
    if z < y { YearsAscend(z, y); }
  }

  lemma MidnightOf(day: int)
    ensures day * MS_PER_DAY / MS_PER_DAY == day && day * MS_PER_DAY % MS_PER_DAY == 0
  {
  }

  lemma MonthsFillYear(y: int, m: int, d: int)
    requires RealDate(y, m, d)
    ensures DayFromYear(y) <= MakeDay(y, m - 1, d) < DayFromYear(y + 1)
    ensures MakeDay(y, m - 1, d) - DayFromYear(y) == MonthStart(Leap(y), m - 1) + d - 1
  {
    YearStep(y);
    assert (m - 1) / 12 == 0 && (m - 1) % 12 == m - 1;
  }

  lemma GettersAreReal(t: Instant)
    ensures RealDate(Year(t), Month(t) + 1, Date(t))
    ensures MakeDay(Year(t), Month(t), Date(t)) == t / MS_PER_DAY
  {
    var y, m := Year(t), Month(t);
    assert m / 12 == 0 && m % 12 == m;
  }

  lemma RealDateReadsBack(y: int, m: int, d: int)
    requires RealDate(y, m, d)
    ensures var t := UtcCalendarDate(y, m, d); Year(t) == y && Month(t) == m - 1 && Date(t) == d
  {
    var day, t := MakeDay(y, m - 1, d), UtcCalendarDate(y, m, d);
    MidnightOf(day);
    MonthsFillYear(y, m, d);
    YearIsUnique(y, Year(t), day);
    MonthIsUnique(Leap(y), m - 1, Month(t), DayInYear(t));
  }

  /** Writing a date and reading it back gives the same date exactly for the real dates. */
  lemma CalendarReadsBack(y: int, m: int, d: int)
    ensures RealDate(y, m, d) <==>
      var t := UtcCalendarDate(y, m, d); Year(t) == y && Month(t) == m - 1 && Date(t) == d
  {
    if RealDate(y, m, d) { RealDateReadsBack(y, m, d); } else { GettersAreReal(UtcCalendarDate(y, m, d)); }
  }

  // --- The getters follow the calendar, day after day ---

  /** The Gregorian length of a month. */
  function MonthLength(y: int, m: int): int {
    if m == 2 then (if y % 400 == 0 || (y % 4 == 0 && y % 100 != 0) then 29 else 28)
    else if m == 4 || m == 6 || m == 9 || m == 11 then 30 else 31
  }

  lemma MonthLengths(y: int, m: int)
    requires 1 <= m <= 12
    ensures DaysInMonth(y, m) == MonthLength(y, m)
  {
    CenturiesNest(y);
  }

  /** The date after a date. */
  function Tomorrow(y: int, m: int, d: int): (int, int, int) {
    if d < MonthLength(y, m) then (y, m, d + 1) else if m < 12 then (y, m + 1, 1) else (y + 1, 1, 1)
  }

  lemma NextOfMonth(y: int, m: int, d: int)
    requires RealDate(y, m, d) && d < DaysInMonth(y, m)
    ensures RealDate(y, m, d + 1) && MakeDay(y, m - 1, d + 1) == MakeDay(y, m - 1, d) + 1
  {
  }

  lemma FirstOfMonth(y: int, m: int, d: int)
    requires RealDate(y, m, d) && d == DaysInMonth(y, m) && m < 12
    ensures RealDate(y, m + 1, 1) && MakeDay(y, m, 1) == MakeDay(y, m - 1, d) + 1
  {
    MonthsFillYear(y, m, d);
    MonthsFillYear(y, m + 1, 1);
  }

  lemma FirstOfYear(y: int, d: int)
    requires RealDate(y, 12, d) && d == DaysInMonth(y, 12)
    ensures RealDate(y + 1, 1, 1) && MakeDay(y + 1, 0, 1) == MakeDay(y, 11, d) + 1
  {
    MonthsFillYear(y, 12, d);
    MonthsFillYear(y + 1, 1, 1);
    YearStep(y);
  }

  lemma TomorrowIsNext(y: int, m: int, d: int, y2: int, m2: int, d2: int)
    requires RealDate(y, m, d) && (y2, m2, d2) == Tomorrow(y, m, d)
    ensures RealDate(y2, m2, d2) && MakeDay(y2, m2 - 1, d2) == MakeDay(y, m - 1, d) + 1
  {
    MonthLengths(y, m);
    if d < DaysInMonth(y, m) {
      NextOfMonth(y, m, d);
    } else if m < 12 {
      FirstOfMonth(y, m, d);
    } else {
      FirstOfYear(y, d);
    }
  }

  lemma SameYear(t: Instant, u: Instant)
    requires t / MS_PER_DAY == u / MS_PER_DAY
    ensures Year(t) == Year(u) && DayInYear(t) == DayInYear(u)
  {
  }

  lemma GettersSeeTheDay(t: Instant, u: Instant)
    requires t / MS_PER_DAY == u / MS_PER_DAY
    ensures Year(t) == Year(u) && Month(t) == Month(u) && Date(t) == Date(u)
  {
    SameYear(t, u);
    assert Month(t) == Month(u);
  }

  lemma DayReadsBack(t: Instant, y: int, m: int, d: int)
    requires RealDate(y, m, d) && t / MS_PER_DAY == MakeDay(y, m - 1, d)
    ensures Year(t) == y && Month(t) + 1 == m && Date(t) == d
  {
    RealDateReadsBack(y, m, d);
    MidnightOf(MakeDay(y, m - 1, d));
    GettersSeeTheDay(t, UtcCalendarDate(y, m, d));
  }

  lemma DayLater(t: Instant, u: Instant)
    requires u == t + MS_PER_DAY
    ensures u / MS_PER_DAY == t / MS_PER_DAY + 1
  {
  }

  lemma LaterDate(u: Instant, y: int, m: int, d: int)
    requires RealDate(y, m, d) && u / MS_PER_DAY == MakeDay(y, m - 1, d) + 1
    ensures (Year(u), Month(u) + 1, Date(u)) == Tomorrow(y, m, d)
  {
    var next := Tomorrow(y, m, d);
    TomorrowIsNext(y, m, d, next.0, next.1, next.2);
    DayReadsBack(u, next.0, next.1, next.2);
  }

  /** A day later the getters give the date after, at every instant: months, leap years and turns of the year included. */
  lemma EveryDayFollowsTheCalendar(t: Instant, u: Instant)
    requires u == t + MS_PER_DAY
    ensures (Year(u), Month(u) + 1, Date(u)) == Tomorrow(Year(t), Month(t) + 1, Date(t))
  {
    GettersAreReal(t);
    DayLater(t, u);
    LaterDate(u, Year(t), Month(t) + 1, Date(t));
  }

  lemma NewYear1970(y: int)
    requires y == 1970
    ensures RealDate(y, 1, 1) && MakeDay(y, 0, 1) == 0
  {
    MonthLengths(y, 1);
    assert DayFromYear(y) == 0;
  }

  lemma DayZero(t: Instant)
    requires 0 <= t < MS_PER_DAY
    ensures t / MS_PER_DAY == 0
  {
  }

  /** And the day of instant zero is the first of January 1970. */
  lemma EpochIsNewYear1970(t: Instant, y: int)
    requires 0 <= t < MS_PER_DAY && y == 1970
    ensures Year(t) == y && Month(t) == 0 && Date(t) == 1
  {
    NewYear1970(y);
    DayZero(t);
    DayReadsBack(t, y, 1, 1);
  }

  // --- Strings ---

  predicate DateShape(s: string) {
    |s| == 10 && s[4] == '-' && s[7] == '-' &&
    AllDigits(s[0..4]) && AllDigits(s[5..7]) && AllDigits(s[8..10])
  }

  predicate IsDateOnlyString(s: string) {
    DateShape(s) &&
    var y, m, d := Val(s[0..4]), Val(s[5..7]), Val(s[8..10]);
    if y < 1 || y > 9999 then false
    else
      var t := UtcCalendarDate(y, m, d);
      Year(t) == y && Month(t) == m - 1 && Date(t) == d
  }

  function ParseDateOnly(s: string): Option<Instant> {
    if !IsDateOnlyString(s) then None
    else Some(UtcCalendarDate(Val(s[0..4]), Val(s[5..7]), Val(s[8..10])))
  }

  function ShowInt(n: int): string {
    if n < 0 then "-" + Show(-n) else Show(n)
  }

  function Printed(y: int, m: int, d: int): string {
    PadStart(ShowInt(y), 4) + "-" + PadStart(ShowInt(m), 2) + "-" + PadStart(ShowInt(d), 2)
  }

  function SerializeDateOnly(t: Instant): Option<string> {
    var s := Printed(Year(t), Month(t) + 1, Date(t));
    if IsDateOnlyString(s) then Some(s) else None
  }

  /** The accepted strings are exactly the real calendar dates of the years 1 to 9999. */
  lemma AcceptedStringsAreRealDates(s: string)
    ensures IsDateOnlyString(s) <==>
      DateShape(s) && 1 <= Val(s[0..4]) && RealDate(Val(s[0..4]), Val(s[5..7]), Val(s[8..10]))
  {
    if DateShape(s) {
      CalendarReadsBack(Val(s[0..4]), Val(s[5..7]), Val(s[8..10]));
      ValBelow(s[0..4]);
      assert Bound(4) == 10000;
    }
  }

  function Format(y: nat, m: nat, d: nat): string {
    PadStart(Show(y), 4) + "-" + PadStart(Show(m), 2) + "-" + PadStart(Show(d), 2)
  }

  lemma FormatOfParts(s: string)
    requires DateShape(s)
    ensures Format(Val(s[0..4]), Val(s[5..7]), Val(s[8..10])) == s
  {
    PadShowVal(s[0..4]);
    PadShowVal(s[5..7]);
    PadShowVal(s[8..10]);
    assert s == s[0..4] + "-" + s[5..7] + "-" + s[8..10];
  }

  lemma PartsOfFormat(y: nat, m: nat, d: nat)
    requires y < 10000 && m < 100 && d < 100
    ensures var s := Format(y, m, d);
      DateShape(s) && Val(s[0..4]) == y && Val(s[5..7]) == m && Val(s[8..10]) == d
  {
    assert Bound(2) == 100 && Bound(4) == 10000;
    PaddedNumeral(y, 4);
    PaddedNumeral(m, 2);
    PaddedNumeral(d, 2);
    var s := Format(y, m, d);
    assert s[0..4] == PadStart(Show(y), 4);
    assert s[5..7] == PadStart(Show(m), 2);
    assert s[8..10] == PadStart(Show(d), 2);
  }

  /** Save then read back: a parsed date prints as the string it came from. */
  lemma SerializeAfterParse(s: string)
    requires ParseDateOnly(s).Some?
    ensures SerializeDateOnly(ParseDateOnly(s).value) == Some(s)
    ensures ParseDateOnly(s).value % MS_PER_DAY == 0
  {
    var y, m, d := Val(s[0..4]), Val(s[5..7]), Val(s[8..10]);
    var t := UtcCalendarDate(y, m, d);
    FormatOfParts(s);
    MidnightOf(MakeDay(y, m - 1, d));
    assert Year(t) == y && Month(t) + 1 == m && Date(t) == d;
    assert ShowInt(y) == Show(y) && ShowInt(m) == Show(m) && ShowInt(d) == Show(d);
  }

  lemma FormatParses(y: nat, m: nat, d: nat)
    requires 1 <= y <= 9999 && RealDate(y, m, d)
    ensures ParseDateOnly(Format(y, m, d)) == Some(UtcCalendarDate(y, m, d))
  {
    PartsOfFormat(y, m, d);
    AcceptedStringsAreRealDates(Format(y, m, d));
  }

  lemma NegativeIsNoNumeral(y: int)
    requires y < 0
    ensures !AllDigits(PadStart(ShowInt(y), 4))
  {
    var shown := PadStart(ShowInt(y), 4);
    assert shown[|shown| - |ShowInt(y)|] == ShowInt(y)[0] == '-';
  }

  /** A day part that does not show a year from 1 to 9999 makes no accepted string. */
  lemma OtherYearsAreRefused(y: int, rest: string)
    requires !(1 <= y <= 9999) && |rest| == 6
    ensures !IsDateOnlyString(PadStart(ShowInt(y), 4) + rest)
  {
    var shown := PadStart(ShowInt(y), 4);
    var s := shown + rest;
    if DateShape(s) {
      assert |shown| == 4 && s[0..4] == shown;
      if y < 0 {
        NegativeIsNoNumeral(y);
      } else if y == 0 {
        assert Bound(4) == 10000;
        PaddedNumeral(0, 4);
      } else {
        ValOfShow(y);
        ValBelow(Show(y));
      }
    }
  }

  lemma OtherYearsPrintNothing(y: int, m: nat, d: nat)
    requires !(1 <= y <= 9999) && m < 100 && d < 100
    ensures !IsDateOnlyString(Printed(y, m, d))
  {
    var shown, month, day := PadStart(ShowInt(y), 4), PadStart(ShowInt(m), 2), PadStart(ShowInt(d), 2);
    assert |month| == 2 && |day| == 2 by {
      assert Bound(2) == 100;
      PaddedNumeral(m, 2);
      PaddedNumeral(d, 2);
    }
    OtherYearsAreRefused(y, "-" + month + "-" + day);
    assert shown + "-" + month + "-" + day == shown + ("-" + month + "-" + day);
  }

  lemma RealDateFitsTwoDigits(y: int, m: int, d: int)
    requires RealDate(y, m, d)
    ensures 1 <= m < 100 && 1 <= d < 100
  {
  }

  lemma RealYearsPrint(y: nat, m: nat, d: nat)
    requires RealDate(y, m, d) && 1 <= y <= 9999
    ensures ParseDateOnly(Printed(y, m, d)) == Some(UtcCalendarDate(y, m, d))
  {
    assert Printed(y, m, d) == Format(y, m, d);
    FormatParses(y, m, d);
  }

  lemma PrintedParsesExactly(y: int, m: int, d: int)
    requires RealDate(y, m, d)
    ensures ParseDateOnly(Printed(y, m, d)) == if 1 <= y <= 9999 then Some(UtcCalendarDate(y, m, d)) else None
  {
    RealDateFitsTwoDigits(y, m, d);
    if 1 <= y <= 9999 { RealYearsPrint(y, m, d); } else { OtherYearsPrintNothing(y, m, d); }
  }

  lemma SerializedIsPrinted(t: Instant, y: int, m: int, d: int)
    requires y == Year(t) && m == Month(t) + 1 && d == Date(t)
    ensures SerializeDateOnly(t) == if ParseDateOnly(Printed(y, m, d)).Some? then Some(Printed(y, m, d)) else None
  {
  }

  /** The start of the UTC day of an instant. */
  function Midnight(t: Instant): Instant {
    t - t % MS_PER_DAY
  }

  lemma DaysTimesLength(t: Instant)
    ensures t / MS_PER_DAY * MS_PER_DAY == Midnight(t)
  {
  }

  lemma GettersNameMidnight(t: Instant)
    ensures UtcCalendarDate(Year(t), Month(t) + 1, Date(t)) == Midnight(t)
  {
    GettersAreReal(t);
    DaysTimesLength(t);
  }

  lemma SerializedExactly(t: Instant, y: int, m: int, d: int)
    requires y == Year(t) && m == Month(t) + 1 && d == Date(t)
    ensures SerializeDateOnly(t) == if 1 <= y <= 9999 then Some(Printed(y, m, d)) else None
  {
    GettersAreReal(t);
    PrintedParsesExactly(y, m, d);
    SerializedIsPrinted(t, y, m, d);
  }

  lemma PrintedIsMidnight(t: Instant, y: int, m: int, d: int, s: string, midnight: Instant)
    requires RealDate(y, m, d) && 1 <= y <= 9999 && s == Printed(y, m, d) && midnight == UtcCalendarDate(y, m, d)
    ensures ParseDateOnly(s) == Some(midnight)
  {
    PrintedParsesExactly(y, m, d);
  }

  /** An instant prints exactly in the years 1 to 9999, and then to a string that parses to the midnight of its day. */
  lemma ParseAfterSerialize(t: Instant)
    ensures SerializeDateOnly(t).Some? <==> 1 <= Year(t) <= 9999
    ensures SerializeDateOnly(t).Some? ==> ParseDateOnly(SerializeDateOnly(t).value) == Some(Midnight(t))
  {
    var y, m, d := Year(t), Month(t) + 1, Date(t);
    SerializedExactly(t, y, m, d);
    if SerializeDateOnly(t).Some? {
      assert RealDate(y, m, d) by { GettersAreReal(t); }
      GettersNameMidnight(t);
      PrintedIsMidnight(t, y, m, d, SerializeDateOnly(t).value, Midnight(t));
    }
  }
}
