/** Follow-up date parsing as the due-today and upcoming pages do it, with
    dates as day ordinals: the number of days since 1970-01-01 in local time.
    JavaScript's own `new Date(string)` parser is not modelled; it enters as the
    parameter `native`, which yields `None` for an invalid date. */
module Dates {
  import opened Wrappers
  import opened Strings

  /** How `parseFollowUpDate` reads a string. */
  datatype DateShape =
    | NoDate                                              // the empty string: `null`
    | DayFirst(day: string, month: string, year: string)  // handed to `new Date(year, month - 1, day)`
    | Native(text: string)                                // handed to `new Date(text)`

  /** The branch structure of `parseFollowUpDate`: a string with a '-', whose first
      '-'-separated segment has one or two characters and whose first three segments
      are non-empty, is read day-first; any other non-empty string goes to `new Date`. */
  function ClassifyFollowUpDate(s: string): (r: DateShape)
    ensures r.NoDate? <==> s == ""
    ensures r.DayFirst? <==>
      && '-' in s
      && 1 <= |Split(s, '-')[0]| <= 2
      && |Split(s, '-')| >= 3 && Split(s, '-')[1] != "" && Split(s, '-')[2] != ""
    ensures r.DayFirst? ==> [r.day, r.month, r.year] == Split(s, '-')[..3]
    ensures r.Native? ==> r.text == s
  {
    if s == "" then NoDate
    else
      var parts := Split(s, '-');
      if '-' in s && parts[0] != "" && |parts[0]| <= 2 && |parts| >= 3 && parts[1] != "" && parts[2] != ""
      then DayFirst(parts[0], parts[1], parts[2])
      else Native(s)
  }

  /** Days from 1970-01-01 to the proleptic Gregorian date `y`-`m`-`d` (`m` in 1..12). */
  function DaysFromCivil(y: int, m: int, d: int): int
    requires 1 <= m <= 12
  {
    var y' := if m <= 2 then y - 1 else y;
    var era := y' / 400;
    var yoe := y' - era * 400;
    var mp := if m > 2 then m - 3 else m + 9;
    var doy := (153 * mp + 2) / 5 + d - 1;
    var doe := yoe * 365 + yoe / 4 - yoe / 100 + doy;
    era * 146097 + doe - 719468
  }

  /** The `Date(year, monthIndex, day)` constructor's day arithmetic: month indices
      outside 0..11 carry into the year and days outside the month carry into the
      neighbouring months. */
  function MakeDay(year: int, monthIndex: int, day: int): int {
    DaysFromCivil(year + monthIndex / 12, monthIndex % 12 + 1, 1) + day - 1
  }

  /** The `Date` constructor reads the years 0..99 as 1900..1999. */
  function ConstructorYear(y: int): int {
    if 0 <= y <= 99 then 1900 + y else y
  }

  /** Dates more than 10^8 days from the epoch are invalid (`TimeClip`). */
  function TimeClip(t: int): (r: Option<int>)
    ensures r.Some? ==> r.value == t
  {
    if -100000000 <= t <= 100000000 then Some(t) else None
  }

  /** `new Date(parseInt(year), parseInt(month) - 1, parseInt(day))` at midnight, as a day
      ordinal; a segment that is not a digit string makes an invalid date. */
  function DayFirstDay(day: string, month: string, year: string): (r: Option<int>)
    ensures r.Some? ==> ParseNat(day).Some? && ParseNat(month).Some? && ParseNat(year).Some?
    ensures && ParseNat(day).Some? && ParseNat(month).Some? && ParseNat(year).Some?
            && 1 <= ParseNat(month).value <= 12
            ==> r == TimeClip(DaysFromCivil(ConstructorYear(ParseNat(year).value),
                                            ParseNat(month).value, ParseNat(day).value))
  {
    match (ParseNat(day), ParseNat(month), ParseNat(year))
    case (Some(d), Some(m), Some(y)) =>
      if 1 <= m <= 12 then MakeDayInRange(ConstructorYear(y), m, d); TimeClip(MakeDay(ConstructorYear(y), m as int - 1, d))
      else TimeClip(MakeDay(ConstructorYear(y), m as int - 1, d))
    case _ => None
  }

  /** The follow-up date as a day ordinal, `None` when `parseFollowUpDate` returns null
      or an invalid date (every comparison with which is false). */
  function FollowUpDay(s: string, native: string -> Option<int>): (r: Option<int>)
    ensures s == "" ==> r == None
  {
    match ClassifyFollowUpDate(s)
    case NoDate => None
    case DayFirst(d, m, y) => DayFirstDay(d, m, y)
    case Native(t) => native(t)
  }

  /** The Gregorian leap-year rule. */
  predicate IsLeapYear(y: int) {
    y % 4 == 0 && (y % 100 != 0 || y % 400 == 0)
  }

  /** The length of month `m` (1..12) of year `y`. */
  function DaysInMonth(y: int, m: int): int
    requires 1 <= m <= 12
  {
    if m == 2 then (if IsLeapYear(y) then 29 else 28)
    else if m == 4 || m == 6 || m == 9 || m == 11 then 30
    else 31
  }

  /** `getDay()` of a day ordinal: 0 is Sunday; 1970-01-01 was a Thursday. */
  function Weekday(t: int): (r: int)
    ensures 0 <= r <= 6
  {
    (t + 4) % 7
  }

  // ----- Properties -----

  /** The day ordinal counts from 1970-01-01, and 2025-03-05 is day 20152, a Wednesday. */
  lemma CalendarAnchors()
    ensures DaysFromCivil(1970, 1, 1) == 0
    ensures DaysFromCivil(2025, 3, 5) == 20152 && Weekday(20152) == 3
  {
  }

  /** For a month index in 0..11 and a day within the month, `MakeDay` is the calendar date. */
  lemma MakeDayInRange(y: int, m: int, d: int)
    requires 1 <= m <= 12
    ensures MakeDay(y, m - 1, d) == DaysFromCivil(y, m, d)
  {
    assert (m - 1) / 12 == 0 && (m - 1) % 12 == m - 1;
    assert DaysFromCivil(y, m, d) == DaysFromCivil(y, m, 1) + d - 1;
  }

  /** The day after the 31st of December (month index 11) is the 1st of January of the
      next year. */
  lemma YearRollover(y: int)
    ensures MakeDay(y, 11, 32) == MakeDay(y + 1, 0, 1)
  {
  }

  /** The day after the last day of month `m` (1..11) is the 1st of the next month, with
      the Gregorian month lengths. */
  lemma MonthRollover(y: int, m: int)
    requires 1 <= m <= 11
    ensures MakeDay(y, m - 1, DaysInMonth(y, m) + 1) == MakeDay(y, m, 1)
  {
    MakeDayInRange(y, m, DaysInMonth(y, m) + 1);
    MakeDayInRange(y, m + 1, 1);
    MonthLength(y, m);
  }

  /** The 1st of month `m + 1` is `DaysInMonth(y, m)` days after the 1st of month `m`. */
  lemma MonthLength(y: int, m: int)
    requires 1 <= m <= 11
    ensures DaysFromCivil(y, m + 1, 1) - DaysFromCivil(y, m, 1) == DaysInMonth(y, m)
  {
    if m == 2 {
      FebruaryLength(y);
    }
  }

  /** From the 1st of February to the 1st of March is 29 days in a leap year, else 28. */
  lemma FebruaryLength(y: int)
    ensures DaysFromCivil(y, 3, 1) - DaysFromCivil(y, 2, 1) == DaysInMonth(y, 2)
  {
    assert DaysFromCivil(y, 3, 1) == MarchDays(y) - 719468;
    assert DaysFromCivil(y, 2, 1) == MarchDays(y - 1) + 337 - 719468;
    YearLength(y);
  }

  /** Days from 0000-03-01 to `a`-03-01, by 400-year eras. */
  function MarchDays(a: int): int {
    (a / 400) * 146097 + (a % 400) * 365 + (a % 400) / 4 - (a % 400) / 100
  }

  /** The year from March 1st of `y - 1` to March 1st of `y` holds February 29th exactly
      when `y` is a leap year. */
  lemma YearLength(y: int)
    ensures MarchDays(y) - MarchDays(y - 1) == if IsLeapYear(y) then 366 else 365
  {
    var q, r := y / 400, y % 400;
    EraSplit(y);
    if r == 0 {
      assert (y - 1) / 400 == q - 1 && (y - 1) % 400 == 399;
      assert IsLeapYear(y);
    } else {
      assert (y - 1) / 400 == q && (y - 1) % 400 == r - 1;
      YearInEra(r);
    }
  }

  /** A year's place in its 400-year era decides the leap-year rule. */
  lemma EraSplit(y: int)
    ensures y == 400 * (y / 400) + y % 400
    ensures y % 4 == (y % 400) % 4 && y % 100 == (y % 400) % 100 && 0 <= y % 400 < 400
  {
  }

  /** Within an era, year `r` adds a leap day exactly when `r` is divisible by 4 but not by 100. */
  lemma YearInEra(r: int)
    requires 1 <= r < 400
    ensures r / 4 - (r - 1) / 4 == (if r % 4 == 0 then 1 else 0)
    ensures r / 100 - (r - 1) / 100 == (if r % 100 == 0 then 1 else 0)
    ensures r % 100 == 0 ==> r % 4 == 0
  {
  }

  /** "05-03-2025" splits into its three segments. */
  lemma SplitDayFirstExample()
    ensures Split("05-03-2025", '-') == ["05", "03", "2025"]
  {
    var day, month, year := "05", "03", "2025";
    assert '-' !in day && '-' !in month && '-' !in year;
    SplitThree(day, month, year);
    assert day + "-" + month + "-" + year == "05-03-2025";
  }

  /** The three segments of "05-03-2025" read as 5, 3 and 2025. */
  lemma ParseDayFirstExample()
    ensures ParseNat("05") == Some(5) && ParseNat("03") == Some(3) && ParseNat("2025") == Some(2025)
  {
    assert "05"[..1] == "0" && "0"[..0] == "";
    assert "03"[..1] == "0";
    assert "2025"[..3] == "202" && "202"[..2] == "20" && "20"[..1] == "2" && "2"[..0] == "";
  }

  /** "05-03-2025" takes the day-first branch. */
  lemma ClassifyDayFirstExample()
    ensures ClassifyFollowUpDate("05-03-2025") == DayFirst("05", "03", "2025")
  {
    SplitDayFirstExample();
    assert '-' in "05-03-2025" by { assert "05-03-2025"[2] == '-'; }
  }

  /** Day 5 of month 3 of 2025 is day 20152. */
  lemma DayFirstDayExample()
    ensures DayFirstDay("05", "03", "2025") == Some(20152)
  {
    ParseDayFirstExample();
    MakeDayInRange(2025, 3, 5);
    CalendarAnchors();
  }

  /** A two-digit year is read in the 1900s: "01-01-70" is 1 January 1970, day 0. */
  lemma ShortYearExample()
    ensures DayFirstDay("01", "01", "70") == Some(0)
  {
    assert ParseNat("01") == Some(1) && ParseNat("70") == Some(70) by {
      assert "01"[..1] == "0" && "0"[..0] == "";
      assert "70"[..1] == "7" && "7"[..0] == "";
    }
    assert ConstructorYear(70) == 1970;
    CalendarAnchors();
  }

  /** A day-first string's day is the day-first reading of its segments. */
  lemma FollowUpDayOfDayFirst(s: string, native: string -> Option<int>)
    requires ClassifyFollowUpDate(s).DayFirst?
    ensures var c := ClassifyFollowUpDate(s); FollowUpDay(s, native) == DayFirstDay(c.day, c.month, c.year)
  {
  }

  /** "05-03-2025" is read day-first as the 5th of March 2025 (day 20152). */
  lemma DayFirstExample(native: string -> Option<int>)
    ensures ClassifyFollowUpDate("05-03-2025") == DayFirst("05", "03", "2025")
    ensures FollowUpDay("05-03-2025", native) == Some(20152)
  {
    ClassifyDayFirstExample();
    DayFirstDayExample();
    FollowUpDayOfDayFirst("05-03-2025", native);
  }

  /** An ISO date such as "2025-03-05" (a four-character first segment) is left to `new Date`. */
  lemma IsoGoesNative()
    ensures ClassifyFollowUpDate("2025-03-05") == Native("2025-03-05")
  {
    var s := "2025-03-05";
    assert s == "2025" + ['-'] + "03-05";
    SplitCons("2025", '-', "03-05");
  }
}
