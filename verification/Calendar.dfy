/** The subscription form's Beijing-time fields: printing a timestamp, parsing the field back, and
    the default expiry. Date arithmetic follows ECMA-262 edition 5.1, sections 15.9.1.3 to 15.9.1.14. */
module Calendar {

  // ------------------------------------------------------------------ ECMAScript days, years and months

  const MS_PER_DAY := 86400000
  const EIGHT_HOURS_MS := 8 * 60 * 60 * 1000
  const MAX_TIME := 8640000000000000

  function DayFromYear(y: int): int {
    365 * (y - 1970) + (y - 1969) / 4 - (y - 1901) / 100 + (y - 1601) / 400
  }

  predicate Leap(y: int) {
    y % 4 == 0 && (y % 100 != 0 || y % 400 == 0)
  }

  function DaysInYear(y: int): int {
    if Leap(y) then 366 else 365
  }

  lemma YearLength(y: int)
    ensures DayFromYear(y + 1) == DayFromYear(y) + DaysInYear(y)
  {
    Step4(y);
    Step100(y);
    Step400(y);
  }

  lemma Step4(y: int)
    ensures (y + 1 - 1969) / 4 == (y - 1969) / 4 + if y % 4 == 0 then 1 else 0
  {
  }

  lemma Step100(y: int)
    ensures (y + 1 - 1901) / 100 == (y - 1901) / 100 + if y % 100 == 0 then 1 else 0
    ensures y % 100 == 0 ==> y % 4 == 0
  {
  }

  lemma Step400(y: int)
    ensures (y + 1 - 1601) / 400 == (y - 1601) / 400 + if y % 400 == 0 then 1 else 0
    ensures y % 400 == 0 ==> y % 100 == 0
  {
  }

  /** The year whose days include day number d, searched from year y. */
  function YearFrom(d: int, y: int): (r: int)
    ensures DayFromYear(r) <= d < DayFromYear(r + 1)
    decreases if d < DayFromYear(y) then DayFromYear(y) - d + 400 else d - DayFromYear(y)
  {
    YearLength(y);
    YearLength(y - 1);
    if d < DayFromYear(y) then YearFrom(d, y - 1)
    else if d >= DayFromYear(y + 1) then YearFrom(d, y + 1)
    else y
  }

  function Year(d: int): (y: int)
    ensures DayFromYear(y) <= d < DayFromYear(y + 1)
  {
    YearFrom(d, 1970)
  }

  /** Days of the year before month m, counted from 0; m == 12 gives the year's length. */
  function MonthStart(leap: bool, m: int): int
    requires 0 <= m <= 12
  {
    var extra := if leap && m >= 2 then 1 else 0;
    extra + [0, 31, 59, 90, 120, 151, 181, 212, 243, 273, 304, 334, 365][m]
  }

  function Month(leap: bool, dayInYear: int): (m: int)
    requires 0 <= dayInYear < MonthStart(leap, 12)
    ensures 0 <= m < 12 && MonthStart(leap, m) <= dayInYear < MonthStart(leap, m + 1)
  {
    if dayInYear < MonthStart(leap, 1) then 0 else if dayInYear < MonthStart(leap, 2) then 1
    else if dayInYear < MonthStart(leap, 3) then 2 else if dayInYear < MonthStart(leap, 4) then 3
    else if dayInYear < MonthStart(leap, 5) then 4 else if dayInYear < MonthStart(leap, 6) then 5
    else if dayInYear < MonthStart(leap, 7) then 6 else if dayInYear < MonthStart(leap, 8) then 7
    else if dayInYear < MonthStart(leap, 9) then 8 else if dayInYear < MonthStart(leap, 10) then 9
    else if dayInYear < MonthStart(leap, 11) then 10 else 11
  }

  /** A date with month and day counted from 1. */
  datatype Civil = Civil(year: int, month: int, day: int)

  predicate IsDate(c: Civil) {
    1 <= c.month <= 12 && 1 <= c.day <= MonthStart(Leap(c.year), c.month) - MonthStart(Leap(c.year), c.month - 1)
  }

  /** YearFromTime, MonthFromTime and DateFromTime of day number d. */
  function CivilOf(d: int): (c: Civil) {
    var y := Year(d);
    YearEnd(y);
    var m := Month(Leap(y), d - DayFromYear(y));
    Civil(y, m + 1, d - DayFromYear(y) - MonthStart(Leap(y), m) + 1)
  }

  /** MakeDay: months outside 0..11 carry into the year, days of any size just count on. */
  function MakeDay(year: int, month: int, date: int): int {
    var y := year + month / 12;
    DayFromYear(y) + MonthStart(Leap(y), month % 12) + date - 1
  }

  // ------------------------------------------------------------------ civil dates and day numbers invert each other

  lemma {:induction false} YearsGrow(a: int, b: int)
    requires a < b
    ensures DayFromYear(a + 1) <= DayFromYear(b)
    decreases b - a
  {
    if a + 1 < b {
      YearLength(b - 1);
      YearsGrow(a, b - 1);
    }
  }

  lemma YearUnique(d: int, y: int)
    requires DayFromYear(y) <= d < DayFromYear(y + 1)
    ensures Year(d) == y
  {
    if Year(d) < y { YearsGrow(Year(d), y); }
    if y < Year(d) { YearsGrow(y, Year(d)); }
  }

  lemma MonthsGrow(leap: bool, a: int, b: int)
    requires 0 <= a < b <= 12
    ensures 0 <= MonthStart(leap, a) < MonthStart(leap, b) <= MonthStart(leap, 12)
  {
  }

  lemma MonthUnique(leap: bool, dayInYear: int, m: int)
    requires 0 <= m < 12 && MonthStart(leap, m) <= dayInYear < MonthStart(leap, m + 1)
    ensures 0 <= dayInYear < MonthStart(leap, 12) && Month(leap, dayInYear) == m
  {
    hide MonthStart;
    MonthsGrow(leap, m, m + 1);
    var found := Month(leap, dayInYear);
    if found + 1 < m { MonthsGrow(leap, found + 1, m); }
    if m + 1 < found { MonthsGrow(leap, m + 1, found); }
  }

  lemma YearEnd(y: int)
    ensures DayFromYear(y + 1) == DayFromYear(y) + MonthStart(Leap(y), 12) && MonthStart(Leap(y), 0) == 0
  {
    hide DayFromYear;
    YearLength(y);
  }

  lemma DayOfCivil(d: int)
    ensures IsDate(CivilOf(d))
    ensures MakeDay(CivilOf(d).year, CivilOf(d).month - 1, CivilOf(d).day) == d
  {
    hide DayFromYear, MonthStart, Leap, YearFrom, Month;
    YearEnd(Year(d));
  }

  lemma CivilOfDay(c: Civil)
    requires IsDate(c)
    ensures CivilOf(MakeDay(c.year, c.month - 1, c.day)) == c
  {
    hide DayFromYear, MonthStart, Leap, YearFrom, Month;
    var d := MakeDay(c.year, c.month - 1, c.day);
    YearEnd(c.year);
    MonthsGrow(Leap(c.year), c.month - 1, c.month);
    YearUnique(d, c.year);
    MonthUnique(Leap(c.year), d - DayFromYear(c.year), c.month - 1);
  }

  // ------------------------------------------------------------------ the calendar, day by day

  /** The Gregorian rule: thirty days have April, June, September and November, February has 28 or 29. */
  function DaysInMonth(year: int, month: int): int {
    if month == 2 then if year % 400 == 0 || (year % 4 == 0 && year % 100 != 0) then 29 else 28
    else if month in {4, 6, 9, 11} then 30
    else 31
  }

  function NextDate(c: Civil): Civil {
    if c.day < DaysInMonth(c.year, c.month) then c.(day := c.day + 1)
    else if c.month < 12 then Civil(c.year, c.month + 1, 1)
    else Civil(c.year + 1, 1, 1)
  }

  lemma MonthLength(year: int, m: int)
    requires 1 <= m <= 12
    ensures MonthStart(Leap(year), m) - MonthStart(Leap(year), m - 1) == DaysInMonth(year, m) >= 28
    ensures MonthStart(Leap(year), 0) == 0
  {
  }

  lemma NextDateIsNextDay(c: Civil)
    requires IsDate(c)
    ensures var n := NextDate(c);
            IsDate(n) && MakeDay(n.year, n.month - 1, n.day) == MakeDay(c.year, c.month - 1, c.day) + 1
  {
    hide DayFromYear, MonthStart, Leap, DaysInMonth;
    var n := NextDate(c);
    MonthLength(c.year, c.month);
    MonthLength(n.year, n.month);
    YearEnd(c.year);
  }

  /** Every day follows the one before it as in the Gregorian calendar, and day 0 is 1970-01-01: the date of every
      day number, before and after, is the civil one. */
  lemma DaysFollow(d: int)
    ensures CivilOf(d + 1) == NextDate(CivilOf(d))
    ensures CivilOf(0) == Civil(1970, 1, 1)
  {
    hide DayFromYear, MonthStart, Leap, YearFrom, Month, DaysInMonth;
    DayOfCivil(d);
    NextDateIsNextDay(CivilOf(d));
    CivilOfDay(NextDate(CivilOf(d)));
    FirstDay();
  }

  lemma FirstDay()
    ensures CivilOf(0) == Civil(1970, 1, 1)
  {
    hide CivilOf, MakeDay, IsDate;
    FamiliarDays();
    CivilOfDay(Civil(1970, 1, 1));
  }

  lemma Landmarks()
    ensures DayFromYear(1970) == 0 && DayFromYear(2026) == 20454
    ensures DayFromYear(1000) == -354285 && DayFromYear(10000) == 2932897
  {
  }

  lemma FamiliarDays()
    ensures MakeDay(1970, 0, 1) == 0 && MakeDay(2026, 7, 31) == 20696
    ensures IsDate(Civil(1970, 1, 1)) && IsDate(Civil(2026, 8, 31))
  {
    hide DayFromYear;
    Landmarks();
    assert !Leap(2026) && !Leap(1970);
    assert MonthStart(false, 7) == 212 && MonthStart(false, 8) == 243;
    assert MonthStart(false, 0) == 0 && MonthStart(false, 1) == 31;
  }

  /** A date is one the calendar has. */
  lemma DatesExist(c: Civil)
    ensures IsDate(c) <==> 1 <= c.month <= 12 && 1 <= c.day <= DaysInMonth(c.year, c.month)
  {
    hide DaysInMonth, MonthStart;
    if 1 <= c.month <= 12 { MonthLength(c.year, c.month); }
  }

  // ------------------------------------------------------------------ instants

  /** What the functions return: null, NaN, or whole seconds. */
  datatype Stamp = Null | NotANumber | Seconds(value: int)

  predicate InTimeRange(ms: int) {
    -MAX_TIME <= ms <= MAX_TIME
  }

  function TimeOfDay(ms: int): (t: int)
    ensures 0 <= t < MS_PER_DAY
  {
    ms % MS_PER_DAY
  }

  /** Math.floor(Date.UTC(...) / 1000); Date.UTC reads years 0 to 99 as 1900 to 1999. */
  function UtcSeconds(year: int, month: int, date: int, hour: int, minute: int, second: int): Stamp {
    var fullYear := if 0 <= year <= 99 then 1900 + year else year;
    var ms := MakeDay(fullYear, month, date) * MS_PER_DAY + hour * 3600000 + minute * 60000 + second * 1000;
    if InTimeRange(ms) then Seconds(ms / 1000) else NotANumber
  }

  // ------------------------------------------------------------------ digits

  function DigitChar(n: int): (c: char)
    requires 0 <= n <= 9
    ensures '0' <= c <= '9' && (c as int) - ('0' as int) == n
  {
    ('0' as int + n) as char
  }

  predicate IsDigit(c: char) { '0' <= c <= '9' }

  function DigitValue(c: char): (n: int)
    requires IsDigit(c)
    ensures 0 <= n <= 9 && DigitChar(n) == c
  {
    (c as int) - ('0' as int)
  }

  /** String(n) for an integer. */
  function Decimal(n: int): (s: string)
    ensures s != []
    decreases if n < 0 then 1 - n else n
  {
    if n < 0 then "-" + Decimal(-n)
    else if n < 10 then [DigitChar(n)]
    else Decimal(n / 10) + [DigitChar(n % 10)]
  }

  /** padStart(2, "0"). */
  function Pad(n: int): string {
    if |Decimal(n)| == 1 then "0" + Decimal(n) else Decimal(n)
  }

  function TwoText(n: int): (s: string)
    requires 0 <= n < 100
    ensures |s| == 2 && IsDigit(s[0]) && IsDigit(s[1])
  {
    [DigitChar(n / 10), DigitChar(n % 10)]
  }

  lemma PadTwo(n: int)
    requires 0 <= n < 100
    ensures Pad(n) == TwoText(n)
  {
    if n >= 10 { assert Decimal(n / 10) == [DigitChar(n / 10)]; }
  }

  function FourText(n: int): (s: string)
    requires 0 <= n < 10000
    ensures |s| == 4
  {
    TwoText(n / 100) + TwoText(n % 100)
  }

  /** A printed year has the four digits the parser wants exactly from 1000 to 9999. */
  lemma YearText(n: int)
    ensures 1000 <= n < 10000 ==> Decimal(n) == FourText(n)
    ensures |Decimal(n)| == 4 && IsDigit(Decimal(n)[0]) ==> 1000 <= n < 10000
  {
    if n >= 0 {
      var a, b, c := n / 10, n / 10 / 10, n / 10 / 10 / 10;
      assert n >= 10 ==> Decimal(n) == Decimal(a) + [DigitChar(n % 10)];
      assert a >= 10 ==> Decimal(a) == Decimal(b) + [DigitChar(a % 10)];
      assert b >= 10 ==> Decimal(b) == Decimal(c) + [DigitChar(b % 10)];
      if c >= 10 { assert |Decimal(c)| >= 2; }
      if 1 <= c < 10 {
        assert Decimal(c) == [DigitChar(c)];
        assert n / 100 == b && n % 100 == 10 * (a % 10) + n % 10 && n % 100 / 10 == a % 10 && n % 100 % 10 == n % 10;
      }
    }
  }

  // ------------------------------------------------------------------ the form field

  /** The shifted Date's UTC fields, as minutes since 1970 in Beijing time. */
  function BeijingMs(timestamp: int): int {
    timestamp * 1000 + EIGHT_HOURS_MS
  }

  function FieldText(year: string, month: string, day: string, hour: string, minute: string): string {
    year + "-" + month + "-" + day + "T" + hour + ":" + minute
  }

  function Print(timestamp: int): string {
    var ms := BeijingMs(timestamp);
    if timestamp == 0 then ""
    else if !InTimeRange(ms) then FieldText("NaN", "NaN", "NaN", "NaN", "NaN")
    else
      var c := CivilOf(ms / MS_PER_DAY);
      FieldText(Decimal(c.year), Pad(c.month), Pad(c.day),
                Pad(TimeOfDay(ms) / 3600000), Pad(TimeOfDay(ms) / 60000 % 60))
  }

  /** The regular expression of the parser: dddd-dd-ddTdd:dd and nothing else. */
  predicate Matches(s: string) {
    && |s| == 16
    && s[4] == '-' && s[7] == '-' && s[10] == 'T' && s[13] == ':'
    && IsDigit(s[0]) && IsDigit(s[1]) && IsDigit(s[2]) && IsDigit(s[3])
    && IsDigit(s[5]) && IsDigit(s[6]) && IsDigit(s[8]) && IsDigit(s[9])
    && IsDigit(s[11]) && IsDigit(s[12]) && IsDigit(s[14]) && IsDigit(s[15])
  }

  datatype Fields = Fields(year: int, month: int, day: int, hour: int, minute: int)

  function Two(a: char, b: char): int
    requires IsDigit(a) && IsDigit(b)
  {
    10 * DigitValue(a) + DigitValue(b)
  }

  function FieldsOf(s: string): (f: Fields)
    requires Matches(s)
  {
    Fields(100 * Two(s[0], s[1]) + Two(s[2], s[3]), Two(s[5], s[6]), Two(s[8], s[9]),
           Two(s[11], s[12]), Two(s[14], s[15]))
  }

  function Parse(value: string): Stamp {
    if !Matches(value) then Null
    else
      var f := FieldsOf(value);
      UtcSeconds(f.year, f.month - 1, f.day, f.hour - 8, f.minute, 59)
  }

  function DefaultExpiry(days: int, baseTimestamp: int): Stamp {
    var ms := BeijingMs(baseTimestamp);
    if !InTimeRange(ms) then NotANumber
    else
      var c := CivilOf(ms / MS_PER_DAY);
      UtcSeconds(c.year, c.month - 1, c.day + (if days == 0 then 30 else days), 15, 59, 59)
  }

  // ------------------------------------------------------------------ reading the two apart

  /** Beijing's calendar date, hour and minute at a timestamp. */
  function BeijingFields(t: int): Fields {
    var s := t + 8 * 3600;
    var c := CivilOf(s / 86400);
    Fields(c.year, c.month, c.day, s % 86400 / 3600, s % 86400 / 60 % 60)
  }

  lemma MsAreSeconds(t: int)
    ensures BeijingMs(t) / MS_PER_DAY == (t + 28800) / 86400
    ensures TimeOfDay(BeijingMs(t)) / 3600000 == (t + 28800) % 86400 / 3600
    ensures TimeOfDay(BeijingMs(t)) / 60000 % 60 == (t + 28800) % 86400 / 60 % 60
  {
    var s := t + 28800;
    assert BeijingMs(t) == s * 1000;
    var q, r := s / 86400, s % 86400;
    DayQuotient(s * 1000, q, r * 1000);
    HourQuotient(r * 1000, r / 3600, r % 3600 * 1000);
    MinuteQuotient(r * 1000, r / 60, r % 60 * 1000);
  }

  lemma DayQuotient(n: int, q: int, r: int)
    requires 0 <= r < 86400000 && n == q * 86400000 + r
    ensures n / 86400000 == q && n % 86400000 == r
  {
  }

  lemma HourQuotient(n: int, q: int, r: int)
    requires 0 <= r < 3600000 && n == q * 3600000 + r
    ensures n / 3600000 == q
  {
  }

  lemma MinuteQuotient(n: int, q: int, r: int)
    requires 0 <= r < 60000 && n == q * 60000 + r
    ensures n / 60000 == q
  {
  }

  // ------------------------------------------------------------------ what a matching field means

  /** The fields name a date and a minute that exist. */
  predicate RealMoment(f: Fields) {
    IsDate(Civil(f.year, f.month, f.day)) && 0 <= f.hour < 24 && 0 <= f.minute < 60
  }

  /** The second that ends the named Beijing minute. */
  function EndOfMinute(f: Fields): int {
    MakeDay(f.year, f.month - 1, f.day) * 86400 + (f.hour - 8) * 3600 + f.minute * 60 + 59
  }

  predicate Writable(f: Fields) {
    0 <= f.year < 10000 && 0 <= f.month < 100 && 0 <= f.day < 100 && 0 <= f.hour < 100 && 0 <= f.minute < 100
  }

  function Written(f: Fields): string
    requires Writable(f)
  {
    FieldText(FourText(f.year), TwoText(f.month), TwoText(f.day), TwoText(f.hour), TwoText(f.minute))
  }

  lemma MonthPart(y: string, m: string)
    requires |y| == 4 && |m| == 2
    ensures y + "-" + m == [y[0], y[1], y[2], y[3], '-', m[0], m[1]]
  {
  }

  lemma DayPart(d: string)
    requires |d| == 2
    ensures "-" + d + "T" == ['-', d[0], d[1], 'T']
  {
  }

  lemma TimePart(h: string, m: string)
    requires |h| == 2 && |m| == 2
    ensures h + ":" + m == [h[0], h[1], ':', m[0], m[1]]
  {
  }

  /** The characters of a field text, position by position. */
  lemma FieldChars(y: string, mo: string, d: string, h: string, mi: string) returns (s: string)
    requires |y| == 4 && |mo| == |d| == |h| == |mi| == 2
    ensures s == FieldText(y, mo, d, h, mi) && |s| == 16
    ensures s[0] == y[0] && s[1] == y[1] && s[2] == y[2] && s[3] == y[3]
    ensures s[4] == '-' && s[5] == mo[0] && s[6] == mo[1] && s[7] == '-' && s[8] == d[0] && s[9] == d[1]
    ensures s[10] == 'T' && s[11] == h[0] && s[12] == h[1] && s[13] == ':' && s[14] == mi[0] && s[15] == mi[1]
  {
    MonthPart(y, mo);
    DayPart(d);
    TimePart(h, mi);
    s := (y + "-" + mo) + ("-" + d + "T") + (h + ":" + mi);
    assert s == FieldText(y, mo, d, h, mi);
  }

  lemma TwoDigits(n: int)
    requires 0 <= n < 100
    ensures Two(TwoText(n)[0], TwoText(n)[1]) == n
  {
  }

  lemma TwoDigitsBack(a: char, b: char)
    requires IsDigit(a) && IsDigit(b)
    ensures 0 <= Two(a, b) < 100 && TwoText(Two(a, b)) == [a, b]
  {
  }

  /** Reading the sixteen characters back gives the numbers written. */
  lemma FieldsOfWritten(f: Fields)
    requires Writable(f)
    ensures Matches(Written(f)) && FieldsOf(Written(f)) == f
  {
    hide TwoText, Two, FieldText, IsDigit;
    TwoDigits(f.year / 100);
    TwoDigits(f.year % 100);
    TwoDigits(f.month);
    TwoDigits(f.day);
    TwoDigits(f.hour);
    TwoDigits(f.minute);
    var s := FieldChars(FourText(f.year), TwoText(f.month), TwoText(f.day), TwoText(f.hour), TwoText(f.minute));
  }

  lemma WrittenFields(s: string)
    requires Matches(s)
    ensures Writable(FieldsOf(s)) && Written(FieldsOf(s)) == s
  {
    hide TwoText, Two, FieldText, IsDigit;
    var f := FieldsOf(s);
    TwoDigitsBack(s[0], s[1]);
    TwoDigitsBack(s[2], s[3]);
    TwoDigitsBack(s[5], s[6]);
    TwoDigitsBack(s[8], s[9]);
    TwoDigitsBack(s[11], s[12]);
    TwoDigitsBack(s[14], s[15]);
    assert f.year / 100 == Two(s[0], s[1]) && f.year % 100 == Two(s[2], s[3]);
    var t := FieldChars(FourText(f.year), TwoText(f.month), TwoText(f.day), TwoText(f.hour), TwoText(f.minute));
    SameChars(s, t);
  }

  lemma SameChars(s: string, t: string)
    requires |s| == |t| == 16
    requires s[0] == t[0] && s[1] == t[1] && s[2] == t[2] && s[3] == t[3] && s[4] == t[4] && s[5] == t[5]
    requires s[6] == t[6] && s[7] == t[7] && s[8] == t[8] && s[9] == t[9] && s[10] == t[10] && s[11] == t[11]
    requires s[12] == t[12] && s[13] == t[13] && s[14] == t[14] && s[15] == t[15]
    ensures s == t
  {
  }

  // ------------------------------------------------------------------ the round trips

  /** Timestamps whose Beijing year has four digits. */
  predicate FourDigitYear(t: int) {
    1000 <= BeijingFields(t).year < 10000
  }

  lemma ClockOfMinute(r: int)
    requires 0 <= r < 86400
    ensures 0 <= r / 3600 < 24 && 0 <= r / 60 % 60 < 60
    ensures r / 3600 * 3600 + r / 60 % 60 * 60 == r - r % 60
  {
    var m := r / 60;
    assert m / 60 == r / 3600 && m == m / 60 * 60 + m % 60;
  }

  lemma SecondOfMinute(t: int)
    ensures (t + 28800) % 86400 % 60 == t % 60
  {
    MinuteRemainder(t + 28800, (t + 28800) / 86400 * 1440, (t + 28800) % 86400);
    MinuteRemainder(t + 28800, 480, t);
  }

  lemma MinuteRemainder(n: int, q: int, r: int)
    requires n == 60 * q + r
    ensures n % 60 == r % 60
  {
  }

  lemma RealFields(t: int)
    ensures RealMoment(BeijingFields(t))
    ensures EndOfMinute(BeijingFields(t)) == t - t % 60 + 59
  {
    hide CivilOf, IsDate, MakeDay;
    var s := t + 28800;
    DayOfCivil(s / 86400);
    ClockOfMinute(s % 86400);
    SecondOfMinute(t);
  }

  lemma PrintIsWritten(t: int)
    requires t != 0 && FourDigitYear(t)
    ensures Writable(BeijingFields(t)) && Print(t) == Written(BeijingFields(t))
  {
    hide CivilOf, IsDate, MakeDay, Decimal, Pad, FieldText, FourText, TwoText;
    var f := BeijingFields(t);
    MsAreSeconds(t);
    RealFields(t);
    DateBounds(Civil(f.year, f.month, f.day));
    InRangeOfClip(t);
    YearText(f.year);
    PadTwo(f.month);
    PadTwo(f.day);
    PadTwo(f.hour);
    PadTwo(f.minute);
  }

  lemma DateBounds(c: Civil)
    requires IsDate(c)
    ensures 1 <= c.month <= 12 && 1 <= c.day <= 31
  {
  }

  lemma FarYears(y: int, d: int)
    requires DayFromYear(y) <= d < DayFromYear(y + 1) && 1000 <= y < 10000
    ensures DayFromYear(1000) <= d < DayFromYear(10000)
  {
    if y > 1000 { YearsGrow(999, y); YearsGrow(1000, y); }
    if y < 9999 { YearsGrow(y, 10000); }
    YearLength(y);
  }

  lemma InRangeOfClip(t: int)
    requires FourDigitYear(t)
    ensures InTimeRange(BeijingMs(t))
    ensures -30610224000 <= t + 28800 < 253402300800
  {
    var d := (t + 28800) / 86400;
    FarYears(Year(d), d);
  }

  /** The four-digit years as a range of timestamps. */
  lemma YearOfRange(t: int)
    ensures FourDigitYear(t) <==> -30610252800 <= t < 253402272000
  {
    hide DayFromYear, YearFrom, Month, MonthStart;
    var d := (t + 28800) / 86400;
    var y := Year(d);
    Landmarks();
    if FourDigitYear(t) {
      InRangeOfClip(t);
    } else if y < 1000 {
      if y < 999 { YearsGrow(y, 999); YearsGrow(y, 1000); }
    } else {
      if y > 10000 { YearsGrow(9999, y); YearsGrow(10000, y); }
    }
  }

  /** What Date.UTC makes of a form's fields when the year is not one of the two-digit ones. */
  lemma UtcOfFields(f: Fields)
    requires Writable(f) && !(0 <= f.year <= 99)
    ensures UtcSeconds(f.year, f.month - 1, f.day, f.hour - 8, f.minute, 59) == Seconds(EndOfMinute(f))
  {
    hide DayFromYear, Leap;
    var y := f.year + (f.month - 1) / 12;
    FormYears(y);
    MonthsGrow(Leap(y), (f.month - 1) % 12, 12);
    YearEnd(y);
    var ms := MakeDay(f.year, f.month - 1, f.day) * MS_PER_DAY + (f.hour - 8) * 3600000 + f.minute * 60000 + 59000;
    assert ms == EndOfMinute(f) * 1000;
  }

  lemma FormYears(y: int)
    requires 0 <= y <= 10020
    ensures -800000 <= DayFromYear(y) <= DayFromYear(y + 1) <= 3000000
  {
  }

  /** The number that a text of decimal digits stands for. */
  function Number(s: string): int {
    if s == "" then 0 else 10 * Number(s[..|s| - 1]) + (s[|s| - 1] as int - '0' as int)
  }

  lemma NumberOfTwo(n: int)
    requires 0 <= n < 100
    ensures Number(TwoText(n)) == n
  {
    var s := TwoText(n);
    assert s[..1][..0] == "" && s[..1][0] == s[0];
    assert Number(s[..1]) == 10 * Number("") + n / 10;
  }

  lemma NumberOfFour(n: int)
    requires 0 <= n < 10000
    ensures Number(FourText(n)) == n
  {
    hide TwoText;
    var a, b := TwoText(n / 100), TwoText(n % 100);
    NumberOfTwo(n / 100);
    NumberOfTwo(n % 100);
    var s := FourText(n);
    assert s[..3][..2] == a && s[..3][2] == b[0] && s[3] == b[1];
    assert b[..1][..0] == "" && b[..1][0] == b[0];
    assert Number(b[..1]) == b[0] as int - '0' as int;
    assert Number(s[..3]) == 10 * Number(a) + (b[0] as int - '0' as int);
  }

  /** What a printed field says, read off its characters: the calendar date of the day in Beijing, eight hours
      ahead, then the hour and the minute of that day. */
  lemma PrintedFieldReads(t: int)
    requires t != 0 && FourDigitYear(t)
    ensures var s, day, second := Print(t), (t + 28800) / 86400, (t + 28800) % 86400;
            && |s| == 16 && s[4] == '-' && s[7] == '-' && s[10] == 'T' && s[13] == ':'
            && Civil(Number(s[..4]), Number(s[5..7]), Number(s[8..10])) == CivilOf(day)
            && Number(s[11..13]) == second / 3600 && Number(s[14..]) == second / 60 % 60
  {
    hide CivilOf, IsDate, MakeDay, Number, FieldText, FourText, TwoText;
    var f := BeijingFields(t);
    PrintIsWritten(t);
    NumberOfFour(f.year);
    NumberOfTwo(f.month);
    NumberOfTwo(f.day);
    NumberOfTwo(f.hour);
    NumberOfTwo(f.minute);
    TextParts(FourText(f.year), TwoText(f.month), TwoText(f.day), TwoText(f.hour), TwoText(f.minute));
  }

  lemma TextParts(y: string, mo: string, d: string, h: string, mi: string)
    requires |y| == 4 && |mo| == |d| == |h| == |mi| == 2
    ensures var s := FieldText(y, mo, d, h, mi);
            && |s| == 16 && s[4] == '-' && s[7] == '-' && s[10] == 'T' && s[13] == ':'
            && s[..4] == y && s[5..7] == mo && s[8..10] == d && s[11..13] == h && s[14..] == mi
  {
    hide FieldText;
    var s := FieldChars(y, mo, d, h, mi);
  }

  /** Printing and parsing: every timestamp of a four-digit Beijing year, except the 0 that prints as
      nothing, comes back as the last second of its minute; every other one comes back as null. */
  lemma PrintThenParse(t: int)
    ensures Parse(Print(t)) == if t != 0 && FourDigitYear(t) then Seconds(t - t % 60 + 59) else Null
  {
    hide CivilOf, MakeDay, Decimal, Pad, FieldText, FourText, TwoText, UtcSeconds, FieldsOf;
    var f := BeijingFields(t);
    if t != 0 && FourDigitYear(t) {
      PrintIsWritten(t);
      RealFields(t);
      FieldsOfWritten(f);
      UtcOfFields(f);
    } else if Matches(Print(t)) {
      PrintedTextOfOtherYears(t);
    }
  }

  lemma PrintedTextOfOtherYears(t: int)
    requires t == 0 || !FourDigitYear(t)
    ensures !Matches(Print(t))
  {
    hide CivilOf, Decimal, TwoText;
    if t != 0 && InTimeRange(BeijingMs(t)) {
      var f := BeijingFields(t);
      MsAreSeconds(t);
      RealFields(t);
      DateBounds(Civil(f.year, f.month, f.day));
      YearText(f.year);
      PadTwo(f.month);
      PadTwo(f.day);
      PadTwo(f.hour);
      PadTwo(f.minute);
      assert Print(t)[..|Decimal(f.year)|] == Decimal(f.year);
      assert |Print(t)| == |Decimal(f.year)| + 12;
    }
  }

  /** The other way round: a text of the field's form always parses, and comes back unchanged exactly when it
      names a moment that exists in a year from 1000 on. */
  lemma ParseThenPrint(s: string)
    requires Matches(s)
    ensures Parse(s).Seconds?
    ensures Print(Parse(s).value) == s <==> RealMoment(FieldsOf(s)) && FieldsOf(s).year >= 1000
  {
    hide CivilOf, MakeDay, Decimal, Pad, FieldText, FourText, TwoText, UtcSeconds, FieldsOf, Matches, IsDate;
    var f := FieldsOf(s);
    WrittenFields(s);
    ParsedIsSeconds(f);
    var t := Parse(s).value;
    if RealMoment(f) && f.year >= 1000 {
      UtcOfFields(f);
      EndOfMinuteFields(f);
      PrintIsWritten(t);
    }
    if Print(t) == s {
      if t == 0 || !FourDigitYear(t) {
        PrintedTextOfOtherYears(t);
        assert false;
      } else {
        PrintIsWritten(t);
        RealFields(t);
        FieldsOfWritten(BeijingFields(t));
      }
    }
  }

  lemma ParsedIsSeconds(f: Fields)
    requires Writable(f)
    ensures UtcSeconds(f.year, f.month - 1, f.day, f.hour - 8, f.minute, 59).Seconds?
  {
    hide MakeDay, EndOfMinute;
    if 0 <= f.year <= 99 {
      UtcOfFields(f.(year := 1900 + f.year));
    } else {
      UtcOfFields(f);
    }
  }

  lemma EndOfMinuteFields(f: Fields)
    requires RealMoment(f)
    ensures BeijingFields(EndOfMinute(f)) == f && EndOfMinute(f) != 0
  {
    hide CivilOf, MakeDay, IsDate;
    var d := MakeDay(f.year, f.month - 1, f.day);
    var r := f.hour * 3600 + f.minute * 60 + 59;
    CivilOfDay(Civil(f.year, f.month, f.day));
    assert EndOfMinute(f) + 28800 == d * 86400 + r;
    assert (EndOfMinute(f) + 28800) / 86400 == d && (EndOfMinute(f) + 28800) % 86400 == r;
    assert r / 3600 == f.hour && r / 60 == f.hour * 60 + f.minute;
    MinuteRemainder(EndOfMinute(f), d * 1440 + (f.hour - 8) * 60 + f.minute, 59);
  }

  /** Saving what the form shows never moves an expiry earlier, and a second save changes nothing. */
  lemma ResaveIsStable(t: int)
    requires t != 0 && FourDigitYear(t)
    ensures Parse(Print(t)).Seconds?
    ensures var once := Parse(Print(t)).value;
            once >= t && once - t < 60 && Parse(Print(once)) == Seconds(once)
  {
    hide Print, Parse, FourDigitYear;
    var once := t - t % 60 + 59;
    PrintThenParse(t);
    YearOfRange(t);
    LastSecond(t);
    YearOfRange(once);
    PrintThenParse(once);
  }

  lemma LastSecond(t: int)
    ensures var once := t - t % 60 + 59;
            once % 60 == 59 && once != 0 && t <= once < t + 60 && (t < 253402272000 ==> once < 253402272000)
  {
    MinuteRemainder(t - t % 60 + 59, t / 60, 59);
    assert t == t / 60 * 60 + t % 60;
  }

  // ------------------------------------------------------------------ the default expiry

  function BeijingDay(t: int): int { (t + 28800) / 86400 }

  function SecondOfBeijingDay(t: int): int { (t + 28800) % 86400 }

  /** The number of days the form adds; 0 counts as the default. */
  function DaysAdded(days: int): int { if days == 0 then 30 else days }

  lemma CenturiesApart(y: int, m: int)
    requires 0 <= y <= 99 && 0 <= m < 12
    ensures DayFromYear(y) + MonthStart(Leap(y), m) < DayFromYear(1900 + y) + MonthStart(Leap(1900 + y), m)
  {
  }

  predicate TwoDigitYear(base: int) {
    0 <= BeijingFields(base).year <= 99
  }

  /** The day the count starts from: Date.UTC takes a base year from 0 to 99 for one from 1900 to 1999. */
  function CountedDay(base: int): int {
    var c := CivilOf(BeijingDay(base));
    if TwoDigitYear(base) then MakeDay(1900 + c.year, c.month - 1, c.day) else BeijingDay(base)
  }

  /** The last second of a Beijing day. */
  function LastSecondOf(day: int): int { day * 86400 + 57599 }

  lemma LastSecondOfDay(day: int)
    ensures BeijingDay(LastSecondOf(day)) == day && SecondOfBeijingDay(LastSecondOf(day)) == 86399
    ensures LastSecondOf(day) % 60 == 59 && LastSecondOf(day) != 0
  {
    assert LastSecondOf(day) + 28800 == day * 86400 + 86399;
    MinuteRemainder(LastSecondOf(day), day * 1440 + 959, 59);
  }

  /** For every input: the last second of the Beijing day exactly the requested number of days after the counted
      one, or NaN when the base or that second is out of a Date's range. */
  lemma ExpiryIs(days: int, base: int)
    ensures DefaultExpiry(days, base) ==
            var r := LastSecondOf(CountedDay(base) + DaysAdded(days));
            if InTimeRange(BeijingMs(base)) && InTimeRange(r * 1000) then Seconds(r) else NotANumber
  {
    hide CivilOf, DayFromYear, MonthStart, Leap;
    var c := CivilOf(BeijingDay(base));
    MsAreSeconds(base);
    DayOfCivil(BeijingDay(base));
    var y := if TwoDigitYear(base) then 1900 + c.year else c.year;
    assert MakeDay(y, c.month - 1, c.day + DaysAdded(days)) == CountedDay(base) + DaysAdded(days);
  }

  /** The counted day is the base day exactly when the base year has not one or two digits. */
  lemma CountsFromBase(base: int)
    ensures CountedDay(base) == BeijingDay(base) <==> !TwoDigitYear(base)
  {
    hide CivilOf, DayFromYear, MonthStart, Leap;
    var c := CivilOf(BeijingDay(base));
    DayOfCivil(BeijingDay(base));
    DateBounds(c);
    if TwoDigitYear(base) { CenturiesApart(c.year, c.month - 1); }
  }

  /** A default expiry is the last second of the Beijing day that lies exactly the requested number of days after
      the base day, exactly when both are in a Date's range and the base year is not one that Date.UTC reads as 19xx. */
  lemma ExpiryDay(days: int, base: int)
    ensures var day := (base + 28800) / 86400 + (if days == 0 then 30 else days);
            var r := day * 86400 + 86399 - 28800;
            DefaultExpiry(days, base) == Seconds(r) <==>
              && -8640000000000000 <= base * 1000 + 28800000 <= 8640000000000000
              && !(0 <= CivilOf((base + 28800) / 86400).year <= 99)
              && -8640000000000000 <= r * 1000 <= 8640000000000000
  {
    hide DefaultExpiry, CountedDay, CivilOf;
    ExpiryIs(days, base);
    CountsFromBase(base);
  }

  /** Years 1000 to 9999 as days. */
  lemma FourDigitDays(day: int)
    ensures FourDigitYear(LastSecondOf(day)) <==> -354285 <= day < 2932897
    ensures -354285 <= day < 2932897 ==> InTimeRange(LastSecondOf(day) * 1000)
  {
    hide FourDigitYear;
    YearOfRange(LastSecondOf(day));
  }

  /** There is a default expiry that the form keeps as it is exactly when the base is in a Date's range and the day
      counted to lies in the years 1000 to 9999; and outside the years 0 to 99 it lies past the base exactly for
      days that are not negative. */
  lemma ExpiryIsFixedPoint(days: int, base: int)
    ensures var day := CountedDay(base) + DaysAdded(days);
            && DefaultExpiry(days, base) == Seconds(LastSecondOf(day))
            && Parse(Print(LastSecondOf(day))) == Seconds(LastSecondOf(day))
            <==> InTimeRange(BeijingMs(base)) && -354285 <= day < 2932897
    ensures !TwoDigitYear(base) ==> (LastSecondOf(CountedDay(base) + DaysAdded(days)) > base <==> days >= 0)
  {
    hide Print, Parse, DefaultExpiry, TwoDigitYear, CountedDay, FourDigitYear;
    var day := CountedDay(base) + DaysAdded(days);
    ExpiryIs(days, base);
    CountsFromBase(base);
    FourDigitDays(day);
    LastSecondOfDay(day);
    PrintThenParse(LastSecondOf(day));
  }

  /** Noon of the last day of August 2026. */
  lemma LastOfAugust()
    ensures Print(1788148800) == "2026-08-31T12:00" && Parse("2026-08-31T12:00") == Seconds(1788148859)
  {
    hide CivilOf, MakeDay, Print, Parse, Written, IsDate;
    var t := 1788148800;
    FamiliarDays();
    CivilOfDay(Civil(2026, 8, 31));
    assert BeijingFields(t) == Fields(2026, 8, 31, 12, 0);
    PrintIsWritten(t);
    PrintThenParse(t);
    WrittenNoon();
  }

  lemma WrittenNoon()
    ensures Written(Fields(2026, 8, 31, 12, 0)) == "2026-08-31T12:00"
  {
    var s := FieldChars(FourText(2026), TwoText(8), TwoText(31), TwoText(12), TwoText(0));
    SameChars(s, "2026-08-31T12:00");
  }
}
