/**
 Fuzzy dates: a year, a month or a day written as a prefix of YYYY-MM-DD; what is accepted, what it resolves to, and the
 age computed from two of them. Strings are sequences of bytes.
 */
module FuzzyDates {

  import opened Wrappers

  // ----- the calendar

  datatype Date = Date(year: int, month: int, day: int)

  predicate IsLeap(year: int) {
    year % 4 == 0 && (year % 100 != 0 || year % 400 == 0)
  }

  function DaysIn(year: int, month: int): int {
    if month == 2 then (if IsLeap(year) then 29 else 28)
    else if month in {4, 6, 9, 11} then 30
    else 31
  }

  predicate IsDay(d: Date) {
    1 <= d.month <= 12 && 1 <= d.day <= DaysIn(d.year, d.month)
  }

  predicate DayBefore(m1: int, d1: int, m2: int, d2: int) {
    m1 < m2 || (m1 == m2 && d1 < d2)
  }

  predicate Before(a: Date, b: Date) {
    a.year < b.year || (a.year == b.year && DayBefore(a.month, a.day, b.month, b.day))
  }

  /** The calendar day that follows. */
  function NextDay(d: Date): Date {
    if d.day < DaysIn(d.year, d.month) then Date(d.year, d.month, d.day + 1)
    else if d.month < 12 then Date(d.year, d.month + 1, 1)
    else Date(d.year + 1, 1, 1)
  }

  /** Days of the year before a month. */
  function DaysBefore(year: int, month: int): int
    requires 1 <= month <= 12
    decreases month
  {
    if month == 1 then 0 else DaysBefore(year, month - 1) + DaysIn(year, month - 1)
  }

  /** time.YearDay: the day's number in its year, from 1. */
  function YearDay(d: Date): int
    requires IsDay(d)
  {
    DaysBefore(d.year, d.month) + d.day
  }

  // ----- writing days

  predicate IsDigit(c: char) {
    '0' <= c <= '9'
  }

  function Value(c: char): int
    requires IsDigit(c)
  {
    c as int - '0' as int
  }

  function Digit(n: int): (c: char)
    requires 0 <= n < 10
    ensures IsDigit(c) && Value(c) == n
  {
    (n + '0' as int) as char
  }

  function Two(n: int): string
    requires 0 <= n < 100
  {
    [Digit(n / 10), Digit(n % 10)]
  }

  function Four(n: int): string
    requires 0 <= n < 10000
  {
    Two(n / 100) + Two(n % 100)
  }

  predicate IsWritable(d: Date) {
    IsDay(d) && 0 <= d.year < 10000
  }

  /** full-date of RFC 3339, section 5.6. */
  function Written(d: Date): (s: string)
    requires IsWritable(d)
    ensures |s| == 10
  {
    Four(d.year) + "-" + Two(d.month) + "-" + Two(d.day)
  }

  // ----- reading days

  predicate TwoDigits(s: string, at: nat) {
    at + 2 <= |s| && IsDigit(s[at]) && IsDigit(s[at + 1])
  }

  function Number2(s: string, at: nat): (n: int)
    requires TwoDigits(s, at)
    ensures 0 <= n < 100
  {
    Value(s[at]) * 10 + Value(s[at + 1])
  }

  predicate FourDigits(s: string) {
    TwoDigits(s, 0) && TwoDigits(s, 2)
  }

  function Number4(s: string): (n: int)
    requires FourDigits(s)
    ensures 0 <= n < 10000
  {
    Number2(s, 0) * 100 + Number2(s, 2)
  }

  predicate DashTwo(s: string, at: nat) {
    at < |s| && s[at] == '-' && TwoDigits(s, at + 1)
  }

  /** time.Parse with the layout 2006, 2006-01 or 2006-01-02. */
  function TimeParse(s: string, fields: nat): (r: Option<Date>)
    requires 1 <= fields <= 3
    ensures r.Some? ==> IsWritable(r.value)
  {
    if |s| == 1 + 3 * fields && FourDigits(s) && (fields >= 2 ==> DashTwo(s, 4)) && (fields >= 3 ==> DashTwo(s, 7)) then
      var d := Date(Number4(s), if fields >= 2 then Number2(s, 5) else 1, if fields >= 3 then Number2(s, 8) else 1);
      if IsDay(d) then Some(d) else None
    else
      None
  }

  /** The pattern four digits, then at most twice a dash and two digits, and nothing else. */
  predicate MatchesPattern(s: string) {
    && |s| in {4, 7, 10} && FourDigits(s)
    && (|s| >= 7 ==> DashTwo(s, 4))
    && (|s| == 10 ==> DashTwo(s, 7))
  }

  datatype Error = InvalidDate

  /** ValidateFuzzyString. */
  method ValidateFuzzyString(date: Option<string>) returns (err: Option<Error>)
    ensures err.None? <==> date.None? || Accepted(date.value)
  {
    if date.None? {
      return None;
    }
    if !MatchesPattern(date.value) {
      PatternIsNeeded(date.value);
      return Some(InvalidDate);
    }
    var fuzzyDate := date.value;
    if |fuzzyDate| == 4 {
      fuzzyDate := fuzzyDate + "-01-01";
    } else if |fuzzyDate| == 7 {
      fuzzyDate := fuzzyDate + "-01";
    }
    PaddedParses(date.value);
    var parsed := TimeParse(fuzzyDate, 3);
    return if parsed.None? then Some(InvalidDate) else None;
  }

  /** What the validation is for: the string is the year, the month or the whole of some day. */
  ghost predicate Accepted(s: string) {
    |s| in {4, 7, 10} && exists d :: IsWritable(d) && s <= Written(d)
  }

  datatype Accuracy = Year | Month | Day
  datatype FuzzyDate = FuzzyDate(accuracy: Accuracy, date: string)

  /** resolveFuzzyDate. */
  function ResolveFuzzyDate(date: Option<string>): Option<FuzzyDate> {
    match date
    case None => None
    case Some(s) =>
      if |s| == 4 then Some(FuzzyDate(Year, s + "-01-01"))
      else if |s| == 7 then Some(FuzzyDate(Month, s + "-01"))
      else if |s| == 10 then Some(FuzzyDate(Day, s))
      else None
  }

  /** ParseDateStringAsTime. */
  function ParseDateString(s: string): Option<Date> {
    TimeParse(s, if |s| == 4 then 1 else if |s| == 7 then 2 else 3)
  }

  lemma FieldsOf(year: int, month: int, day: int)
    requires 0 <= year < 10000 && 0 <= month < 100 && 0 <= day < 100
    ensures var s := Four(year) + "-" + Two(month) + "-" + Two(day);
            FourDigits(s) && Number4(s) == year && DashTwo(s, 4) && Number2(s, 5) == month && DashTwo(s, 7) && Number2(s, 8) == day
  {
    var s := Four(year) + "-" + Two(month) + "-" + Two(day);
    assert s[0..4] == Four(year);
    assert s[0] == Digit(year / 100 / 10) && s[1] == Digit(year / 100 % 10);
    assert s[2] == Digit(year % 100 / 10) && s[3] == Digit(year % 100 % 10);
    assert s[5..7] == Two(month) && s[8..10] == Two(day);
    assert s[5] == s[5..7][0] && s[6] == s[5..7][1] && s[8] == s[8..10][0] && s[9] == s[8..10][1];
  }

  lemma WrittenFields(d: Date)
    requires IsWritable(d)
    ensures var s := Written(d);
            FourDigits(s) && Number4(s) == d.year && DashTwo(s, 4) && Number2(s, 5) == d.month
            && DashTwo(s, 7) && Number2(s, 8) == d.day
  {
    FieldsOf(d.year, d.month, d.day);
  }

  lemma DigitOfValue(c: char)
    requires IsDigit(c)
    ensures Digit(Value(c)) == c
  {
  }

  lemma TwoOfNumber(s: string, at: nat)
    requires TwoDigits(s, at)
    ensures Two(Number2(s, at)) == s[at..at + 2]
  {
    DigitOfValue(s[at]);
    DigitOfValue(s[at + 1]);
    assert Number2(s, at) / 10 == Value(s[at]) && Number2(s, at) % 10 == Value(s[at + 1]);
  }

  /** Reading a whole day and writing it again gives the same string. */
  lemma ReadThenWritten(s: string)
    requires TimeParse(s, 3).Some?
    ensures Written(TimeParse(s, 3).value) == s
  {
    TwoOfNumber(s, 0);
    TwoOfNumber(s, 2);
    TwoOfNumber(s, 5);
    TwoOfNumber(s, 8);
    assert Number4(s) / 100 == Number2(s, 0) && Number4(s) % 100 == Number2(s, 2);
    assert s == s[0..2] + s[2..4] + "-" + s[5..7] + "-" + s[8..10];
  }

  /** Every day reads back from its writing. */
  lemma WrittenThenRead(d: Date)
    requires IsWritable(d)
    ensures TimeParse(Written(d), 3) == Some(d)
  {
    WrittenFields(d);
  }

  function Padded(s: string): string {
    if |s| == 4 then s + "-01-01" else if |s| == 7 then s + "-01" else s
  }

  /** A prefix of a written day has that day's leading fields. */
  lemma PrefixFields(s: string, d: Date)
    requires IsWritable(d) && |s| in {4, 7, 10} && s <= Written(d)
    ensures MatchesPattern(s) && Number4(s) == d.year
    ensures |s| >= 7 ==> Number2(s, 5) == d.month
    ensures |s| == 10 ==> Number2(s, 8) == d.day
  {
    WrittenFields(d);
    var w := Written(d);
    assert forall i :: 0 <= i < |s| ==> s[i] == w[i];
    assert s[0] == w[0] && s[1] == w[1] && s[2] == w[2] && s[3] == w[3];
    if |s| >= 7 {
      assert s[4] == w[4] && s[5] == w[5] && s[6] == w[6];
    }
  }

  /** The earliest day with a prefix. */
  ghost predicate EarliestWith(d: Date, s: string) {
    && IsWritable(d) && s <= Written(d)
    && forall other :: IsWritable(other) && s <= Written(other) ==> other == d || Before(d, other)
  }

  lemma PatternIsNeeded(s: string)
    requires !MatchesPattern(s)
    ensures !Accepted(s)
  {
    if Accepted(s) {
      var d :| IsWritable(d) && s <= Written(d);
      PrefixFields(s, d);
    }
  }

  lemma PaddedFields(s: string)
    requires MatchesPattern(s)
    ensures var p := Padded(s);
            |p| == 10 && s <= p && FourDigits(p) && DashTwo(p, 4) && DashTwo(p, 7) && Number4(p) == Number4(s)
            && Number2(p, 5) == (if |s| >= 7 then Number2(s, 5) else 1) && Number2(p, 8) == (if |s| == 10 then Number2(s, 8) else 1)
  {
    var p := Padded(s);
    assert p[0] == s[0] && p[1] == s[1] && p[2] == s[2] && p[3] == s[3];
  }

  lemma PaddedParses(s: string)
    requires MatchesPattern(s)
    ensures TimeParse(Padded(s), 3).Some? <==> Accepted(s)
  {
    PaddedFields(s);
    if TimeParse(Padded(s), 3).Some? {
      ReadThenWritten(Padded(s));
    }
    if Accepted(s) {
      var d :| IsWritable(d) && s <= Written(d);
      PrefixFields(s, d);
    }
  }

  lemma ParsedIsEarliest(s: string)
    ensures Accepted(s) <==> ParseDateString(s).Some?
    ensures Accepted(s) ==> EarliestWith(ParseDateString(s).value, s)
  {
    if Accepted(s) {
      var d :| IsWritable(d) && s <= Written(d);
      PrefixFields(s, d);
      ParsedIsFirst(s);
    }
    if ParseDateString(s).Some? {
      PaddedFields(s);
      ReadThenWritten(Padded(s));
      assert s <= Written(ParseDateString(s).value);
    }
  }

  lemma ParsedIsFirst(s: string)
    requires ParseDateString(s).Some?
    ensures EarliestWith(ParseDateString(s).value, s)
  {
    PaddedFields(s);
    ReadThenWritten(Padded(s));
    forall other | IsWritable(other) && s <= Written(other)
      ensures other == ParseDateString(s).value || Before(ParseDateString(s).value, other)
    {
      PrefixFields(s, other);
    }
  }

  /**
   What validation accepts resolves to the earliest day with that prefix, and parsing gives the same day. Parsing accepts
   nothing else.
   */
  lemma AcceptedResolvesToEarliest(s: string)
    ensures Accepted(s) <==> ParseDateString(s).Some?
    ensures Accepted(s) ==>
              && EarliestWith(ParseDateString(s).value, s)
              && ResolveFuzzyDate(Some(s)).Some?
              && ResolveFuzzyDate(Some(s)).value.date == Written(ParseDateString(s).value)
  {
    ParsedIsEarliest(s);
    if Accepted(s) {
      PaddedFields(s);
      ReadThenWritten(Padded(s));
    }
  }

  /** The days of the Gregorian calendar. */
  lemma DayIff(year: int, month: int, day: int)
    ensures IsDay(Date(year, month, day)) <==>
              && 1 <= month <= 12
              && 1 <= day
              && day <= [31, 28, 31, 30, 31, 30, 31, 31, 30, 31, 30, 31][month - 1]
                        + (if month == 2 && (year % 4 == 0 && (year % 100 != 0 || year % 400 == 0)) then 1 else 0)
  {
  }

  lemma AcceptedIfDay(year: int, month: int, day: int)
    requires 0 <= year < 10000 && 0 <= month < 100 && 0 <= day < 100
    ensures Accepted(Four(year) + "-" + Two(month) + "-" + Two(day)) <==> IsDay(Date(year, month, day))
  {
    var s := Four(year) + "-" + Two(month) + "-" + Two(day);
    FieldsOf(year, month, day);
    if Accepted(s) {
      var d :| IsWritable(d) && s <= Written(d);
      PrefixFields(s, d);
    }
    if IsDay(Date(year, month, day)) {
      assert s <= Written(Date(year, month, day));
    }
  }

  /** A whole day is accepted exactly when the calendar has it. */
  lemma AcceptedDayIff(year: int, month: int, day: int)
    requires 0 <= year < 10000 && 0 <= month < 100 && 0 <= day < 100
    ensures Accepted(Four(year) + "-" + Two(month) + "-" + Two(day)) <==>
              && 1 <= month <= 12
              && 1 <= day
              && day <= [31, 28, 31, 30, 31, 30, 31, 31, 30, 31, 30, 31][month - 1]
                        + (if month == 2 && (year % 4 == 0 && (year % 100 != 0 || year % 400 == 0)) then 1 else 0)
  {
    DayIff(year, month, day);
    AcceptedIfDay(year, month, day);
  }

  /** Two digits are the number's tens and units. */
  lemma TwoIsDecimal(n: int)
    requires 0 <= n < 100
    ensures Two(n) == ["0123456789"[n / 10], "0123456789"[n % 10]]
  {
  }

  lemma ConcreteDay()
    ensures Written(Date(1987, 6, 5)) == "1987-06-05"
  {
    TwoIsDecimal(19);
    TwoIsDecimal(87);
    TwoIsDecimal(6);
    TwoIsDecimal(5);
  }

  /** The accuracy says what the prefix leaves open: nothing for a day, the day for a month, even the month for a year. */
  lemma AccuracyIsWhatIsKnown(s: string)
    requires Accepted(s)
    ensures var accuracy := ResolveFuzzyDate(Some(s)).value.accuracy;
            && (accuracy == Day <==> forall a, b :: HasPrefix(a, s) && HasPrefix(b, s) ==> a == b)
            && (accuracy == Year <==> exists a, b :: HasPrefix(a, s) && HasPrefix(b, s) && a.month != b.month)
  {
    var d :| IsWritable(d) && s <= Written(d);
    forall a, b | HasPrefix(a, s) && HasPrefix(b, s)
      ensures |s| == 10 ==> a == b
      ensures |s| >= 7 ==> a.month == b.month
    {
      PrefixFields(s, a);
      PrefixFields(s, b);
    }
    PrefixFields(s, d);
    if |s| == 4 {
      SamePrefix(s, d, Date(d.year, 1, 1));
      SamePrefix(s, d, Date(d.year, 2, 1));
    } else if |s| == 7 {
      SamePrefix(s, d, Date(d.year, d.month, 1));
      SamePrefix(s, d, Date(d.year, d.month, 2));
    }
  }

  ghost predicate HasPrefix(d: Date, s: string) {
    IsWritable(d) && s <= Written(d)
  }

  lemma SamePrefix(s: string, d: Date, other: Date)
    requires HasPrefix(d, s) && IsWritable(other) && d.year == other.year
    requires |s| == 4 || (|s| == 7 && d.month == other.month)
    ensures HasPrefix(other, s)
  {
    var w := Four(d.year) + "-" + Two(d.month);
    assert Written(d) == w + "-" + Two(d.day);
    assert Written(d)[..4] == Four(d.year) == Written(other)[..4];
    assert |s| == 7 ==> Written(d)[..7] == w == Written(other)[..7];
    assert s == Written(d)[..|s|];
  }

  // ----- age

  /** The age on a day: the years whose anniversary, by month and day, has been reached. */
  ghost predicate CompletedYears(birth: Date, end: Date, years: int) {
    && !Before(end, Date(birth.year + years, birth.month, birth.day))
    && Before(end, Date(birth.year + years + 1, birth.month, birth.day))
  }

  function DaysBeforeTable(leap: bool, month: int): int
    requires 1 <= month <= 12
  {
    [0, 31, 59, 90, 120, 151, 181, 212, 243, 273, 304, 334][month - 1] + (if leap && month > 2 then 1 else 0)
  }

  lemma {:induction false} DaysBeforeIsTable(year: int, month: int)
    requires 1 <= month <= 12
    ensures DaysBefore(year, month) == DaysBeforeTable(IsLeap(year), month)
    decreases month
  {
    if month > 1 {
      DaysBeforeIsTable(year, month - 1);
    }
  }

  /** YearDay counts by one from 1 in every year, so comparing it within a year compares days. */
  lemma YearDayCounts(d: Date)
    requires IsDay(d)
    ensures NextDay(d).year == d.year ==> IsDay(NextDay(d)) && YearDay(NextDay(d)) == YearDay(d) + 1
    ensures NextDay(d).year != d.year ==> YearDay(d) == if IsLeap(d.year) then 366 else 365
  {
    DaysBeforeIsTable(d.year, d.month);
    if d.month < 12 {
      DaysBeforeIsTable(d.year, d.month + 1);
    }
  }

  /** The day of a birthday in another year. */
  predicate OnBirthday(birth: Date, end: Date) {
    end.month == birth.month && end.day == birth.day
  }

  predicate OnEve(birth: Date, end: Date) {
    OnBirthday(birth, NextDay(end))
  }

  predicate FromMarch(d: Date) {
    d.month >= 3
  }

  /** One on the eve, minus one on the day: where the day numbers of a leap year and of an ordinary year disagree. */
  function AgeError(birth: Date, end: Date): int {
    if FromMarch(birth) && IsLeap(birth.year) && !IsLeap(end.year) && OnBirthday(birth, end) then -1
    else if FromMarch(birth) && !IsLeap(birth.year) && IsLeap(end.year) && OnEve(birth, end) then 1
    else 0
  }

  function YearsByYearDay(birth: Date, end: Date): int
    requires IsDay(birth) && IsDay(end)
  {
    end.year - birth.year - (if YearDay(end) < YearDay(birth) then 1 else 0)
  }

  /** A later month begins after the end of an earlier one. */
  lemma LaterMonth(year: int, m1: int, m2: int)
    requires 1 <= m1 < m2 <= 12
    ensures DaysBefore(year, m2) >= DaysBefore(year, m1) + DaysIn(year, m1)
    decreases m2
  {
    if m1 < m2 - 1 {
      LaterMonth(year, m1, m2 - 1);
    }
  }

  /** The same month begins a day later in a leap year, from March on. */
  lemma LeapShift(leap: int, ordinary: int, month: int)
    requires 1 <= month <= 12 && IsLeap(leap) && !IsLeap(ordinary)
    ensures DaysBefore(leap, month) == DaysBefore(ordinary, month) + (if month >= 3 then 1 else 0)
  {
    DaysBeforeIsTable(leap, month);
    DaysBeforeIsTable(ordinary, month);
  }

  lemma SameKindOrder(birth: Date, end: Date)
    requires IsDay(birth) && IsDay(end) && IsLeap(birth.year) == IsLeap(end.year)
    ensures YearDay(end) < YearDay(birth) <==> DayBefore(end.month, end.day, birth.month, birth.day)
  {
    DaysBeforeIsTable(birth.year, birth.month);
    DaysBeforeIsTable(end.year, birth.month);
    if end.month < birth.month {
      LaterMonth(end.year, end.month, birth.month);
    } else if birth.month < end.month {
      LaterMonth(end.year, birth.month, end.month);
    }
  }

  lemma BornInLeapYear(birth: Date, end: Date)
    requires IsDay(birth) && IsDay(end) && IsLeap(birth.year) && !IsLeap(end.year)
    ensures YearDay(end) < YearDay(birth) <==>
              DayBefore(end.month, end.day, birth.month, birth.day) || (FromMarch(birth) && OnBirthday(birth, end))
  {
    LeapShift(birth.year, end.year, birth.month);
    if end.month < birth.month {
      LaterMonth(end.year, end.month, birth.month);
    } else if birth.month < end.month {
      LaterMonth(end.year, birth.month, end.month);
      LeapShift(birth.year, end.year, end.month);
    }
  }

  lemma EndInLeapYear(birth: Date, end: Date)
    requires IsDay(birth) && IsDay(end) && !IsLeap(birth.year) && IsLeap(end.year)
    ensures YearDay(end) < YearDay(birth) <==>
              DayBefore(end.month, end.day, birth.month, birth.day) && !(FromMarch(birth) && OnEve(birth, end))
  {
    LeapShift(end.year, birth.year, birth.month);
    if end.month < birth.month {
      LaterMonth(end.year, end.month, birth.month);
      if end.month + 1 < birth.month {
        LaterMonth(end.year, end.month + 1, birth.month);
      }
    } else if birth.month < end.month {
      LaterMonth(end.year, birth.month, end.month);
    }
  }

  /** Day numbers order like days, up to the leap day. */
  lemma YearDayOrder(birth: Date, end: Date)
    requires IsDay(birth) && IsDay(end)
    ensures YearDay(end) < YearDay(birth) <==>
              (DayBefore(end.month, end.day, birth.month, birth.day) && AgeError(birth, end) != 1) || AgeError(birth, end) == -1
  {
    if IsLeap(birth.year) == IsLeap(end.year) {
      SameKindOrder(birth, end);
    } else if IsLeap(birth.year) {
      BornInLeapYear(birth, end);
    } else {
      EndInLeapYear(birth, end);
    }
  }

  lemma AgeIsOffBy(birth: Date, end: Date)
    requires IsDay(birth) && IsDay(end)
    ensures CompletedYears(birth, end, YearsByYearDay(birth, end) - AgeError(birth, end))
  {
    YearDayOrder(birth, end);
  }

  lemma CompletedYearsUnique(birth: Date, end: Date, j: int, k: int)
    requires CompletedYears(birth, end, j) && CompletedYears(birth, end, k)
    ensures j == k
  {
  }

  /** The computed age is right exactly outside those days. */
  lemma AgeRightIff(birth: Date, end: Date)
    requires IsDay(birth) && IsDay(end)
    ensures CompletedYears(birth, end, YearsByYearDay(birth, end)) <==> AgeError(birth, end) == 0
    ensures IsLeap(birth.year) == IsLeap(end.year) ==> CompletedYears(birth, end, YearsByYearDay(birth, end))
  {
    AgeIsOffBy(birth, end);
    if CompletedYears(birth, end, YearsByYearDay(birth, end)) {
      CompletedYearsUnique(birth, end, YearsByYearDay(birth, end), YearsByYearDay(birth, end) - AgeError(birth, end));
    }
  }

  /** Born on 1 March 2000, and on 1 March 2023 still 22. */
  lemma BirthdayCountedLate()
    ensures YearsByYearDay(Date(2000, 3, 1), Date(2023, 3, 1)) == 22
    ensures CompletedYears(Date(2000, 3, 1), Date(2023, 3, 1), 23)
  {
    AgeIsOffBy(Date(2000, 3, 1), Date(2023, 3, 1));
  }

  /** Born on 1 March 2001, and on 29 February 2024 already 23. */
  lemma BirthdayCountedEarly()
    ensures YearsByYearDay(Date(2001, 3, 1), Date(2024, 2, 29)) == 23
    ensures CompletedYears(Date(2001, 3, 1), Date(2024, 2, 29), 22)
  {
    AgeIsOffBy(Date(2001, 3, 1), Date(2024, 2, 29));
  }

  /** The day an age is computed for: the earliest the death date can mean if it is readable, otherwise today. */
  ghost predicate IsEnd(end: Date, death: Option<string>, now: Date) {
    if death.Some? && Accepted(death.value) then EarliestWith(end, death.value) else end == now
  }

  /** The completed years between the two days, up to the error of comparing day numbers. */
  ghost predicate IsAge(birthDate: string, deathDate: Option<string>, now: Date, years: int) {
    forall birth, end :: EarliestWith(birth, birthDate) && IsEnd(end, deathDate, now) ==>
      CompletedYears(birth, end, years - AgeError(birth, end))
  }

  lemma EarliestIsUnique(a: Date, b: Date, s: string)
    requires EarliestWith(a, s) && EarliestWith(b, s)
    ensures a == b
  {
  }

  lemma EndIs(death: Option<string>, now: Date)
    ensures IsEnd(if death.Some? && ParseDateString(death.value).Some? then ParseDateString(death.value).value else now, death, now)
  {
    if death.Some? {
      ParsedIsEarliest(death.value);
    }
  }

  lemma AgeAt(birthDate: string, deathDate: Option<string>, now: Date, birth: Date, end: Date)
    requires EarliestWith(birth, birthDate) && IsEnd(end, deathDate, now) && IsDay(end)
    ensures IsAge(birthDate, deathDate, now, YearsByYearDay(birth, end))
  {
    AgeIsOffBy(birth, end);
    forall b, e | EarliestWith(b, birthDate) && IsEnd(e, deathDate, now) ensures b == birth && e == end {
      EarliestIsUnique(b, birth, birthDate);
      if deathDate.Some? && Accepted(deathDate.value) {
        EarliestIsUnique(e, end, deathDate.value);
      }
    }
  }

  /** Age. */
  method Age(birthDate: Option<string>, deathDate: Option<string>, now: Date) returns (age: Option<int>)
    requires IsDay(now)
    ensures age.Some? <==> birthDate.Some? && Accepted(birthDate.value)
    ensures age.Some? ==> IsAge(birthDate.value, deathDate, now, age.value)
  {
    if birthDate.None? {
      return None;
    }
    var birth := ParseDateString(birthDate.value);
    ParsedIsEarliest(birthDate.value);
    if birth.None? {
      return None;
    }
    var end := now;
    if deathDate.Some? {
      var death := ParseDateString(deathDate.value);
      if death.Some? {
        end := death.value;
      }
    }
    EndIs(deathDate, now);
    var years := end.year - birth.value.year;
    if YearDay(end) < YearDay(birth.value) {
      years := years - 1;
    }
    assert years == YearsByYearDay(birth.value, end);
    AgeAt(birthDate.value, deathDate, now, birth.value, end);
    return Some(years);
  }
}
