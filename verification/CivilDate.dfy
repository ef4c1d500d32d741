/** The UTC timestamp conversion of operation events: civil date arithmetic against plain Gregorian day
    counting, and the RFC 3339 (section 5.6) text form (services/dispatcher/src/projection/event.rs). */
module CivilDate {
  import opened Tables

  datatype Date = Date(year: int, month: int, day: int)

  // ---------------------------------------------------------------- the source's arithmetic

  /** Rust's `/` on signed integers rounds toward zero. */
  function TruncDiv(a: int, b: int): int
    requires b > 0
  {
    if a >= 0 then a / b else -(-a / b)
  }

  function DaysFromCivil(date: Date): int {
    var y := if date.month <= 2 then date.year - 1 else date.year;
    var era := TruncDiv(if y >= 0 then y else y - 399, 400);
    var yearOfEra := y - era * 400;
    var m := if date.month > 2 then date.month - 3 else date.month + 9;
    var dayOfYear := TruncDiv(153 * m + 2, 5) + date.day - 1;
    var dayOfEra := yearOfEra * 365 + TruncDiv(yearOfEra, 4) - TruncDiv(yearOfEra, 100) + dayOfYear;
    era * 146_097 + dayOfEra - 719_468
  }

  // ---------------------------------------------------------------- plain day counting

  predicate Leap(year: int) { year % 4 == 0 && (year % 100 != 0 || year % 400 == 0) }

  function YearLength(year: int): int { if Leap(year) then 366 else 365 }

  function MonthLength(year: int, month: int): int {
    if month == 2 then (if Leap(year) then 29 else 28)
    else if month == 4 || month == 6 || month == 9 || month == 11 then 30
    else 31
  }

  predicate Valid(date: Date) {
    1 <= date.month <= 12 && 1 <= date.day <= MonthLength(date.year, date.month)
  }

  /** Days from 1 January 1970 to 1 January of `year`, one year at a time. */
  function DaysBeforeYear(year: int): int
    decreases if year >= 1970 then year - 1970 else 1970 - year
  {
    if year == 1970 then 0
    else if year > 1970 then DaysBeforeYear(year - 1) + YearLength(year - 1)
    else DaysBeforeYear(year + 1) - YearLength(year)
  }

  function DaysBeforeMonth(year: int, month: int): int
    requires 1 <= month
    decreases month
  {
    if month == 1 then 0 else DaysBeforeMonth(year, month - 1) + MonthLength(year, month - 1)
  }

  function DayNumber(date: Date): int
    requires 1 <= date.month
  {
    DaysBeforeYear(date.year) + DaysBeforeMonth(date.year, date.month) + date.day - 1
  }

  // ---------------------------------------------------------------- the two agree

  /** Days before 1 March of year `y`, up to a constant. */
  function MarchDays(y: int): int { 365 * y + y / 4 - y / 100 + y / 400 }

  /** The era split with truncating division is floor division. */
  lemma EraIsFloor(y: int)
    ensures TruncDiv(if y >= 0 then y else y - 399, 400) == y / 400
  {
  }

  lemma ErasAddUp(y: int)
    ensures var era := y / 400; var rest := y - era * 400;
      era * 146_097 + rest * 365 + rest / 4 - rest / 100 == MarchDays(y)
  {
    var era := y / 400;
    var rest := y - era * 400;
    assert y / 4 == era * 100 + rest / 4;
    assert y / 100 == era * 4 + rest / 100;
  }

  lemma Carry4(y: int)
    ensures (y + 1) / 4 == y / 4 + if (y + 1) % 4 == 0 then 1 else 0
  {
  }

  lemma Carry100(y: int)
    ensures (y + 1) / 100 == y / 100 + if (y + 1) % 100 == 0 then 1 else 0
  {
  }

  lemma Carry400(y: int)
    ensures (y + 1) / 400 == y / 400 + if (y + 1) % 400 == 0 then 1 else 0
  {
  }

  lemma Multiples(y: int)
    ensures y % 400 == 0 ==> y % 100 == 0
    ensures y % 100 == 0 ==> y % 4 == 0
  {
    var k, c, q := y / 400, y / 100, y / 4;
    assert 400 * k <= y < 400 * k + 400 && 100 * c <= y < 100 * c + 100 && 4 * q <= y < 4 * q + 4;
    if y == 400 * k { assert c == 4 * k; }
    if y == 100 * c { assert q == 25 * c; }
  }

  lemma MarchStep(y: int)
    ensures MarchDays(y + 1) == MarchDays(y) + YearLength(y + 1)
  {
    Carry4(y);
    Carry100(y);
    Carry400(y);
    Multiples(y + 1);
  }

  lemma MonthTable(year: int, month: int)
    requires 1 <= month <= 12
    ensures DaysBeforeMonth(year, month) ==
      if month <= 2 then (153 * (month + 9) + 2) / 5 - 306
      else (153 * (month - 3) + 2) / 5 + (if Leap(year) then 60 else 59)
  {
    assert DaysBeforeMonth(year, 1) == 0;
    assert DaysBeforeMonth(year, 2) == 31;
    assert DaysBeforeMonth(year, 3) == 31 + MonthLength(year, 2);
    assert DaysBeforeMonth(year, 4) == DaysBeforeMonth(year, 3) + 31;
    assert DaysBeforeMonth(year, 5) == DaysBeforeMonth(year, 3) + 61;
    assert DaysBeforeMonth(year, 6) == DaysBeforeMonth(year, 3) + 92;
    assert DaysBeforeMonth(year, 7) == DaysBeforeMonth(year, 3) + 122;
    assert DaysBeforeMonth(year, 8) == DaysBeforeMonth(year, 3) + 153;
    assert DaysBeforeMonth(year, 9) == DaysBeforeMonth(year, 3) + 184;
    assert DaysBeforeMonth(year, 10) == DaysBeforeMonth(year, 3) + 214;
    assert DaysBeforeMonth(year, 11) == DaysBeforeMonth(year, 3) + 245;
    assert DaysBeforeMonth(year, 12) == DaysBeforeMonth(year, 3) + 275;
  }

  lemma {:induction false} YearsAgree(year: int)
    ensures DaysBeforeYear(year) == MarchDays(year - 1) + 306 - 719_468
    decreases if year >= 1970 then year - 1970 else 1970 - year
  {
    if year > 1970 {
      YearsAgree(year - 1);
      MarchStep(year - 2);
    } else if year < 1970 {
      YearsAgree(year + 1);
      MarchStep(year - 1);
    }
  }

  lemma ErasCountMarchDays(date: Date)
    requires 1 <= date.month <= 12
    ensures DaysFromCivil(date) ==
      if date.month <= 2 then MarchDays(date.year - 1) + (153 * (date.month + 9) + 2) / 5 + date.day - 1 - 719_468
      else MarchDays(date.year) + (153 * (date.month - 3) + 2) / 5 + date.day - 1 - 719_468
  {
    var y := if date.month <= 2 then date.year - 1 else date.year;
    EraIsFloor(y);
    ErasAddUp(y);
  }

  /** For every month of every year, before and after the epoch, and for whatever day number: era,
      400-year and 153-day arithmetic count days exactly as the calendar does. */
  lemma DaysFromCivilIsDayNumber(date: Date)
    requires 1 <= date.month <= 12
    ensures DaysFromCivil(date) == DayNumber(date)
  {
    ErasCountMarchDays(date);
    YearsAgree(date.year);
    MonthTable(date.year, date.month);
    MarchStep(date.year - 1);
  }

  // ---------------------------------------------------------------- order

  predicate Before(a: Date, b: Date) {
    a.year < b.year || (a.year == b.year && (a.month < b.month || (a.month == b.month && a.day < b.day)))
  }

  lemma {:induction false} YearsAddUp(a: int, b: int)
    requires a < b
    ensures DaysBeforeYear(a) + YearLength(a) <= DaysBeforeYear(b)
    decreases b - a
  {
    if b == a + 1 { assert DaysBeforeYear(b) == DaysBeforeYear(a) + YearLength(a); }
    else {
      YearsAddUp(a, b - 1);
      assert DaysBeforeYear(b) == DaysBeforeYear(b - 1) + YearLength(b - 1);
    }
  }

  lemma {:induction false} MonthsAddUp(year: int, a: int, b: int)
    requires 1 <= a < b
    ensures DaysBeforeMonth(year, a) + MonthLength(year, a) <= DaysBeforeMonth(year, b)
    decreases b
  {
    if a < b - 1 { MonthsAddUp(year, a, b - 1); }
  }

  lemma WithinYear(date: Date)
    requires Valid(date)
    ensures 0 <= DaysBeforeMonth(date.year, date.month) + date.day - 1 < YearLength(date.year)
  {
    MonthTable(date.year, date.month);
  }

  /** The conversion is strictly increasing on calendar dates, so no two share a day. */
  lemma DaysFromCivilIncreases(a: Date, b: Date)
    requires Valid(a) && Valid(b)
    ensures DaysFromCivil(a) < DaysFromCivil(b) <==> Before(a, b)
    ensures DaysFromCivil(a) == DaysFromCivil(b) <==> a == b
  {
    DaysFromCivilIsDayNumber(a);
    DaysFromCivilIsDayNumber(b);
    WithinYear(a);
    WithinYear(b);
    if a.year < b.year { YearsAddUp(a.year, b.year); }
    else if b.year < a.year { YearsAddUp(b.year, a.year); }
    else if a.month < b.month { MonthsAddUp(a.year, a.month, b.month); }
    else if b.month < a.month { MonthsAddUp(a.year, b.month, a.month); }
  }

  // ---------------------------------------------------------------- the text form

  /** `i64::from_str` on at most four characters: an optional sign, then at least one digit. */
  function ParseInt(text: string): Option<int>
    requires |text| <= 4
  {
    if text == "" then None
    else if text[0] == '-' then
      (match ParseDigits(text[1..]) case Some(n) => Some(-n) case None => None)
    else if text[0] == '+' then ParseDigits(text[1..])
    else ParseDigits(text)
  }

  predicate IsDigit(c: char) { '0' <= c <= '9' }

  function ParseDigits(text: string): Option<int> {
    if text == "" || exists i | 0 <= i < |text| :: !IsDigit(text[i]) then None else Some(DigitsValue(text))
  }

  function DigitsValue(text: string): int
    requires forall i | 0 <= i < |text| :: IsDigit(text[i])
  {
    if text == "" then 0
    else 10 * DigitsValue(text[..|text| - 1]) + (text[|text| - 1] as int - '0' as int)
  }

  datatype Time = Time(hour: int, minute: int, second: int)

  function EpochSeconds(date: Date, time: Time): int {
    DaysFromCivil(date) * 86_400 + time.hour * 3_600 + time.minute * 60 + time.second
  }

  /** Whole epoch seconds of a timestamp, or nothing when it is refused. Whatever stands between the
      seconds and the final `Z` is skipped. Positions count characters; the source counts bytes, which
      differ only for texts that both refuse or inside the skipped part. */
  function ToEpochSeconds(text: string): Option<int> {
    if |text| < 20 || text[|text| - 1] != 'Z' then None
    else if text[4] != '-' || text[7] != '-' || text[10] != 'T' || text[13] != ':' || text[16] != ':' then None
    else
      match (ParseInt(text[0..4]), ParseInt(text[5..7]), ParseInt(text[8..10]),
             ParseInt(text[11..13]), ParseInt(text[14..16]), ParseInt(text[17..19]))
      case (Some(year), Some(month), Some(day), Some(hour), Some(minute), Some(second)) =>
        if !(1 <= month <= 12) || !(1 <= day <= 31) || hour > 23 || minute > 59 || second > 59 then None
        else Some(EpochSeconds(Date(year, month, day), Time(hour, minute, second)))
      case _ => None
  }

  predicate ValidTime(t: Time) { 0 <= t.hour <= 23 && 0 <= t.minute <= 59 && 0 <= t.second <= 59 }

  function Digit(n: int): char
    requires 0 <= n < 10
  {
    '0' + n as char
  }

  function Two(n: int): string
    requires 0 <= n < 100
  {
    [Digit(n / 10), Digit(n % 10)]
  }

  function Four(n: int): string
    requires 0 <= n < 10_000
  {
    Two(n / 100) + Two(n % 100)
  }

  function Laid(year: string, month: string, day: string, hour: string, minute: string, second: string,
                rest: string): string
  {
    year + "-" + month + "-" + day + "T" + hour + ":" + minute + ":" + second + rest + "Z"
  }

  /** The contract's spelling of an instant; `fraction` is empty or a point and digits. */
  function Spell(date: Date, time: Time, fraction: string): string
    requires Valid(date) && 0 <= date.year < 10_000 && ValidTime(time)
  {
    Laid(Four(date.year), Two(date.month), Two(date.day), Two(time.hour), Two(time.minute), Two(time.second), fraction)
  }

  /** The fixed positions of a timestamp pick out its fields. */
  lemma LaidParts(year: string, month: string, day: string, hour: string, minute: string, second: string, rest: string)
    requires |year| == 4 && |month| == 2 && |day| == 2 && |hour| == 2 && |minute| == 2 && |second| == 2
    ensures var text := Laid(year, month, day, hour, minute, second, rest);
      && |text| >= 20 && text[|text| - 1] == 'Z'
      && text[4] == '-' && text[7] == '-' && text[10] == 'T' && text[13] == ':' && text[16] == ':'
      && text[0..4] == year && text[5..7] == month && text[8..10] == day
      && text[11..13] == hour && text[14..16] == minute && text[17..19] == second
  {
    var text := Laid(year, month, day, hour, minute, second, rest);
    assert text[0..4] == year;
    assert text[5..7] == month;
    assert text[8..10] == day;
    assert text[11..13] == hour;
    assert text[14..16] == minute;
    assert text[17..19] == second;
  }

  lemma ParseTwo(n: int)
    requires 0 <= n < 100
    ensures ParseInt(Two(n)) == Some(n)
  {
    var text := Two(n);
    assert text[..1] == [Digit(n / 10)] && text[..1][..0] == "";
    assert DigitsValue(text[..1]) == n / 10;
  }

  lemma DigitsAppend(a: string, b: string)
    requires forall i | 0 <= i < |a| :: IsDigit(a[i])
    requires |b| == 2 && IsDigit(b[0]) && IsDigit(b[1])
    ensures DigitsValue(a + b) == 100 * DigitsValue(a) + 10 * (b[0] as int - '0' as int) + (b[1] as int - '0' as int)
  {
    var whole := a + b;
    assert whole[..|whole| - 1] == a + [b[0]];
    assert (a + [b[0]])[..|a|] == a;
  }

  lemma ParseFour(n: int)
    requires 0 <= n < 10_000
    ensures ParseInt(Four(n)) == Some(n)
  {
    DigitsAppend("", Two(n / 100));
    DigitsAppend(Two(n / 100), Two(n % 100));
    assert "" + Two(n / 100) == Two(n / 100);
  }

  /** Every well-formed UTC timestamp, with or without a fraction, is read as the instant it names,
      counted by the plain calendar. */
  lemma SpelledInstantIsRead(date: Date, time: Time, fraction: string)
    requires Valid(date) && 0 <= date.year < 10_000 && ValidTime(time)
    ensures ToEpochSeconds(Spell(date, time, fraction))
            == Some(DayNumber(date) * 86_400 + time.hour * 3_600 + time.minute * 60 + time.second)
  {
    LaidParts(Four(date.year), Two(date.month), Two(date.day), Two(time.hour), Two(time.minute), Two(time.second),
              fraction);
    ParseFour(date.year);
    ParseTwo(date.month);
    ParseTwo(date.day);
    ParseTwo(time.hour);
    ParseTwo(time.minute);
    ParseTwo(time.second);
    DaysFromCivilIsDayNumber(date);
  }

  predicate Sooner(a: Date, t: Time, b: Date, u: Time) {
    || Before(a, b)
    || (a == b && (t.hour < u.hour
        || (t.hour == u.hour && (t.minute < u.minute || (t.minute == u.minute && t.second < u.second)))))
  }

  /** The conversion keeps the order of well-formed timestamps to the second, fractions aside. */
  lemma SpelledOrderIsKept(a: Date, t: Time, f: string, b: Date, u: Time, g: string)
    requires Valid(a) && 0 <= a.year < 10_000 && ValidTime(t)
    requires Valid(b) && 0 <= b.year < 10_000 && ValidTime(u)
    ensures ToEpochSeconds(Spell(a, t, f)).Some? && ToEpochSeconds(Spell(b, u, g)).Some?
    ensures ToEpochSeconds(Spell(a, t, f)).value < ToEpochSeconds(Spell(b, u, g)).value <==> Sooner(a, t, b, u)
  {
    SpelledInstantIsRead(a, t, f);
    SpelledInstantIsRead(b, u, g);
    DaysFromCivilIsDayNumber(a);
    DaysFromCivilIsDayNumber(b);
    DaysFromCivilIncreases(a, b);
    DaysFromCivilIncreases(b, a);
  }

  // ---------------------------------------------------------------- what else is accepted

  /** A day that its month does not have is not refused: it runs on into the next month. So the
      conversion names the day it was given exactly when that day exists. */
  lemma MissingDayRunsOn(year: int, month: int, day: int)
    requires 1 <= month <= 12 && 1 <= day <= 31
    ensures Valid(Date(year, month, day)) <==>
            forall other | Valid(other) && DaysFromCivil(other) == DaysFromCivil(Date(year, month, day)) ::
              other == Date(year, month, day)
    ensures !Valid(Date(year, month, day)) ==>
            DaysFromCivil(Date(year, month, day)) == DaysFromCivil(Date(year, month + 1, day - MonthLength(year, month)))
  {
    var given := Date(year, month, day);
    if Valid(given) {
      forall other | Valid(other) && DaysFromCivil(other) == DaysFromCivil(given) ensures other == given {
        DaysFromCivilIncreases(other, given);
      }
    } else {
      var landed := Date(year, month + 1, day - MonthLength(year, month));
      assert Valid(landed);
      DaysFromCivilIsDayNumber(given);
      DaysFromCivilIsDayNumber(landed);
    }
  }

  /** The date and time that an accepted text was read as. */
  function DateOf(text: string): Date
    requires ToEpochSeconds(text).Some?
  {
    Date(ParseInt(text[0..4]).value, ParseInt(text[5..7]).value, ParseInt(text[8..10]).value)
  }

  function TimeOf(text: string): Time
    requires ToEpochSeconds(text).Some?
  {
    Time(ParseInt(text[11..13]).value, ParseInt(text[14..16]).value, ParseInt(text[17..19]).value)
  }

  /** A two-character field that is a minus sign and a digit other than zero. */
  predicate BelowZero(field: string)
    requires |field| == 2
  {
    field[0] == '-' && field[1] != '0'
  }

  lemma OneDigit(text: string)
    requires |text| == 1 && ParseDigits(text).Some?
    ensures 0 <= ParseDigits(text).value <= 9 && (ParseDigits(text).value == 0 <==> text[0] == '0')
  {
    assert IsDigit(text[0]) && text[..0] == "";
    assert DigitsValue(text) == 10 * DigitsValue(text[..0]) + (text[0] as int - '0' as int);
  }

  lemma TwoDigits(text: string)
    requires |text| == 2 && ParseDigits(text).Some?
    ensures ParseDigits(text).value >= 0
  {
    assert IsDigit(text[0]) && IsDigit(text[1]);
    OneDigit(text[..1]);
  }

  /** The sign decides: a field is read as a negative number exactly when it is below zero. */
  lemma FieldIsNegativeExactly(field: string)
    requires |field| == 2 && ParseInt(field).Some?
    ensures ParseInt(field).value < 0 <==> BelowZero(field)
  {
    if field[0] == '-' || field[0] == '+' {
      assert field[1..][0] == field[1];
      OneDigit(field[1..]);
    } else {
      TwoDigits(field);
    }
  }

  /** Exactly which accepted texts have a time of day: those whose hour, minute and second fields are not
      below zero. Every accepted text is read by its date and time; so it names an instant exactly when its
      month also has its day. */
  lemma AcceptedTimeIsInRangeExactly(text: string)
    requires ToEpochSeconds(text).Some?
    ensures ToEpochSeconds(text).value == EpochSeconds(DateOf(text), TimeOf(text))
    ensures ValidTime(TimeOf(text)) <==>
            !BelowZero(text[11..13]) && !BelowZero(text[14..16]) && !BelowZero(text[17..19])
    ensures Valid(DateOf(text)) <==> DateOf(text).day <= MonthLength(DateOf(text).year, DateOf(text).month)
  {
    FieldIsNegativeExactly(text[11..13]);
    FieldIsNegativeExactly(text[14..16]);
    FieldIsNegativeExactly(text[17..19]);
  }

  lemma ParseMinusOne()
    ensures ParseInt("-1") == Some(-1)
  {
    assert "-1"[1..] == "1" && "1"[..0] == "";
    assert DigitsValue("1") == 1;
  }

  /** A signed field passes the upper bounds, so an hour, minute or second may be negative; and whatever
      stands before the final `Z` is skipped. */
  lemma SignedTimeIsAccepted(date: Date, rest: string)
    requires Valid(date) && 0 <= date.year < 10_000
    ensures ToEpochSeconds(Laid(Four(date.year), Two(date.month), Two(date.day), "-1", "-1", "-1", rest))
            == Some(DayNumber(date) * 86_400 - 3_661)
  {
    LaidParts(Four(date.year), Two(date.month), Two(date.day), "-1", "-1", "-1", rest);
    ParseFour(date.year);
    ParseTwo(date.month);
    ParseTwo(date.day);
    ParseMinusOne();
    DaysFromCivilIsDayNumber(date);
  }
}
