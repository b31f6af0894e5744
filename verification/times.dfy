/** Tweet timestamps: the `+dddd ` offset is cut out and the rest is read with
    the layout `%a %b %d %H:%M:%S %Y` into an instant ordered field by field. */
module Times {
  import opened Text
  import opened Wrappers

  datatype Instant = Instant(year: int, month: int, day: int, hour: int, minute: int, second: int)

  /** `a` is not later than `b`: the fields compared in order. */
  predicate NotAfter(a: Instant, b: Instant)
  {
    if a.year != b.year then a.year < b.year
    else if a.month != b.month then a.month < b.month
    else if a.day != b.day then a.day < b.day
    else if a.hour != b.hour then a.hour < b.hour
    else if a.minute != b.minute then a.minute < b.minute
    else a.second <= b.second
  }

  lemma NotAfterTotal(a: Instant, b: Instant)
    ensures NotAfter(a, b) || NotAfter(b, a)
  {
  }

  lemma NotAfterTransitive(a: Instant, b: Instant, c: Instant)
    requires NotAfter(a, b) && NotAfter(b, c)
    ensures NotAfter(a, c)
  {
  }

  lemma NotAfterAntisymmetric(a: Instant, b: Instant)
    requires NotAfter(a, b) && NotAfter(b, a)
    ensures a == b
  {
  }

  predicate IsDigit(c: char)
  {
    '0' <= c <= '9'
  }

  /** The regular expression `\+\d\d\d\d ` matches at the start of `s`. */
  predicate OffsetAt(s: string)
  {
    |s| >= 6 && s[0] == '+' && IsDigit(s[1]) && IsDigit(s[2]) && IsDigit(s[3]) && IsDigit(s[4]) && s[5] == ' '
  }

  /** `re.sub('\+\d\d\d\d ', '', s)`: every match, scanning left to right, is cut out. */
  function StripOffsets(s: string): string
    decreases |s|
  {
    if |s| == 0 then ""
    else if OffsetAt(s) then StripOffsets(s[6..])
    else [s[0]] + StripOffsets(s[1..])
  }

  /** A prefix without '+' passes through untouched. */
  lemma {:induction false} StripOffsetsPlusFree(a: string, b: string)
    requires forall k :: 0 <= k < |a| ==> a[k] != '+'
    ensures StripOffsets(a + b) == a + StripOffsets(b)
    decreases |a|
  {
    if |a| > 0 {
      assert (a + b)[0] == a[0];
      assert (a + b)[1..] == a[1..] + b;
      StripOffsetsPlusFree(a[1..], b);
      assert [a[0]] + (a[1..] + StripOffsets(b)) == a + StripOffsets(b);
    } else {
      assert a + b == b;
    }
  }

  function WeekdayName(d: nat): string
    requires d < 7
  {
    if d == 0 then "Mon" else if d == 1 then "Tue" else if d == 2 then "Wed" else if d == 3 then "Thu"
    else if d == 4 then "Fri" else if d == 5 then "Sat" else "Sun"
  }

  function MonthName(m: int): string
    requires 1 <= m <= 12
  {
    if m == 1 then "Jan" else if m == 2 then "Feb" else if m == 3 then "Mar" else if m == 4 then "Apr"
    else if m == 5 then "May" else if m == 6 then "Jun" else if m == 7 then "Jul" else if m == 8 then "Aug"
    else if m == 9 then "Sep" else if m == 10 then "Oct" else if m == 11 then "Nov" else "Dec"
  }

  /** `%a`: a weekday abbreviation, in any case. */
  predicate IsWeekday(a: char, b: char, c: char)
  {
    var w := [Lower(a), Lower(b), Lower(c)];
    w == "mon" || w == "tue" || w == "wed" || w == "thu" || w == "fri" || w == "sat" || w == "sun"
  }

  /** `%b`: the number of a month abbreviation, in any case, or 0 for none. */
  function MonthOf(a: char, b: char, c: char): (m: int)
    ensures 0 <= m <= 12
  {
    var w := [Lower(a), Lower(b), Lower(c)];
    if w == "jan" then 1 else if w == "feb" then 2 else if w == "mar" then 3 else if w == "apr" then 4
    else if w == "may" then 5 else if w == "jun" then 6 else if w == "jul" then 7 else if w == "aug" then 8
    else if w == "sep" then 9 else if w == "oct" then 10 else if w == "nov" then 11 else if w == "dec" then 12
    else 0
  }

  function DigitValue(c: char): nat
    requires IsDigit(c)
  {
    c as int - '0' as int
  }

  /** A two-digit field. */
  function Number2(a: char, b: char): Option<nat>
  {
    if IsDigit(a) && IsDigit(b) then Some(DigitValue(a) * 10 + DigitValue(b)) else None
  }

  /** A four-digit field. */
  function Number4(a: char, b: char, c: char, d: char): Option<nat>
  {
    if IsDigit(a) && IsDigit(b) && IsDigit(c) && IsDigit(d)
    then Some(((DigitValue(a) * 10 + DigitValue(b)) * 10 + DigitValue(c)) * 10 + DigitValue(d))
    else None
  }

  predicate IsLeapYear(y: int)
  {
    y % 4 == 0 && (y % 100 != 0 || y % 400 == 0)
  }

  function DaysInMonth(y: int, m: int): int
  {
    if m == 2 then (if IsLeapYear(y) then 29 else 28)
    else if m == 4 || m == 6 || m == 9 || m == 11 then 30
    else 31
  }

  /** The fields the date-time type accepts (seconds 60 and 61 are refused). */
  predicate ValidInstant(t: Instant)
  {
    1 <= t.year <= 9999 && 1 <= t.month <= 12 && 1 <= t.day <= DaysInMonth(t.year, t.month)
    && 0 <= t.hour < 24 && 0 <= t.minute < 60 && 0 <= t.second < 60
  }

  /** `strptime(s, '%a %b %d %H:%M:%S %Y')` on the canonical layout
      "Www Mmm DD HH:MM:SS YYYY". The weekday must be a weekday name but is not
      checked against the date; an impossible date is refused. */
  function ParseClock(s: string): (r: Result<Instant>)
    ensures r.Ok? ==> ValidInstant(r.value)
    ensures r.Err? ==> r.error == BadTimestamp
  {
    if |s| != 24 || s[3] != ' ' || s[7] != ' ' || s[10] != ' ' || s[13] != ':' || s[16] != ':' || s[19] != ' '
    then Err(BadTimestamp)
    else
      var month := MonthOf(s[4], s[5], s[6]);
      var day, hour, minute := Number2(s[8], s[9]), Number2(s[11], s[12]), Number2(s[14], s[15]);
      var second, year := Number2(s[17], s[18]), Number4(s[20], s[21], s[22], s[23]);
      if !IsWeekday(s[0], s[1], s[2]) || month == 0 || day.None? || hour.None? || minute.None? || second.None? || year.None?
      then Err(BadTimestamp)
      else
        var t := Instant(year.value, month, day.value, hour.value, minute.value, second.value);
        if ValidInstant(t) then Ok(t) else Err(BadTimestamp)
  }

  /** `get_time_value` / `get_str_time_value`. */
  function ParseTimestamp(s: string): Result<Instant>
  {
    ParseClock(StripOffsets(s))
  }

  // ---------------------------------------------------------------- formatting

  function Digit(n: nat): char
    requires n < 10
  {
    ('0' as int + n) as char
  }

  /** "Www Mmm DD HH:MM:SS ", the part of a tweet timestamp before the offset. */
  function ClockText(t: Instant, weekday: nat): (s: string)
    requires ValidInstant(t) && weekday < 7
    ensures |s| == 20
  {
    var w, m := WeekdayName(weekday), MonthName(t.month);
    [w[0], w[1], w[2], ' ', m[0], m[1], m[2], ' ',
     Digit(t.day / 10), Digit(t.day % 10), ' ',
     Digit(t.hour / 10), Digit(t.hour % 10), ':',
     Digit(t.minute / 10), Digit(t.minute % 10), ':',
     Digit(t.second / 10), Digit(t.second % 10), ' ']
  }

  function YearText(y: nat): (s: string)
    requires y < 10000
    ensures |s| == 4
  {
    [Digit(y / 1000), Digit(y / 100 % 10), Digit(y / 10 % 10), Digit(y % 10)]
  }

  /** The timestamp layout of the tweet source: "Www Mmm DD HH:MM:SS +0000 YYYY". */
  function FormatTimestamp(t: Instant, weekday: nat): string
    requires ValidInstant(t) && weekday < 7
  {
    ClockText(t, weekday) + "+0000 " + YearText(t.year)
  }

  lemma NamesHaveNoPlus(t: Instant, weekday: nat)
    requires ValidInstant(t) && weekday < 7
    ensures forall k :: 0 <= k < 20 ==> ClockText(t, weekday)[k] != '+'
  {
  }

  lemma NamesReadBack(t: Instant, weekday: nat)
    requires ValidInstant(t) && weekday < 7
    ensures var w := WeekdayName(weekday); IsWeekday(w[0], w[1], w[2])
    ensures var m := MonthName(t.month); MonthOf(m[0], m[1], m[2]) == t.month
  {
  }

  lemma StripFormatted(t: Instant, weekday: nat)
    requires ValidInstant(t) && weekday < 7
    ensures StripOffsets(FormatTimestamp(t, weekday)) == ClockText(t, weekday) + YearText(t.year)
  {
    var clock, year := ClockText(t, weekday), YearText(t.year);
    NamesHaveNoPlus(t, weekday);
    assert FormatTimestamp(t, weekday) == clock + ("+0000 " + year);
    StripOffsetsPlusFree(clock, "+0000 " + year);
    assert OffsetAt("+0000 " + year);
    assert ("+0000 " + year)[6..] == year;
    StripOffsetsPlusFree(year, "");
    assert year + "" == year;
  }

  lemma Number2Digits(n: nat)
    requires n < 100
    ensures Number2(Digit(n / 10), Digit(n % 10)) == Some(n)
  {
  }

  lemma Number4Digits(y: nat)
    requires y < 10000
    ensures Number4(Digit(y / 1000), Digit(y / 100 % 10), Digit(y / 10 % 10), Digit(y % 10)) == Some(y)
  {
    var high, mid, low := y / 1000, y / 100, y / 10;
    assert mid == high * 10 + mid % 10;
    assert low == mid * 10 + low % 10;
    assert y == low * 10 + y % 10;
    assert DigitValue(Digit(high)) == high;
    assert DigitValue(Digit(mid % 10)) == mid % 10;
    assert DigitValue(Digit(low % 10)) == low % 10;
    assert DigitValue(Digit(y % 10)) == y % 10;
  }

  lemma ParseClockText(t: Instant, weekday: nat)
    requires ValidInstant(t) && weekday < 7
    ensures ParseClock(ClockText(t, weekday) + YearText(t.year)) == Ok(t)
  {
    var clock, year := ClockText(t, weekday), YearText(t.year);
    var s := clock + year;
    NamesReadBack(t, weekday);
    Number2Digits(t.day);
    Number2Digits(t.hour);
    Number2Digits(t.minute);
    Number2Digits(t.second);
    Number4Digits(t.year);
    assert s[0] == clock[0] && s[1] == clock[1] && s[2] == clock[2];
    assert s[4] == clock[4] && s[5] == clock[5] && s[6] == clock[6];
    assert s[8] == clock[8] && s[9] == clock[9] && s[11] == clock[11] && s[12] == clock[12];
    assert s[14] == clock[14] && s[15] == clock[15] && s[17] == clock[17] && s[18] == clock[18];
    assert s[20] == year[0] && s[21] == year[1] && s[22] == year[2] && s[23] == year[3];
  }

  /** Reading back a formatted timestamp gives the instant that was written,
      whatever weekday name it carries. */
  lemma ParseFormatted(t: Instant, weekday: nat)
    requires ValidInstant(t) && weekday < 7
    ensures ParseTimestamp(FormatTimestamp(t, weekday)) == Ok(t)
  {
    StripFormatted(t, weekday);
    ParseClockText(t, weekday);
  }

  /** The example timestamp of a tweet. */
  lemma ParseExample()
    ensures ParseTimestamp("Wed Oct 10 20:19:24 +0000 2018") == Ok(Instant(2018, 10, 10, 20, 19, 24))
  {
    var t := Instant(2018, 10, 10, 20, 19, 24);
    assert ValidInstant(t) by {
      assert DaysInMonth(2018, 10) == 31;
    }
    ParseFormatted(t, 2);
    assert ClockText(t, 2) == "Wed Oct 10 20:19:24 ";
    assert YearText(2018) == "2018";
    assert FormatTimestamp(t, 2) == "Wed Oct 10 20:19:24 +0000 2018";
  }
}
