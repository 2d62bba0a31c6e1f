/**
 * Calendar days as day numbers (days since 1970-01-01, a Thursday), the
 * `YYYY-MM-DD` and `HH:MM` string forms the records use, and the orders
 * on those strings.
 */
module Calendar {
  import opened Wrappers
  import opened Strings

  /** Days since 1970-01-01. */
  type Day = int

  datatype CalendarDate = CalendarDate(year: int, month: int, day: int)

  /** Day number of a proleptic Gregorian date (days-from-civil); a day past the month's end runs on into the next month. */
  function DayNumber(c: CalendarDate): Day {
    var y := if c.month <= 2 then c.year - 1 else c.year;
    var era := y / 400;
    var yoe := y - era * 400;
    var mp := if c.month > 2 then c.month - 3 else c.month + 9;
    var doy := (153 * mp + 2) / 5 + c.day - 1;
    var doe := yoe * 365 + yoe / 4 - yoe / 100 + doy;
    era * 146097 + doe - 719468
  }

  /** The day numbers of one month are consecutive from its first day. */
  lemma DayNumberInMonth(c: CalendarDate)
    ensures DayNumber(c) == DayNumber(c.(day := 1)) + c.day - 1
  {
  }

  lemma EpochDayNumbers()
    ensures DayNumber(CalendarDate(1970, 1, 1)) == 0
    ensures DayNumber(CalendarDate(2024, 1, 10)) == 19732
  {
  }

  /** `Date.prototype.getDay()`: 0 for Sunday up to 6 for Saturday. */
  function Weekday(d: Day): (w: int)
    ensures 0 <= w < 7
  {
    (d + 4) % 7
  }

  /** Going back `Weekday(d)` days from `d` lands on a Sunday. */
  lemma WeekStartIsSunday(d: Day)
    ensures Weekday(d - Weekday(d)) == 0
  {
    var w := Weekday(d);
    var q := (d + 4) / 7;
    assert d + 4 == 7 * q + w;
    assert d - w + 4 == 7 * q;
  }

  lemma WeekdayExamples()
    ensures Weekday(0) == 4                                   // 1970-01-01 was a Thursday
    ensures Weekday(DayNumber(CalendarDate(2024, 1, 10))) == 3 // 2024-01-10 was a Wednesday
  {
  }

  /** The calendar date of a day number (civil-from-days); used only to print dates. */
  function CivilFromDays(d: Day): CalendarDate {
    var z := d + 719468;
    var era := z / 146097;
    var doe := z - era * 146097;
    var yoe := (doe - doe / 1460 + doe / 36524 - doe / 146096) / 365;
    var y := yoe + era * 400;
    var doy := doe - (365 * yoe + yoe / 4 - yoe / 100);
    var mp := (5 * doy + 2) / 153;
    var dd := doy - (153 * mp + 2) / 5 + 1;
    var m := if mp < 10 then mp + 3 else mp - 9;
    CalendarDate(if m <= 2 then y + 1 else y, m, dd)
  }

  function DigitChar(n: int): char
    requires 0 <= n < 10
  {
    ('0' as int + n) as char
  }

  function NatToString(n: nat): string
    decreases n
  {
    if n < 10 then [DigitChar(n)] else NatToString(n / 10) + [DigitChar(n % 10)]
  }

  function IntToString(n: int): string {
    if n < 0 then "-" + NatToString(-n) else NatToString(n)
  }

  function Pad2(n: int): string {
    if 0 <= n < 10 then "0" + NatToString(n) else IntToString(n)
  }

  /** `toLocaleDateString('fr-FR')`: `DD/MM/YYYY`. */
  function FormatFr(d: Day): string {
    var c := CivilFromDays(d);
    Pad2(c.day) + "/" + Pad2(c.month) + "/" + IntToString(c.year)
  }

  /** The number a string of decimal digits spells. */
  function DigitsValue(s: string): nat
    requires AllDigits(s)
  {
    if s == [] then 0
    else
      assert IsDigit(s[|s| - 1]);
      10 * DigitsValue(s[..|s| - 1]) + (s[|s| - 1] as int - '0' as int)
  }

  predicate AllDigits(s: string) {
    forall i :: 0 <= i < |s| ==> IsDigit(s[i])
  }

  lemma {:induction false} DigitsValueBound(s: string)
    requires AllDigits(s)
    ensures DigitsValue(s) < Pow10(|s|)
  {
    if s != [] {
      DigitsValueBound(s[..|s| - 1]);
    }
  }

  function Pow10(n: nat): nat {
    if n == 0 then 1 else 10 * Pow10(n - 1)
  }

  /** On digit strings of one length, string order is numeric order. */
  lemma {:induction false} DigitsOrder(a: string, b: string)
    requires AllDigits(a) && AllDigits(b) && |a| == |b|
    ensures StrLt(a, b) <==> DigitsValue(a) < DigitsValue(b)
    ensures a == b <==> DigitsValue(a) == DigitsValue(b)
    decreases |a|
  {
    if a != [] {
      var n := |a| - 1;
      var a', b' := a[..n], b[..n];
      assert a == a' + [a[n]] && b == b' + [b[n]];
      StrLtConcat(a', [a[n]], b', [b[n]]);
      StrLtConcat(b', [b[n]], a', [a[n]]);
      DigitsOrder(a', b');
      DigitsOrder(b', a');
      StrLtTotal(a', b');
      if StrLt(a', b') {
        StrLtAsymmetric(a', b');
      }
      if StrLt(b', a') {
        StrLtAsymmetric(b', a');
      }
    }
  }

  /** The pattern `^\d{4}-\d{2}-\d{2}$`. */
  predicate IsIsoDateShape(s: string) {
    && |s| == 10
    && AllDigits(s[..4]) && s[4] == '-' && AllDigits(s[5..7]) && s[7] == '-' && AllDigits(s[8..])
  }

  /** The year, month and day fields of a `YYYY-MM-DD` string, as written. */
  function IsoFields(s: string): CalendarDate
    requires IsIsoDateShape(s)
  {
    CalendarDate(DigitsValue(s[..4]), DigitsValue(s[5..7]), DigitsValue(s[8..]))
  }

  /** `new Date(s)` for a `YYYY-MM-DD` string, as a day number; `None` for an invalid date. */
  function ParseIsoDate(s: string): (r: Option<Day>)
    ensures r.Some? <==> IsIsoDateShape(s) && 1 <= IsoFields(s).month <= 12 && 1 <= IsoFields(s).day <= 31
    ensures r.Some? ==> r.value == DayNumber(IsoFields(s))
  {
    if IsIsoDateShape(s) && 1 <= IsoFields(s).month <= 12 && 1 <= IsoFields(s).day <= 31
    then Some(DayNumber(IsoFields(s)))
    else None
  }

  /** `YYYY-MM-DD` read as the number `YYYYMMDD`. */
  function IsoDateKey(s: string): nat
    requires IsIsoDateShape(s)
  {
    var c := IsoFields(s);
    c.year * 10000 + c.month * 100 + c.day
  }

  /**
   * On strings of the form `YYYY-MM-DD`, string order is the order of the
   * dates they spell (year, then month, then day): comparing such strings
   * with `<` or `$gte` compares the dates.
   */
  lemma IsoDateOrder(a: string, b: string)
    requires IsIsoDateShape(a) && IsIsoDateShape(b)
    ensures StrLt(a, b) <==> IsoDateKey(a) < IsoDateKey(b)
    ensures a == b <==> IsoDateKey(a) == IsoDateKey(b)
  {
    assert a == a[..4] + (a[4..5] + (a[5..7] + (a[7..8] + a[8..])));
    assert b == b[..4] + (b[4..5] + (b[5..7] + (b[7..8] + b[8..])));
    assert a[4..5] == b[4..5] == "-" && a[7..8] == b[7..8] == "-";
    StrLtConcat(a[..4], a[4..5] + (a[5..7] + (a[7..8] + a[8..])), b[..4], b[4..5] + (b[5..7] + (b[7..8] + b[8..])));
    StrLtConcat(a[4..5], a[5..7] + (a[7..8] + a[8..]), b[4..5], b[5..7] + (b[7..8] + b[8..]));
    StrLtConcat(a[5..7], a[7..8] + a[8..], b[5..7], b[7..8] + b[8..]);
    StrLtConcat(a[7..8], a[8..], b[7..8], b[8..]);
    StrLtIrreflexive("-");
    DigitsOrder(a[..4], b[..4]);
    DigitsOrder(a[5..7], b[5..7]);
    DigitsOrder(a[8..], b[8..]);
    DigitsValueBound(a[5..7]);
    DigitsValueBound(b[5..7]);
    DigitsValueBound(a[8..]);
    DigitsValueBound(b[8..]);
    assert Pow10(2) == 100;
  }

  /** The pattern `^([0-1]?[0-9]|2[0-3]):[0-5][0-9]$`: an hour with an optional leading zero, a colon, two minute digits. */
  predicate IsClockTime(s: string) {
    if |s| == 4 then
      IsDigit(s[0]) && s[1] == ':' && '0' <= s[2] <= '5' && IsDigit(s[3])
    else if |s| == 5 then
      && ((('0' <= s[0] <= '1') && IsDigit(s[1])) || (s[0] == '2' && '0' <= s[1] <= '3'))
      && s[2] == ':' && '0' <= s[3] <= '5' && IsDigit(s[4])
    else
      false
  }

  function ClockHour(s: string): int
    requires IsClockTime(s)
  {
    if |s| == 4 then DigitsValue(s[..1]) else DigitsValue(s[..2])
  }

  function ClockMinute(s: string): int
    requires IsClockTime(s)
  {
    DigitsValue(s[|s| - 2..])
  }

  /** Minutes since midnight of a clock time. */
  function ClockMinutes(s: string): (r: int)
    requires IsClockTime(s)
    ensures 0 <= r < 24 * 60
  {
    assert DigitsValue(s[|s| - 2..]) == 10 * DigitsValue(s[|s| - 2..|s| - 1]) + (s[|s| - 1] as int - '0' as int) by {
      assert s[|s| - 2..][..1] == s[|s| - 2..|s| - 1];
    }
    assert |s| == 5 ==> DigitsValue(s[..2]) == 10 * DigitsValue(s[..1]) + (s[1] as int - '0' as int) by {
      if |s| == 5 {
        assert s[..2][..1] == s[..1];
      }
    }
    ClockHour(s) * 60 + ClockMinute(s)
  }

  /** `HH:MM` with a two-digit hour. */
  function FormatClock(h: int, m: int): string
    requires 0 <= h < 24 && 0 <= m < 60
  {
    Pad2(h) + ":" + Pad2(m)
  }

  /** `H:MM` with a one-digit hour, which the pattern also accepts. */
  function FormatClockShort(h: int, m: int): string
    requires 0 <= h < 10 && 0 <= m < 60
  {
    NatToString(h) + ":" + Pad2(m)
  }

  lemma Pad2Digits(n: int)
    requires 0 <= n < 100
    ensures Pad2(n) == [DigitChar(n / 10), DigitChar(n % 10)]
    ensures AllDigits(Pad2(n)) && DigitsValue(Pad2(n)) == n
  {
    if n >= 10 {
      assert NatToString(n) == NatToString(n / 10) + [DigitChar(n % 10)];
      assert NatToString(n / 10) == [DigitChar(n / 10)];
    }
    TwoDigitValue(Pad2(n));
  }

  lemma TwoDigitValue(x: string)
    requires |x| == 2 && AllDigits(x)
    ensures DigitsValue(x) == 10 * (x[0] as int - '0' as int) + (x[1] as int - '0' as int)
    ensures DigitsValue(x[..1]) == x[0] as int - '0' as int
  {
    assert x[..1] == [x[0]];
    assert x[..1][..0] == [];
  }

  lemma DigitCharOf(c: char)
    requires IsDigit(c)
    ensures DigitChar(c as int - '0' as int) == c
  {
  }

  /** Every hour 0-23 and minute 00-59 written `HH:MM` is accepted, and reads back as that time. */
  lemma FormatClockAccepted(h: int, m: int)
    requires 0 <= h < 24 && 0 <= m < 60
    ensures IsClockTime(FormatClock(h, m)) && |FormatClock(h, m)| == 5
    ensures ClockHour(FormatClock(h, m)) == h && ClockMinute(FormatClock(h, m)) == m
  {
    var s := FormatClock(h, m);
    Pad2Digits(h);
    Pad2Digits(m);
    assert s[..2] == Pad2(h) && s[3..] == Pad2(m);
  }

  /** An hour 0-9 written without its leading zero is accepted too. */
  lemma FormatClockShortAccepted(h: int, m: int)
    requires 0 <= h < 10 && 0 <= m < 60
    ensures IsClockTime(FormatClockShort(h, m)) && |FormatClockShort(h, m)| == 4
    ensures ClockHour(FormatClockShort(h, m)) == h && ClockMinute(FormatClockShort(h, m)) == m
  {
    var s := FormatClockShort(h, m);
    Pad2Digits(m);
    assert s[..1] == NatToString(h) && s[2..] == Pad2(m);
  }

  /** Conversely, every accepted string is one of those two forms of an hour 0-23 and a minute 00-59. */
  lemma ClockTimeForms(s: string)
    requires IsClockTime(s)
    ensures 0 <= ClockHour(s) < 24 && 0 <= ClockMinute(s) < 60
    ensures |s| == 5 ==> s == FormatClock(ClockHour(s), ClockMinute(s))
    ensures |s| == 4 ==> ClockHour(s) < 10 && s == FormatClockShort(ClockHour(s), ClockMinute(s))
  {
    if |s| == 5 {
      LongClockForm(s);
    } else {
      ShortClockForm(s);
    }
  }

  lemma MinuteDigits(s: string)
    requires IsClockTime(s)
    ensures 0 <= ClockMinute(s) < 60 && Pad2(ClockMinute(s)) == s[|s| - 2..]
  {
    var n := |s|;
    TwoDigitValue(s[n - 2..]);
    DigitCharOf(s[n - 2]);
    DigitCharOf(s[n - 1]);
    Pad2Digits(ClockMinute(s));
  }

  lemma LongClockForm(s: string)
    requires IsClockTime(s) && |s| == 5
    ensures 0 <= ClockHour(s) < 24 && 0 <= ClockMinute(s) < 60
    ensures s == FormatClock(ClockHour(s), ClockMinute(s))
  {
    MinuteDigits(s);
    TwoDigitValue(s[..2]);
    DigitCharOf(s[0]);
    DigitCharOf(s[1]);
    Pad2Digits(ClockHour(s));
    assert s == s[..2] + ":" + s[3..];
  }

  lemma ShortClockForm(s: string)
    requires IsClockTime(s) && |s| == 4
    ensures 0 <= ClockHour(s) < 10 && 0 <= ClockMinute(s) < 60
    ensures s == FormatClockShort(ClockHour(s), ClockMinute(s))
  {
    MinuteDigits(s);
    assert s[..1] == [s[0]] && s[..1][..0] == [];
    assert DigitsValue(s[..1]) == s[0] as int - '0' as int;
    DigitCharOf(s[0]);
    assert s == s[..1] + ":" + s[2..];
  }

  /** On two-digit-hour times, string order is the order of the times. */
  lemma ClockOrder(a: string, b: string)
    requires IsClockTime(a) && IsClockTime(b) && |a| == 5 && |b| == 5
    ensures StrLt(a, b) <==> ClockMinutes(a) < ClockMinutes(b)
    ensures a == b <==> ClockMinutes(a) == ClockMinutes(b)
  {
    assert a == a[..2] + (a[2..3] + a[3..]) && b == b[..2] + (b[2..3] + b[3..]);
    assert a[2..3] == b[2..3] == ":";
    StrLtConcat(a[..2], a[2..3] + a[3..], b[..2], b[2..3] + b[3..]);
    StrLtConcat(a[2..3], a[3..], b[2..3], b[3..]);
    StrLtIrreflexive(":");
    DigitsOrder(a[..2], b[..2]);
    DigitsOrder(a[3..], b[3..]);
    ClockTimeForms(a);
    ClockTimeForms(b);
  }

  /** With a one-digit hour string order and time order disagree: "9:30" sorts after "10:00". */
  lemma ShortHourSortsLate()
    ensures IsClockTime("9:30") && IsClockTime("10:00")
    ensures ClockMinutes("9:30") < ClockMinutes("10:00")
    ensures StrLt("10:00", "9:30")
  {
    FormatClockShortAccepted(9, 30);
    FormatClockAccepted(10, 0);
    assert FormatClockShort(9, 30) == "9:30";
    assert FormatClock(10, 0) == "10:00";
  }
}
