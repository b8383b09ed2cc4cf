/**
 * ISO date helpers over the proleptic Gregorian calendar of section 21.4.1 of ECMA-262:
 * day numbers from years, months and days and back, the mutable Date the helpers use, and the
 * YYYY-MM-DD strings they take and give.
 */
module Dates {
  import opened Strings

  const MS_PER_DAY: int := 86_400_000

  /** A calendar date; months count from 0 as in the Date object. */
  datatype Date = Date(year: int, month: int, day: int)

  predicate Leap(y: int) {
    y % 4 == 0 && (y % 100 != 0 || y % 400 == 0)
  }

  function YearLength(y: int): int {
    if Leap(y) then 366 else 365
  }

  /** Days from the epoch to the first of January. */
  function DayFromYear(y: int): int {
    365 * (y - 1970) + (y - 1969) / 4 - (y - 1901) / 100 + (y - 1601) / 400
  }

  /** Days in the year before a month. */
  function MonthStart(m: int, leap: bool): int
    requires 0 <= m <= 12
  {
    (if m == 0 then 0 else if m == 1 then 31 else if m == 2 then 59 else if m == 3 then 90
     else if m == 4 then 120 else if m == 5 then 151 else if m == 6 then 181 else if m == 7 then 212
     else if m == 8 then 243 else if m == 9 then 273 else if m == 10 then 304
     else if m == 11 then 334 else 365)
    + (if leap && m >= 2 then 1 else 0)
  }

  function DaysInMonth(y: int, m: int): int
    requires 0 <= m < 12
  {
    MonthStart(m + 1, Leap(y)) - MonthStart(m, Leap(y))
  }

  predicate Valid(d: Date) {
    0 <= d.month < 12 && 1 <= d.day <= DaysInMonth(d.year, d.month)
  }

  /** The standard's MakeDay: months and days may overflow in either direction. */
  function MakeDay(year: int, month: int, dt: int): int {
    var y := year + month / 12;
    DayFromYear(y) + MonthStart(month % 12, Leap(y)) + dt - 1
  }

  function DayNumber(d: Date): int {
    MakeDay(d.year, d.month, d.day)
  }

  /** The largest year that starts no later than a day: an estimate, corrected by one if need be. */
  function YearFromDay(t: int): int {
    var guess := 1970 + 400 * t / 146_097;
    if DayFromYear(guess) > t then guess - 1
    else if DayFromYear(guess + 1) <= t then guess + 1
    else guess
  }

  function MonthFromYearDay(r: int, leap: bool): (m: int)
    requires 0 <= r < 365 + (if leap then 1 else 0)
    ensures 0 <= m < 12 && MonthStart(m, leap) <= r < MonthStart(m + 1, leap)
  {
    if r < MonthStart(1, leap) then 0 else if r < MonthStart(2, leap) then 1
    else if r < MonthStart(3, leap) then 2 else if r < MonthStart(4, leap) then 3
    else if r < MonthStart(5, leap) then 4 else if r < MonthStart(6, leap) then 5
    else if r < MonthStart(7, leap) then 6 else if r < MonthStart(8, leap) then 7
    else if r < MonthStart(9, leap) then 8 else if r < MonthStart(10, leap) then 9
    else if r < MonthStart(11, leap) then 10 else 11
  }

  lemma Quotient4(y: int)
    ensures (y - 1968) / 4 - (y - 1969) / 4 == if y % 4 == 0 then 1 else 0
  {
  }

  lemma Quotient100(y: int)
    ensures (y - 1900) / 100 - (y - 1901) / 100 == if y % 100 == 0 then 1 else 0
  {
  }

  lemma Quotient400(y: int)
    ensures (y - 1600) / 400 - (y - 1601) / 400 == if y % 400 == 0 then 1 else 0
  {
  }

  lemma MultipleOf(y: int)
    ensures y % 100 == 0 ==> y % 4 == 0
    ensures y % 400 == 0 ==> y % 100 == 0
  {
  }

  /** A year starts one year length after the one before. */
  lemma YearStep(y: int)
    ensures DayFromYear(y + 1) == DayFromYear(y) + YearLength(y)
  {
    Quotient4(y);
    Quotient100(y);
    Quotient400(y);
    MultipleOf(y);
  }

  lemma YearOfDay(t: int)
    ensures DayFromYear(YearFromDay(t)) <= t < DayFromYear(YearFromDay(t) + 1)
  {
  }

  lemma YearsAscend(a: int, b: int)
    requires a < b
    ensures DayFromYear(a) + YearLength(a) <= DayFromYear(b)
  {
    YearStep(a);
  }

  /** A valid date's day lies in its own month, inside its own year. */
  lemma DayParts(d: Date)
    requires Valid(d)
    ensures DayNumber(d) == DayFromYear(d.year) + MonthStart(d.month, Leap(d.year)) + d.day - 1
    ensures MonthStart(d.month, Leap(d.year)) + d.day - 1 < MonthStart(d.month + 1, Leap(d.year)) <= YearLength(d.year)
    ensures MonthStart(d.month, Leap(d.year)) >= 0
  {
    assert d.month / 12 == 0 && d.month % 12 == d.month;
  }

  /** The date of a day number as the standard computes it: year first, then month, then day. */
  function ComputeDate(t: int): (d: Date)
    ensures Valid(d) && DayNumber(d) == t
  {
    var y := YearFromDay(t);
    YearOfDay(t);
    YearStep(y);
    var start := DayFromYear(y);
    var m := MonthFromYearDay(t - start, Leap(y));
    var d := Date(y, m, t - start - MonthStart(m, Leap(y)) + 1);
    DayParts(d);
    d
  }

  lemma MonthsAscend(m: int, n: int, leap: bool)
    requires 0 <= m < 12 && 0 <= n < 12
    ensures m < n ==> MonthStart(m + 1, leap) <= MonthStart(n, leap)
  {
  }

  predicate Before(a: Date, b: Date) {
    a.year < b.year || (a.year == b.year && (a.month < b.month || (a.month == b.month && a.day < b.day)))
  }

  lemma EarlierDateEarlierDay(a: Date, b: Date)
    requires Valid(a) && Valid(b) && Before(a, b)
    ensures DayNumber(a) < DayNumber(b)
  {
    DayParts(a);
    DayParts(b);
    if a.year < b.year { YearsAscend(a.year, b.year); }
    else { MonthsAscend(a.month, b.month, Leap(a.year)); }
  }

  /** Day numbers order dates as year, then month, then day do. */
  lemma DaysFollowCalendar(a: Date, b: Date)
    requires Valid(a) && Valid(b)
    ensures DayNumber(a) < DayNumber(b) <==> Before(a, b)
    ensures DayNumber(a) == DayNumber(b) <==> a == b
  {
    if Before(a, b) { EarlierDateEarlierDay(a, b); }
    if Before(b, a) { EarlierDateEarlierDay(b, a); }
  }

  /** The date of a day number, by its meaning: the valid date with that number. */
  ghost function FromDay(t: int): (d: Date)
    ensures Valid(d) && DayNumber(d) == t
  {
    assert Valid(ComputeDate(t)) && DayNumber(ComputeDate(t)) == t;
    var d :| Valid(d) && DayNumber(d) == t;
    d
  }

  /** There is only one such date, so numbering and dating are inverse both ways, for every year. */
  lemma FromDayOfDay(d: Date)
    requires Valid(d)
    ensures FromDay(DayNumber(d)) == d
  {
    DaysFollowCalendar(FromDay(DayNumber(d)), d);
  }

  /** The computation finds it. */
  lemma ComputedDate(t: int)
    ensures ComputeDate(t) == FromDay(t)
  {
    FromDayOfDay(ComputeDate(t));
  }

  // ---------------------------------------------------------------- YYYY-MM-DD strings

  predicate IsDigit(c: char) {
    '0' <= c <= '9'
  }

  function Digit(n: int): char
    requires 0 <= n < 10
  {
    ('0' as int + n) as char
  }

  function DigitValue(c: char): int
    requires IsDigit(c)
  {
    c as int - '0' as int
  }

  function Pad2(n: int): string
    requires 0 <= n < 100
  {
    [Digit(n / 10), Digit(n % 10)]
  }

  function Pad4(n: int): string
    requires 0 <= n < 10_000
  {
    Pad2(n / 100) + Pad2(n % 100)
  }

  predicate FourDigitYear(d: Date) {
    0 <= d.year <= 9999
  }

  function FormatParts(y: int, m: int, d: int): string
    requires 0 <= y < 10_000 && 0 <= m < 100 && 0 <= d < 100
  {
    Pad4(y) + ("-" + (Pad2(m) + ("-" + Pad2(d))))
  }

  /** toISOString().slice(0, 10) of a date in a four-digit year. */
  function Format(d: Date): string
    requires Valid(d) && FourDigitYear(d)
  {
    MonthFits(d);
    FormatParts(d.year, d.month + 1, d.day)
  }

  predicate TwoDigits(s: string) {
    |s| == 2 && IsDigit(s[0]) && IsDigit(s[1])
  }

  function Value2(s: string): int
    requires TwoDigits(s)
  {
    10 * DigitValue(s[0]) + DigitValue(s[1])
  }

  predicate HasShape(s: string) {
    |s| == 10 && s[4] == '-' && s[7] == '-'
    && TwoDigits(s[0..2]) && TwoDigits(s[2..4]) && TwoDigits(s[5..7]) && TwoDigits(s[8..10])
  }

  function YearOf(s: string): int
    requires HasShape(s)
  {
    100 * Value2(s[0..2]) + Value2(s[2..4])
  }

  function Read(s: string): Date
    requires HasShape(s)
  {
    Date(YearOf(s), Value2(s[5..7]) - 1, Value2(s[8..10]))
  }

  /** A string that names a day of the calendar. */
  predicate IsIso(s: string) {
    HasShape(s) && Valid(Read(s))
  }

  lemma Value2OfPad2(n: int)
    requires 0 <= n < 100
    ensures TwoDigits(Pad2(n)) && Value2(Pad2(n)) == n
  {
  }

  lemma Pad2OfValue2(s: string)
    requires TwoDigits(s)
    ensures 0 <= Value2(s) < 100 && Pad2(Value2(s)) == s
  {
  }

  lemma PartsOfFormat(y: int, m: int, d: int)
    requires 0 <= y < 10_000 && 0 <= m < 100 && 0 <= d < 100
    ensures var s := FormatParts(y, m, d);
            HasShape(s) && YearOf(s) == y && Value2(s[5..7]) == m && Value2(s[8..10]) == d
  {
    var s := FormatParts(y, m, d);
    assert s[0..2] == Pad2(y / 100) && s[2..4] == Pad2(y % 100) && s[5..7] == Pad2(m) && s[8..10] == Pad2(d);
    Value2OfPad2(y / 100);
    Value2OfPad2(y % 100);
    Value2OfPad2(m);
    Value2OfPad2(d);
  }

  lemma FormatOfParts(s: string)
    requires HasShape(s)
    ensures 0 <= YearOf(s) < 10_000 && 0 <= Value2(s[5..7]) < 100 && 0 <= Value2(s[8..10]) < 100
    ensures FormatParts(YearOf(s), Value2(s[5..7]), Value2(s[8..10])) == s
  {
    var hi, lo := Value2(s[0..2]), Value2(s[2..4]);
    Pad2OfValue2(s[0..2]);
    Pad2OfValue2(s[2..4]);
    Pad2OfValue2(s[5..7]);
    Pad2OfValue2(s[8..10]);
    assert YearOf(s) / 100 == hi && YearOf(s) % 100 == lo;
    assert s == s[0..2] + s[2..4] + ("-" + (s[5..7] + ("-" + s[8..10])));
  }

  lemma MonthFits(d: Date)
    requires Valid(d)
    ensures 0 <= d.day <= 31
  {
  }

  /** Printing and reading a date are inverse on valid dates and on ISO strings. */
  lemma ReadOfFormat(d: Date)
    requires Valid(d) && FourDigitYear(d)
    ensures IsIso(Format(d)) && Read(Format(d)) == d
  {
    MonthFits(d);
    PartsOfFormat(d.year, d.month + 1, d.day);
  }

  lemma FormatOfRead(s: string)
    requires IsIso(s)
    ensures FourDigitYear(Read(s)) && Format(Read(s)) == s
  {
    MonthFits(Read(s));
    FormatOfParts(s);
  }

  // ---------------------------------------------------------------- the helpers

  /** setUTCDate(getUTCDate() + n) on a date. */
  ghost function ShiftDays(d: Date, n: int): (r: Date)
    ensures Valid(r)
  {
    FromDay(MakeDay(d.year, d.month, d.day + n))
  }

  /** setUTCMonth(getUTCMonth() + n) on a date: the day of the month is kept and may overflow. */
  ghost function ShiftMonths(d: Date, n: int): (r: Date)
    ensures Valid(r)
  {
    FromDay(MakeDay(d.year, d.month + n, d.day))
  }

  lemma Midnight(day: int, ms: int)
    requires 0 <= ms < MS_PER_DAY
    ensures (MS_PER_DAY * day + ms) / MS_PER_DAY == day && (MS_PER_DAY * day + ms) % MS_PER_DAY == ms
  {
  }

  /** The mutable Date: a time value in milliseconds. */
  class UtcDate {
    var time: int

    constructor (iso: string)
      requires IsIso(iso)
      ensures Fields() == Read(iso) && time % MS_PER_DAY == 0
    {
      time := MS_PER_DAY * DayNumber(Read(iso));
      new;
      Midnight(DayNumber(Read(iso)), 0);
      FromDayOfDay(Read(iso));
    }

    function Fields(): (d: Date)
      reads this
      ensures d == FromDay(time / MS_PER_DAY)
    {
      ComputedDate(time / MS_PER_DAY);
      ComputeDate(time / MS_PER_DAY)
    }

    /** Replaces the day and keeps the time of day. */
    method SetDay(day: int)
      modifies this
      ensures Fields() == FromDay(day) && time % MS_PER_DAY == old(time) % MS_PER_DAY
    {
      Midnight(day, time % MS_PER_DAY);
      time := MS_PER_DAY * day + time % MS_PER_DAY;
    }

    method SetUTCDate(dt: int)
      modifies this
      ensures Fields() == FromDay(MakeDay(old(Fields()).year, old(Fields()).month, dt))
      ensures time % MS_PER_DAY == old(time) % MS_PER_DAY
    {
      var d := Fields();
      SetDay(MakeDay(d.year, d.month, dt));
    }

    method SetUTCMonth(month: int)
      modifies this
      ensures Fields() == FromDay(MakeDay(old(Fields()).year, month, old(Fields()).day))
      ensures time % MS_PER_DAY == old(time) % MS_PER_DAY
    {
      var d := Fields();
      SetDay(MakeDay(d.year, month, d.day));
    }
  }

  method AddDays(iso: string, n: int) returns (r: string)
    requires IsIso(iso) && FourDigitYear(ShiftDays(Read(iso), n))
    ensures r == DaysLater(iso, n)
  {
    hide DayFromYear, MonthStart, Leap, FromDay, MakeDay;
    var d := new UtcDate(iso);
    d.SetUTCDate(d.Fields().day + n);
    var later := d.Fields();
    r := Format(later);
  }

  method AddMonths(iso: string, n: int) returns (r: string)
    requires IsIso(iso) && FourDigitYear(ShiftMonths(Read(iso), n))
    ensures r == MonthsLater(iso, n)
  {
    hide DayFromYear, MonthStart, Leap, FromDay, MakeDay;
    var d := new UtcDate(iso);
    d.SetUTCMonth(d.Fields().month + n);
    var later := d.Fields();
    r := Format(later);
  }

  ghost function DaysLater(iso: string, n: int): string
    requires IsIso(iso) && FourDigitYear(ShiftDays(Read(iso), n))
  {
    Format(ShiftDays(Read(iso), n))
  }

  ghost function MonthsLater(iso: string, n: int): string
    requires IsIso(iso) && FourDigitYear(ShiftMonths(Read(iso), n))
  {
    Format(ShiftMonths(Read(iso), n))
  }

  /** Math.round, which rounds halves up. */
  function Round(x: real): int {
    (x + 0.5).Floor
  }

  function DaysBetween(from: string, to: string): int
    requires IsIso(from) && IsIso(to)
  {
    var a, b := MS_PER_DAY * DayNumber(Read(from)), MS_PER_DAY * DayNumber(Read(to));
    Round((b - a) as real / MS_PER_DAY as real)
  }

  /** The rounding never rounds: both instants are midnights. */
  lemma DaysBetweenIsDifference(from: string, to: string)
    requires IsIso(from) && IsIso(to)
    ensures DaysBetween(from, to) == DayNumber(Read(to)) - DayNumber(Read(from))
  {
  }

  lemma ShiftedDay(d: Date, n: int)
    ensures DayNumber(ShiftDays(d, n)) == DayNumber(d) + n
  {
  }

  /** Adding n days moves n days away. */
  lemma DaysBetweenInverts(iso: string, n: int)
    requires IsIso(iso) && FourDigitYear(ShiftDays(Read(iso), n))
    ensures IsIso(DaysLater(iso, n)) && DaysBetween(iso, DaysLater(iso, n)) == n
  {
    var d := ShiftDays(Read(iso), n);
    ReadOfFormat(d);
    ShiftedDay(Read(iso), n);
    DaysBetweenIsDifference(iso, DaysLater(iso, n));
  }

  /** Adding the distance to a day arrives at that day. */
  lemma DaysLaterInverts(a: string, b: string)
    requires IsIso(a) && IsIso(b)
    ensures FourDigitYear(ShiftDays(Read(a), DaysBetween(a, b))) && DaysLater(a, DaysBetween(a, b)) == b
  {
    DaysBetweenIsDifference(a, b);
    ShiftedDay(Read(a), DaysBetween(a, b));
    DaysFollowCalendar(ShiftDays(Read(a), DaysBetween(a, b)), Read(b));
    FormatOfRead(b);
  }

  lemma SameDay(a: Date, b: Date)
    requires Valid(a) && Valid(b) && DayNumber(a) == DayNumber(b)
    ensures a == b
  {
    DaysFollowCalendar(a, b);
  }

  lemma ShiftsCompose(d: Date, m: int, n: int)
    ensures ShiftDays(ShiftDays(d, m), n) == ShiftDays(d, m + n)
  {
    var e := ShiftDays(d, m);
    ShiftedDay(d, m);
    ShiftedDay(e, n);
    ShiftedDay(d, m + n);
    SameDay(ShiftDays(e, n), ShiftDays(d, m + n));
  }

  lemma ReadDaysLater(iso: string, n: int)
    requires IsIso(iso) && FourDigitYear(ShiftDays(Read(iso), n))
    ensures IsIso(DaysLater(iso, n)) && Read(DaysLater(iso, n)) == ShiftDays(Read(iso), n)
  {
    ReadOfFormat(ShiftDays(Read(iso), n));
  }

  /** n days after one ISO date comes another, in a four-digit year. */
  ghost predicate Steps(iso: string, n: int, r: string) {
    IsIso(iso) && FourDigitYear(ShiftDays(Read(iso), n)) && r == DaysLater(iso, n)
  }

  /** Day steps compose additively. */
  lemma DaysCompose(iso: string, mid: string, r: string, m: int, n: int)
    requires Steps(iso, m, mid) && Steps(mid, n, r)
    ensures Steps(iso, m + n, r)
  {
    hide DayNumber, MakeDay, FromDay, ShiftDays, Valid, HasShape, YearOf, Value2, Format;
    ReadDaysLater(iso, m);
    ShiftsCompose(Read(iso), m, n);
  }

  lemma {:induction false} LessByParts(p: string, q: string, x: string, y: string)
    requires |p| == |q|
    ensures Less(p + x, q + y) <==> Less(p, q) || (p == q && Less(x, y))
  {
    if p == [] {
      assert p + x == x && q + y == y;
    } else {
      assert (p + x)[1..] == p[1..] + x && (q + y)[1..] == q[1..] + y;
      LessByParts(p[1..], q[1..], x, y);
      assert p == [p[0]] + p[1..] && q == [q[0]] + q[1..];
    }
  }

  lemma LessTwo(a: char, b: char, c: char, d: char)
    ensures Less([a, b], [c, d]) <==> a < c || (a == c && b < d)
  {
    assert [a, b][1..] == [b] && [c, d][1..] == [d];
    assert Less([b], [d]) <==> b < d;
  }

  lemma LessPad2(m: int, n: int)
    requires 0 <= m < 100 && 0 <= n < 100
    ensures Less(Pad2(m), Pad2(n)) <==> m < n
    ensures Pad2(m) == Pad2(n) <==> m == n
  {
    LessTwo(Digit(m / 10), Digit(m % 10), Digit(n / 10), Digit(n % 10));
    Value2OfPad2(m);
    Value2OfPad2(n);
  }

  lemma LessPad4(m: int, n: int)
    requires 0 <= m < 10_000 && 0 <= n < 10_000
    ensures Less(Pad4(m), Pad4(n)) <==> m < n
    ensures Pad4(m) == Pad4(n) <==> m == n
  {
    LessByParts(Pad2(m / 100), Pad2(n / 100), Pad2(m % 100), Pad2(n % 100));
    LessPad2(m / 100, n / 100);
    LessPad2(m % 100, n % 100);
    if Pad4(m) == Pad4(n) {
      assert Pad4(m)[..2] == Pad2(m / 100) && Pad4(n)[..2] == Pad2(n / 100);
      assert Pad4(m)[2..] == Pad2(m % 100) && Pad4(n)[2..] == Pad2(n % 100);
    }
  }

  lemma LessParts(y: int, m: int, d: int, y': int, m': int, d': int)
    requires 0 <= y < 10_000 && 0 <= m < 100 && 0 <= d < 100
    requires 0 <= y' < 10_000 && 0 <= m' < 100 && 0 <= d' < 100
    ensures Less(FormatParts(y, m, d), FormatParts(y', m', d'))
            <==> y < y' || (y == y' && (m < m' || (m == m' && d < d')))
  {
    var rest, rest' := "-" + Pad2(d), "-" + Pad2(d');
    LessByParts(Pad4(y), Pad4(y'), "-" + (Pad2(m) + rest), "-" + (Pad2(m') + rest'));
    LessByParts("-", "-", Pad2(m) + rest, Pad2(m') + rest');
    LessByParts(Pad2(m), Pad2(m'), rest, rest');
    LessByParts("-", "-", Pad2(d), Pad2(d'));
    LessIrreflexive("-");
    LessPad4(y, y');
    LessPad2(m, m');
    LessPad2(d, d');
  }

  /** The strings sort as the days they name. */
  lemma StringOrderIsDayOrder(a: string, b: string)
    requires IsIso(a) && IsIso(b)
    ensures Less(a, b) <==> DaysBetween(a, b) > 0
    ensures a == b <==> DaysBetween(a, b) == 0
  {
    FormatOfRead(a);
    FormatOfRead(b);
    MonthFits(Read(a));
    MonthFits(Read(b));
    LessParts(Read(a).year, Read(a).month + 1, Read(a).day, Read(b).year, Read(b).month + 1, Read(b).day);
    DaysFollowCalendar(Read(a), Read(b));
    DaysBetweenIsDifference(a, b);
  }

  // ---------------------------------------------------------------- month steps

  /** The month n months after a date's, counted from 0 in its year. */
  function TargetYear(d: Date, n: int): int {
    d.year + (d.month + n) / 12
  }

  function TargetMonth(d: Date, n: int): (m: int)
    ensures 0 <= m < 12
  {
    (d.month + n) % 12
  }

  /** The day a month step lands on, counted from the start of the target month. */
  lemma TargetDay(d: Date, n: int)
    ensures MakeDay(d.year, d.month + n, d.day)
            == DayFromYear(TargetYear(d, n)) + MonthStart(TargetMonth(d, n), Leap(TargetYear(d, n))) + d.day - 1
  {
  }

  /** A month step is the first of the target month, moved on by the day less one. */
  lemma MonthsAreFirstPlusDays(d: Date, n: int)
    requires Valid(d)
    ensures var first := Date(TargetYear(d, n), TargetMonth(d, n), 1);
            Valid(first) && ShiftMonths(d, n) == ShiftDays(first, d.day - 1)
  {
    hide DayFromYear, Leap, FromDay;
    var first := Date(TargetYear(d, n), TargetMonth(d, n), 1);
    TargetDay(d, n);
    DayParts(first);
    ShiftedDay(first, d.day - 1);
    SameDay(ShiftMonths(d, n), ShiftDays(first, d.day - 1));
  }

  /** When the day exists in the target month, the step lands on it. */
  lemma MonthsKeepDay(d: Date, n: int)
    requires 1 <= d.day <= DaysInMonth(TargetYear(d, n), TargetMonth(d, n))
    ensures ShiftMonths(d, n) == Date(TargetYear(d, n), TargetMonth(d, n), d.day)
  {
    hide DayNumber, DayFromYear, MonthStart, Leap, FromDay, MakeDay;
    var e := Date(TargetYear(d, n), TargetMonth(d, n), d.day);
    TargetDay(d, n);
    DayParts(e);
    SameDay(ShiftMonths(d, n), e);
  }

  lemma NextMonthStart(y: int, m: int, n: int)
    requires 0 <= m < 12 && n == 12 * y + m
    ensures (n + 1) / 12 == (if m < 11 then y else y + 1) && (n + 1) % 12 == (if m < 11 then m + 1 else 0)
    ensures DayFromYear((n + 1) / 12) + MonthStart((n + 1) % 12, Leap((n + 1) / 12))
            == DayFromYear(y) + MonthStart(m, Leap(y)) + DaysInMonth(y, m)
  {
    YearStep(y);
  }

  /** When it does not, the step spills into the first days of the following month. */
  lemma MonthsSpill(d: Date, n: int)
    requires Valid(d) && d.day > DaysInMonth(TargetYear(d, n), TargetMonth(d, n))
    ensures ShiftMonths(d, n) == SpilledInto(d, n)
    ensures 1 <= SpilledInto(d, n).day <= 3
  {
    hide DayNumber, DayFromYear, MonthStart, Leap, FromDay, MakeDay, DaysInMonth;
    var y, m := TargetYear(d, n), TargetMonth(d, n);
    var e := SpilledInto(d, n);
    MonthHas28Days(d.year, d.month);
    MonthHas28Days(y, m);
    MonthHas28Days(e.year, e.month);
    NextMonthStart(y, m, 12 * d.year + d.month + n);
    TargetDay(d, n);
    DayParts(e);
    SameDay(ShiftMonths(d, n), e);
  }

  function SpilledInto(d: Date, n: int): Date {
    Date(TargetYear(d, n + 1), TargetMonth(d, n + 1), d.day - DaysInMonth(TargetYear(d, n), TargetMonth(d, n)))
  }

  lemma MonthHas28Days(y: int, m: int)
    requires 0 <= m < 12
    ensures 28 <= DaysInMonth(y, m) <= 31
  {
  }

  /** Going n months forward and n back returns the date exactly when its day fits the target month. */
  lemma MonthsReturnIffDayFits(d: Date, n: int)
    requires Valid(d)
    ensures ShiftMonths(ShiftMonths(d, n), -n) == d
            <==> d.day <= DaysInMonth(TargetYear(d, n), TargetMonth(d, n))
  {
    hide DayFromYear, FromDay, MakeDay, MonthStart, DaysInMonth, ShiftMonths;
    if d.day <= DaysInMonth(TargetYear(d, n), TargetMonth(d, n)) {
      MonthsKeepDay(d, n);
      BackAgain(d, n, 0);
      MonthsKeepDay(ShiftMonths(d, n), -n);
    } else {
      MonthsSpill(d, n);
      BackAgain(d, n, 1);
      var e := SpilledInto(d, n);
      MonthHas28Days(TargetYear(e, -n), TargetMonth(e, -n));
      MonthsKeepDay(e, -n);
    }
  }

  /** Month arithmetic undone: k months past the target and n back is k months past the start. */
  lemma BackAgain(d: Date, n: int, k: int)
    requires 0 <= d.month < 12
    ensures var e := Date(TargetYear(d, n + k), TargetMonth(d, n + k), d.day);
            TargetYear(e, -n) == d.year + (d.month + k) / 12 && TargetMonth(e, -n) == (d.month + k) % 12
  {
  }

  /** For days up to the 28th month steps compose additively. */
  lemma MonthsCompose(d: Date, m: int, n: int)
    requires Valid(d) && d.day <= 28
    ensures ShiftMonths(ShiftMonths(d, m), n) == ShiftMonths(d, m + n)
  {
    hide DayFromYear, Leap, FromDay, MakeDay;
    MonthsKeepDay(d, m);
    MonthsKeepDay(Date(TargetYear(d, m), TargetMonth(d, m), d.day), n);
    MonthsKeepDay(d, m + n);
    MonthsAdd(d, m, n);
  }

  lemma MonthsAdd(d: Date, m: int, n: int)
    ensures var e := Date(TargetYear(d, m), TargetMonth(d, m), d.day);
            TargetYear(e, n) == TargetYear(d, m + n) && TargetMonth(e, n) == TargetMonth(d, m + n)
  {
  }

  // ---------------------------------------------------------------- the calendar itself

  /** A leap year: every fourth, of the hundreds every fourth. */
  predicate HasLeapDay(y: int) {
    if y % 100 == 0 then y % 400 == 0 else y % 4 == 0
  }

  /** April, June, September and November have 30 days, February 28 or 29, the others 31. */
  function MonthLength(y: int, month: int): int
    requires 1 <= month <= 12
  {
    if month == 4 || month == 6 || month == 9 || month == 11 then 30
    else if month == 2 then (if HasLeapDay(y) then 29 else 28)
    else 31
  }

  /** The calendar the helpers compute with is this one, from the first of January 1970 as day 0. */
  lemma MonthsAsEverywhere(y: int, month: int)
    requires 1 <= month <= 12
    ensures DaysInMonth(y, month - 1) == MonthLength(y, month)
    ensures DayNumber(Date(1970, 0, 1)) == 0
  {
    MultipleOf(y);
  }

  function CharValue(c: char): int {
    c as int - 48
  }

  predicate IsDecimalDigit(c: char) {
    0 <= CharValue(c) <= 9
  }

  /** The text of a day: four digits of the year, two of the month, two of the day, with hyphens between. */
  predicate Tells(s: string, y: int, month: int, day: int) {
    && |s| == 10 && s[4] == '-' && s[7] == '-'
    && (forall k :: 0 <= k < 10 && k != 4 && k != 7 ==> IsDecimalDigit(s[k]))
    && y == 1000 * CharValue(s[0]) + 100 * CharValue(s[1]) + 10 * CharValue(s[2]) + CharValue(s[3])
    && month == 10 * CharValue(s[5]) + CharValue(s[6])
    && day == 10 * CharValue(s[8]) + CharValue(s[9])
  }

  predicate IsDay(y: int, month: int, day: int) {
    1 <= month <= 12 && 1 <= day <= MonthLength(y, month)
  }

  lemma TellsRead(s: string, y: int, month: int, day: int)
    requires Tells(s, y, month, day)
    ensures HasShape(s) && Read(s) == Date(y, month - 1, day) && 0 <= y <= 9999
  {
    assert s[0..2][0] == s[0] && s[0..2][1] == s[1] && s[2..4][0] == s[2] && s[2..4][1] == s[3];
    assert s[5..7][0] == s[5] && s[5..7][1] == s[6] && s[8..10][0] == s[8] && s[8..10][1] == s[9];
  }

  lemma ReadTells(s: string)
    requires HasShape(s)
    ensures Tells(s, Read(s).year, Read(s).month + 1, Read(s).day)
  {
    assert s[0..2][0] == s[0] && s[0..2][1] == s[1] && s[2..4][0] == s[2] && s[2..4][1] == s[3];
    assert s[5..7][0] == s[5] && s[5..7][1] == s[6] && s[8..10][0] == s[8] && s[8..10][1] == s[9];
  }

  /** The strings the helpers take are exactly those that tell a day of the calendar. */
  lemma IsoExactly(s: string, y: int, month: int, day: int)
    requires Tells(s, y, month, day)
    ensures IsIso(s) <==> IsDay(y, month, day)
  {
    TellsRead(s, y, month, day);
    if 1 <= month <= 12 { MonthsAsEverywhere(y, month); }
    hide MonthStart, MonthLength;
  }

  /** A string that the helpers give tells the date they found. */
  lemma FormatTells(d: Date)
    requires Valid(d) && FourDigitYear(d)
    ensures Tells(Format(d), d.year, d.month + 1, d.day)
  {
    ReadOfFormat(d);
    ReadTells(Format(d));
    hide Format, Valid, Tells, HasShape, YearOf, Value2;
  }

  /**
   * One day later, in the strings: the next day of the month, or the first of the next month from its
   * last day, or the first of January from the last of December.
   */
  lemma TheNextDay(iso: string, y: int, month: int, day: int)
    requires Tells(iso, y, month, day) && IsDay(y, month, day)
    ensures IsIso(iso)
    ensures FourDigitYear(ShiftDays(Read(iso), 1)) <==> !(y == 9999 && month == 12 && day == 31)
    ensures FourDigitYear(ShiftDays(Read(iso), 1)) ==>
              var next := DaysLater(iso, 1);
              if day < MonthLength(y, month) then Tells(next, y, month, day + 1)
              else if month < 12 then Tells(next, y, month + 1, 1)
              else Tells(next, y + 1, 1, 1)
  {
    hide MonthLength, Tells, MakeDay, FromDay, ShiftDays;
    var e := NextDate(iso, y, month, day);
    if FourDigitYear(e) { FormatTells(e); }
  }

  lemma NextDate(iso: string, y: int, month: int, day: int) returns (e: Date)
    requires Tells(iso, y, month, day) && IsDay(y, month, day)
    ensures IsIso(iso) && Valid(e) && ShiftDays(Read(iso), 1) == e
    ensures FourDigitYear(e) <==> !(y == 9999 && month == 12 && day == 31)
    ensures e == if day < MonthLength(y, month) then Date(y, month - 1, day + 1)
                 else if month < 12 then Date(y, month, 1) else Date(y + 1, 0, 1)
  {
    TellsRead(iso, y, month, day);
    IsoExactly(iso, y, month, day);
    MonthsAsEverywhere(y, month);
    e := if day < MonthLength(y, month) then Date(y, month - 1, day + 1)
         else if month < 12 then Date(y, month, 1) else Date(y + 1, 0, 1);
    DayAfter(Read(iso), e);
  }

  lemma DayAfter(d: Date, e: Date)
    requires Valid(d)
    requires e == if d.day < DaysInMonth(d.year, d.month) then Date(d.year, d.month, d.day + 1)
                  else if d.month < 11 then Date(d.year, d.month + 1, 1) else Date(d.year + 1, 0, 1)
    ensures Valid(e) && ShiftDays(d, 1) == e
  {
    hide DayFromYear, Leap, FromDay;
    MonthHas28Days(e.year, e.month);
    DayParts(d);
    DayParts(e);
    YearStep(d.year);
    YearEnds(d.year);
    ShiftedDay(d, 1);
    SameDay(ShiftDays(d, 1), e);
  }

  lemma YearEnds(y: int)
    ensures MonthStart(12, Leap(y)) == YearLength(y) && forall leap :: MonthStart(0, leap) == 0
  {
  }

  lemma TargetCounts(d: Date, n: int)
    ensures 12 * TargetYear(d, n) + TargetMonth(d, n) == 12 * d.year + d.month + n
    ensures TargetYear(d, n + 1) == (if TargetMonth(d, n) < 11 then TargetYear(d, n) else TargetYear(d, n) + 1)
    ensures TargetMonth(d, n + 1) == (if TargetMonth(d, n) < 11 then TargetMonth(d, n) + 1 else 0)
  {
  }

  /**
   * n months later, in the strings, counting months through the years: the same day of the month n
   * further on, or as many days into the one after it as that month is too short.
   */
  lemma MonthsOn(iso: string, y: int, month: int, day: int, n: int) returns (y': int, month': int)
    requires Tells(iso, y, month, day) && IsDay(y, month, day)
    ensures IsIso(iso)
    ensures 1 <= month' <= 12 && 12 * y' + month' == 12 * y + month + n
    ensures FourDigitYear(ShiftMonths(Read(iso), n)) ==>
              if day <= MonthLength(y', month') then Tells(MonthsLater(iso, n), y', month', day)
              else if month' < 12 then Tells(MonthsLater(iso, n), y', month' + 1, day - MonthLength(y', month'))
              else Tells(MonthsLater(iso, n), y' + 1, 1, day - MonthLength(y', month'))
  {
    hide MonthLength, Tells, HasShape, YearOf, Value2, DaysInMonth, ShiftMonths, TargetYear, TargetMonth, Format;
    hide MakeDay, MonthStart, FromDay, DayFromYear, Leap, DayNumber, Valid, HasLeapDay;
    TellsRead(iso, y, month, day);
    IsoExactly(iso, y, month, day);
    var d := Read(iso);
    y', month' := TargetYear(d, n), TargetMonth(d, n) + 1;
    TargetCounts(d, n);
    MonthsAsEverywhere(y', month');
    MonthsLand(d, n);
    if FourDigitYear(ShiftMonths(d, n)) { FormatTells(ShiftMonths(d, n)); }
  }

  lemma MonthsLand(d: Date, n: int)
    requires Valid(d)
    ensures var y, m := TargetYear(d, n), TargetMonth(d, n);
            ShiftMonths(d, n) == if d.day <= DaysInMonth(y, m) then Date(y, m, d.day)
                                 else Date(TargetYear(d, n + 1), TargetMonth(d, n + 1), d.day - DaysInMonth(y, m))
  {
    hide ShiftMonths, DaysInMonth;
    MonthHas28Days(d.year, d.month);
    if d.day <= DaysInMonth(TargetYear(d, n), TargetMonth(d, n)) { MonthsKeepDay(d, n); } else { MonthsSpill(d, n); }
  }
}
