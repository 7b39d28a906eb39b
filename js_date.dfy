/** The part of JavaScript's `Date` the components use, in one time zone
    (UTC): a date is a civil date and time of day, or the invalid date;
    `setDate` and `setMonth` re-normalise an out-of-range day or month the
    way the ECMAScript `MakeDay` operation does; `toISOString` renders the
    24-character (or, outside years 0..9999, 27-character) ISO text. */
module JsDate {
  import opened Wrappers

  const MsPerDay: int := 86400000
  /** Largest absolute time value (ms from 1970-01-01) a `Date` may hold. */
  const MaxTimeValue: int := 8640000000000000

  predicate IsLeapYear(y: int) {
    (y % 4 == 0 && y % 100 != 0) || y % 400 == 0
  }

  function DaysInYear(y: int): int {
    if IsLeapYear(y) then 366 else 365
  }

  /** Days in month `m` (0 = January, as `getMonth` counts). */
  function DaysInMonth(y: int, m: int): (n: int)
    requires 0 <= m < 12
    ensures 28 <= n <= 31
  {
    if m == 1 then (if IsLeapYear(y) then 29 else 28)
    else if m == 3 || m == 5 || m == 8 || m == 10 then 30
    else 31
  }

  /** Days in the months before month `m` of year `y`. */
  function DaysBeforeMonth(y: int, m: int): int
    requires 0 <= m <= 12
  {
    if m == 0 then 0 else DaysBeforeMonth(y, m - 1) + DaysInMonth(y, m - 1)
  }

  /** Day number of January 1st of year `y`, counted from 1970-01-01. */
  function DayFromYear(y: int): int
    decreases if y >= 1970 then y - 1970 else 1970 - y
  {
    if y == 1970 then 0
    else if y > 1970 then DayFromYear(y - 1) + DaysInYear(y - 1)
    else DayFromYear(y + 1) - DaysInYear(y)
  }

  /** Day number of the civil date (y, m, d); `d` may lie outside the month. */
  function DayNumber(y: int, m: int, d: int): int
    requires 0 <= m < 12
  {
    DayFromYear(y) + DaysBeforeMonth(y, m) + d - 1
  }

  /** A civil date and time: month 0..11, day of month from 1, ms into the day. */
  datatype DateTime = DateTime(year: int, month: int, day: int, msOfDay: int)
  {
    predicate Valid() {
      0 <= month < 12 && 1 <= day <= DaysInMonth(year, month) && 0 <= msOfDay < MsPerDay
    }

    /** The ECMAScript time value: milliseconds since 1970-01-01T00:00:00Z. */
    function TimeValue(): int
      requires Valid()
    {
      DayNumber(year, month, day) * MsPerDay + msOfDay
    }
  }

  /** A `Date` object's value: a moment, or the invalid date (time value NaN). */
  datatype Date = Invalid | At(dt: DateTime)

  function NextMonth(y: int, m: int): (r: (int, int))
    requires 0 <= m < 12
    ensures 0 <= r.1 < 12
  {
    if m == 11 then (y + 1, 0) else (y, m + 1)
  }

  function PrevMonth(y: int, m: int): (r: (int, int))
    requires 0 <= m < 12
    ensures 0 <= r.1 < 12
  {
    if m == 0 then (y - 1, 11) else (y, m - 1)
  }

  /** `MakeDay(y, m, d)` as a civil date: day `d` of month `m`, where a day
      before the 1st or past the month's end rolls into the months around. */
  function Normalize(y: int, m: int, d: int, ms: int): (r: DateTime)
    requires 0 <= m < 12
    decreases if d < 1 then 1 - d else 0, if d > DaysInMonth(y, m) then d else 0
  {
    if d < 1 then
      var p := PrevMonth(y, m);
      Normalize(p.0, p.1, d + DaysInMonth(p.0, p.1), ms)
    else if d > DaysInMonth(y, m) then
      var n := NextMonth(y, m);
      Normalize(n.0, n.1, d - DaysInMonth(y, m), ms)
    else
      DateTime(y, m, d, ms)
  }

  lemma DaysBeforeDecember(y: int)
    ensures DaysBeforeMonth(y, 11) + DaysInMonth(y, 11) == DaysInYear(y)
  {
    assert DaysBeforeMonth(y, 1) == 31;
    assert DaysBeforeMonth(y, 2) == 31 + DaysInMonth(y, 1);
    assert DaysBeforeMonth(y, 3) == 62 + DaysInMonth(y, 1);
    assert DaysBeforeMonth(y, 4) == 92 + DaysInMonth(y, 1);
    assert DaysBeforeMonth(y, 5) == 123 + DaysInMonth(y, 1);
    assert DaysBeforeMonth(y, 6) == 153 + DaysInMonth(y, 1);
    assert DaysBeforeMonth(y, 7) == 184 + DaysInMonth(y, 1);
    assert DaysBeforeMonth(y, 8) == 215 + DaysInMonth(y, 1);
    assert DaysBeforeMonth(y, 9) == 245 + DaysInMonth(y, 1);
    assert DaysBeforeMonth(y, 10) == 276 + DaysInMonth(y, 1);
    assert DaysBeforeMonth(y, 11) == 306 + DaysInMonth(y, 1);
  }

  /** The first of the next month is as many days on as the month is long. */
  lemma MonthStep(y: int, m: int)
    requires 0 <= m < 12
    ensures var n := NextMonth(y, m); DayNumber(n.0, n.1, 1) == DayNumber(y, m, 1) + DaysInMonth(y, m)
  {
    if m == 11 {
      DaysBeforeDecember(y);
      assert DayFromYear(y + 1) == DayFromYear(y) + DaysInYear(y);
    }
  }

  /** `MakeDay` lands on a valid date exactly `d - 1` days after the 1st of
      month `m`, whatever `d` is. */
  lemma {:induction false} NormalizeDayNumber(y: int, m: int, d: int, ms: int)
    requires 0 <= m < 12 && 0 <= ms < MsPerDay
    ensures Normalize(y, m, d, ms).Valid()
    ensures Normalize(y, m, d, ms).msOfDay == ms
    ensures var r := Normalize(y, m, d, ms); DayNumber(r.year, r.month, r.day) == DayNumber(y, m, 1) + d - 1
    decreases if d < 1 then 1 - d else 0, if d > DaysInMonth(y, m) then d else 0
  {
    if d < 1 {
      var p := PrevMonth(y, m);
      var d' := d + DaysInMonth(p.0, p.1);
      assert Normalize(y, m, d, ms) == Normalize(p.0, p.1, d', ms);
      NormalizeDayNumber(p.0, p.1, d', ms);
      MonthStep(p.0, p.1);
      assert NextMonth(p.0, p.1) == (y, m);
    } else if d > DaysInMonth(y, m) {
      var n := NextMonth(y, m);
      var d' := d - DaysInMonth(y, m);
      assert Normalize(y, m, d, ms) == Normalize(n.0, n.1, d', ms);
      NormalizeDayNumber(n.0, n.1, d', ms);
      MonthStep(y, m);
    }
  }

  /** `TimeClip`: a time value beyond +-8.64e15 ms makes the date invalid. */
  function Clip(dt: DateTime): (r: Date)
    requires dt.Valid()
    ensures r.At? <==> -MaxTimeValue <= dt.TimeValue() <= MaxTimeValue
    ensures r.At? ==> r.dt == dt
  {
    if -MaxTimeValue <= dt.TimeValue() <= MaxTimeValue then At(dt) else Invalid
  }

  /** `date.setDate(d)`: same year, month and time of day, day `d` re-normalised. */
  function SetDate(date: Date, d: int): (r: Date)
    requires date.At? ==> date.dt.Valid()
    ensures r.At? ==> r.dt.Valid()
  {
    match date
    case Invalid => Invalid
    case At(dt) =>
      NormalizeDayNumber(dt.year, dt.month, d, dt.msOfDay);
      Clip(Normalize(dt.year, dt.month, d, dt.msOfDay))
  }

  /** `date.setMonth(m)`: month `m` counted from January of the date's year
      (so 12 is next January and -1 last December), day and time kept. */
  function SetMonth(date: Date, m: int): (r: Date)
    requires date.At? ==> date.dt.Valid()
    ensures r.At? ==> r.dt.Valid()
  {
    match date
    case Invalid => Invalid
    case At(dt) =>
      NormalizeDayNumber(dt.year + m / 12, m % 12, dt.day, dt.msOfDay);
      Clip(Normalize(dt.year + m / 12, m % 12, dt.day, dt.msOfDay))
  }

  /** `date.setDate(date.getDate() - k)` moves the time value back by exactly
      `k` whole days (or invalidates the date when that leaves the range). */
  lemma ShiftBackDays(dt: DateTime, k: int)
    requires dt.Valid()
    ensures var r := SetDate(At(dt), dt.day - k);
      r.At? <==> -MaxTimeValue <= dt.TimeValue() - k * MsPerDay <= MaxTimeValue
    ensures var r := SetDate(At(dt), dt.day - k);
      r.At? ==> r.dt.TimeValue() == dt.TimeValue() - k * MsPerDay && r.dt.msOfDay == dt.msOfDay
  {
    NormalizeDayNumber(dt.year, dt.month, dt.day - k, dt.msOfDay);
  }

  /** `date.setMonth(date.getMonth() + k)` is day `getDate()` counted from the
      1st of the month `k` months on. */
  lemma ShiftMonths(dt: DateTime, k: int)
    requires dt.Valid()
    ensures var r := SetMonth(At(dt), dt.month + k);
      var y, m := dt.year + (dt.month + k) / 12, (dt.month + k) % 12;
      r.At? ==> r.dt.TimeValue() == (DayNumber(y, m, 1) + dt.day - 1) * MsPerDay + dt.msOfDay
  {
    NormalizeDayNumber(dt.year + (dt.month + k) / 12, (dt.month + k) % 12, dt.day, dt.msOfDay);
  }

  /** ... and it is a valid date exactly when that moment is in range. */
  lemma ShiftMonthsInRange(dt: DateTime, k: int)
    requires dt.Valid()
    ensures var y, m := dt.year + (dt.month + k) / 12, (dt.month + k) % 12;
      var t := (DayNumber(y, m, 1) + dt.day - 1) * MsPerDay + dt.msOfDay;
      SetMonth(At(dt), dt.month + k).At? <==> -MaxTimeValue <= t <= MaxTimeValue
  {
    NormalizeDayNumber(dt.year + (dt.month + k) / 12, (dt.month + k) % 12, dt.day, dt.msOfDay);
  }

  // ---- toISOString ----

  function DigitChar(d: int): (c: char)
    requires 0 <= d < 10
    ensures '0' <= c <= '9'
  {
    ('0' as int + d) as char
  }

  function Pow10(w: nat): (p: nat)
    ensures p >= 1
  {
    if w == 0 then 1 else 10 * Pow10(w - 1)
  }

  /** The last `w` decimal digits of `n`, zero-padded on the left. */
  function Digits(n: nat, w: nat): (s: string)
    ensures |s| == w && forall i :: 0 <= i < w ==> '0' <= s[i] <= '9'
  {
    if w == 0 then "" else Digits(n / 10, w - 1) + [DigitChar(n % 10)]
  }

  predicate AllDigits(s: string) {
    forall i :: 0 <= i < |s| ==> '0' <= s[i] <= '9'
  }

  /** The number a string of decimal digits denotes. */
  function DigitsValue(s: string): nat
    requires AllDigits(s)
  {
    if s == [] then 0 else DigitsValue(s[..|s| - 1]) * 10 + (s[|s| - 1] as int - '0' as int)
  }

  lemma {:induction false} DigitsRoundTrip(n: nat, w: nat)
    requires n < Pow10(w)
    ensures DigitsValue(Digits(n, w)) == n
  {
    if w > 0 {
      DigitsRoundTrip(n / 10, w - 1);
      var s := Digits(n, w);
      assert s[..|s| - 1] == Digits(n / 10, w - 1);
    }
  }

  function YearText(y: int): (s: string)
    ensures 0 <= y <= 9999 ==> |s| == 4
    ensures !(0 <= y <= 9999) ==> |s| == 7
  {
    if 0 <= y <= 9999 then Digits(y, 4)
    else if y < 0 then "-" + Digits(-y, 6)
    else "+" + Digits(y, 6)
  }

  /** `THH:mm:ss.sssZ` for the given fields. */
  function ClockText(h: nat, mi: nat, sc: nat, mm: nat): (s: string)
    ensures |s| == 14
  {
    "T" + Digits(h, 2) + ":" + Digits(mi, 2) + ":" + Digits(sc, 2) + "." + Digits(mm, 3) + "Z"
  }

  /** The time of day in ISO text. */
  function TimeText(ms: int): (s: string)
    requires 0 <= ms < MsPerDay
    ensures |s| == 14
  {
    var secs := ms / 1000;
    var mins := secs / 60;
    ClockText(mins / 60, mins % 60, secs % 60, ms % 1000)
  }

  /** `-MM-DDTHH:mm:ss.sssZ`: what follows the year in ISO text. */
  function TailText(dt: DateTime): (s: string)
    requires dt.Valid()
    ensures |s| == 20
  {
    "-" + Digits(dt.month + 1, 2) + "-" + Digits(dt.day, 2) + TimeText(dt.msOfDay)
  }

  /** `YYYY-MM-DDTHH:mm:ss.sssZ`, with a signed six-digit year outside 0..9999. */
  function IsoText(dt: DateTime): (s: string)
    requires dt.Valid()
    ensures |s| == if 0 <= dt.year <= 9999 then 24 else 27
  {
    YearText(dt.year) + TailText(dt)
  }

  /** `date.toISOString()`: the text, or `None` where it throws a RangeError
      (the invalid date). */
  function ToISOString(date: Date): (r: Option<string>)
    requires date.At? ==> date.dt.Valid()
    ensures r.Some? <==> date.At?
  {
    match date
    case Invalid => None
    case At(dt) => Some(IsoText(dt))
  }

  /** `t` has the shape `THH:mm:ss.sssZ`. */
  predicate IsTimeText(t: string)
    requires |t| == 14
  {
    t[0] == 'T' && t[3] == ':' && t[6] == ':' && t[9] == '.' && t[13] == 'Z'
    && AllDigits(t[1..3]) && AllDigits(t[4..6]) && AllDigits(t[7..9]) && AllDigits(t[10..13])
  }

  /** Reads the time of day back out of `THH:mm:ss.sssZ`. */
  function ParseTime(t: string): Option<int>
    requires |t| == 14
  {
    if IsTimeText(t) then
      Some(((DigitsValue(t[1..3]) * 60 + DigitsValue(t[4..6])) * 60 + DigitsValue(t[7..9])) * 1000
        + DigitsValue(t[10..13]))
    else None
  }

  /** Reads month, day and time of day back out of the text after the year. */
  function ParseTail(t: string): Option<(int, int, int)>
    requires |t| == 20
  {
    if t[0] == '-' && t[3] == '-' && AllDigits(t[1..3]) && AllDigits(t[4..6]) then
      match ParseTime(t[6..])
      case Some(ms) => Some((DigitsValue(t[1..3]) - 1, DigitsValue(t[4..6]), ms))
      case None => None
    else None
  }

  /** Reads the year back out of its four-digit or signed six-digit text. */
  function ParseYear(y: string): Option<int> {
    if |y| == 4 && AllDigits(y) then Some(DigitsValue(y))
    else if |y| == 7 && (y[0] == '+' || y[0] == '-') && AllDigits(y[1..]) then
      var v: int := DigitsValue(y[1..]);
      Some(if y[0] == '-' then -v else v)
    else None
  }

  /** Reads the fields back out of ISO text: the partner of `IsoText`. */
  function ParseIso(s: string): (r: Option<DateTime>)
    ensures r.Some? ==> r.value.Valid()
  {
    if |s| == 24 || |s| == 27 then
      var yearLen := |s| - 20;
      match (ParseYear(s[..yearLen]), ParseTail(s[yearLen..]))
      case (Some(year), Some((month, day, ms))) =>
        var dt := DateTime(year, month, day, ms);
        if dt.Valid() then Some(dt) else None
      case _ => None
    else None
  }

  /** Hours, minutes, seconds and milliseconds put back together give the
      time of day. */
  lemma TimeFields(ms: int)
    requires 0 <= ms < MsPerDay
    ensures var secs := ms / 1000; var mins := secs / 60;
      mins / 60 < 24 && ((mins / 60 * 60 + mins % 60) * 60 + secs % 60) * 1000 + ms % 1000 == ms
  {
    var secs := ms / 1000;
    var mins := secs / 60;
    assert secs * 1000 + ms % 1000 == ms;
    assert mins * 60 + secs % 60 == secs;
    assert mins / 60 * 60 + mins % 60 == mins;
  }

  lemma ClockTextLayout(dh: string, dmi: string, dsc: string, dmm: string)
    requires |dh| == |dmi| == |dsc| == 2 && |dmm| == 3
    ensures var t := "T" + dh + ":" + dmi + ":" + dsc + "." + dmm + "Z";
      |t| == 14 && t[0] == 'T' && t[3] == ':' && t[6] == ':' && t[9] == '.' && t[13] == 'Z' &&
      t[1..3] == dh && t[4..6] == dmi && t[7..9] == dsc && t[10..13] == dmm
  {
  }

  lemma ClockRoundTrip(h: nat, mi: nat, sc: nat, mm: nat)
    requires h < 100 && mi < 100 && sc < 100 && mm < 1000
    ensures ParseTime(ClockText(h, mi, sc, mm)) == Some(((h * 60 + mi) * 60 + sc) * 1000 + mm)
  {
    var dh, dmi, dsc, dmm := Digits(h, 2), Digits(mi, 2), Digits(sc, 2), Digits(mm, 3);
    ClockTextLayout(dh, dmi, dsc, dmm);
    var t := ClockText(h, mi, sc, mm);
    assert t == "T" + dh + ":" + dmi + ":" + dsc + "." + dmm + "Z";
    assert Pow10(2) == 100 && Pow10(3) == 1000;
    DigitsRoundTrip(h, 2);
    DigitsRoundTrip(mi, 2);
    DigitsRoundTrip(sc, 2);
    DigitsRoundTrip(mm, 3);
    ParseTimeOf(t, h, mi, sc, mm);
  }

  /** Time text whose four numbers read as `h`, `mi`, `sc` and `mm` reads as
      that time of day. */
  lemma ParseTimeOf(t: string, h: nat, mi: nat, sc: nat, mm: nat)
    requires |t| == 14 && IsTimeText(t)
    requires DigitsValue(t[1..3]) == h && DigitsValue(t[4..6]) == mi
    requires DigitsValue(t[7..9]) == sc && DigitsValue(t[10..13]) == mm
    ensures ParseTime(t) == Some(((h * 60 + mi) * 60 + sc) * 1000 + mm)
  {
  }

  lemma TimeRoundTrip(ms: int)
    requires 0 <= ms < MsPerDay
    ensures ParseTime(TimeText(ms)) == Some(ms)
  {
    var secs := ms / 1000;
    var mins := secs / 60;
    TimeFields(ms);
    ClockRoundTrip(mins / 60, mins % 60, secs % 60, ms % 1000);
  }

  lemma TailRoundTrip(dt: DateTime)
    requires dt.Valid()
    ensures ParseTail(TailText(dt)) == Some((dt.month, dt.day, dt.msOfDay))
  {
    var dm, dd, tt := Digits(dt.month + 1, 2), Digits(dt.day, 2), TimeText(dt.msOfDay);
    TailTextLayout(dm, dd, tt);
    DigitsRoundTrip(dt.month + 1, 2);
    DigitsRoundTrip(dt.day, 2);
    TimeRoundTrip(dt.msOfDay);
  }

  /** Where the parts of the text after the year sit. */
  lemma TailTextLayout(dm: string, dd: string, tt: string)
    requires |dm| == |dd| == 2 && |tt| == 14
    ensures var t := "-" + dm + "-" + dd + tt;
      |t| == 20 && t[0] == '-' && t[3] == '-' && t[1..3] == dm && t[4..6] == dd && t[6..] == tt
  {
  }

  lemma YearRoundTrip(y: int)
    requires -999999 <= y <= 999999
    ensures ParseYear(YearText(y)) == Some(y)
  {
    var t := YearText(y);
    if 0 <= y <= 9999 {
      DigitsRoundTrip(y, 4);
    } else if y < 0 {
      DigitsRoundTrip(-y, 6);
      assert t[1..] == Digits(-y, 6);
    } else {
      DigitsRoundTrip(y, 6);
      assert t[1..] == Digits(y, 6);
    }
  }

  /** `ParseIso` reads back every date `IsoText` writes (a `Date` always has
      a year of at most six digits). */
  lemma IsoRoundTrip(dt: DateTime)
    requires dt.Valid() && -999999 <= dt.year <= 999999
    ensures ParseIso(IsoText(dt)) == Some(dt)
  {
    var s := IsoText(dt);
    var yearLen := |s| - 20;
    assert s[..yearLen] == YearText(dt.year);
    assert s[yearLen..] == TailText(dt);
    YearRoundTrip(dt.year);
    TailRoundTrip(dt);
  }
}
