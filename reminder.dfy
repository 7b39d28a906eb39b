/** `calculateReminderTime` of src/lib/utils.ts: the moment a reminder fires,
    a fixed offset before the event, as `toISOString` text. */
module Reminder {
  import opened Wrappers
  import opened JsDate

  /** What the helper hands back: `undefined`, ISO text, or the `RangeError`
      that `toISOString` throws on the invalid date. */
  datatype Outcome = Undefined | Text(iso: string) | RangeError

  /** How far back a reminder type reaches. */
  datatype Offset = DaysBack(days: int) | MonthsBack(months: int)

  /** The `switch (type)` cases; any other key takes the `default` branch. */
  function OffsetOf(kind: string): (r: Option<Offset>)
    ensures r.Some? <==> kind in {"3days", "1day", "1week", "1month"}
  {
    if kind == "3days" then Some(DaysBack(3))
    else if kind == "1day" then Some(DaysBack(1))
    else if kind == "1week" then Some(DaysBack(7))
    else if kind == "1month" then Some(MonthsBack(1))
    else None
  }

  /** The `Date` after the mutation: `setDate(getDate() - k)` or
      `setMonth(getMonth() - k)`; on the invalid date the getter gives NaN and
      the setter leaves it invalid. */
  function Shift(date: Date, offset: Offset): (r: Date)
    requires date.At? ==> date.dt.Valid()
    ensures r.At? ==> r.dt.Valid()
    ensures date.Invalid? ==> r.Invalid?
  {
    match date
    case Invalid => Invalid
    case At(dt) =>
      match offset
      case DaysBack(k) => SetDate(date, dt.day - k)
      case MonthsBack(k) => SetMonth(date, dt.month - k)
  }

  /** `calculateReminderTime(eventDate, type)`, where `parsed` is
      `new Date(eventDate)` (string parsing is host-defined and not modelled). */
  function CalculateReminderTime(eventDate: string, kind: string, parsed: Date): (r: Outcome)
    requires parsed.At? ==> parsed.dt.Valid()
    ensures eventDate == "" || kind == "" ==> r == Undefined
    ensures eventDate != "" && kind != "" && OffsetOf(kind).None? ==> r == Undefined
    ensures r.Undefined? ==> eventDate == "" || kind == "" || OffsetOf(kind).None?
    ensures r.Text? ==> exists dt :: Shift(parsed, OffsetOf(kind).value) == At(dt) && r.iso == IsoText(dt)
    ensures r.RangeError? <==>
      eventDate != "" && kind != "" && OffsetOf(kind).Some? && Shift(parsed, OffsetOf(kind).value).Invalid?
  {
    if eventDate == "" || kind == "" then Undefined
    else
      match OffsetOf(kind)
      case None => Undefined
      case Some(offset) =>
        match ToISOString(Shift(parsed, offset))
        case Some(text) => Text(text)
        case None => RangeError
  }

  /** Neither the initial reminder type "WORK" nor the reset value "daily" is
      one of the four keys, so both give `undefined`. */
  lemma FormDefaultsGiveNoReminder(eventDate: string, parsed: Date)
    requires parsed.At? ==> parsed.dt.Valid()
    ensures CalculateReminderTime(eventDate, "WORK", parsed) == Undefined
    ensures CalculateReminderTime(eventDate, "daily", parsed) == Undefined
  {
    assert OffsetOf("WORK").None? && OffsetOf("daily").None?;
  }

  /** "3days", "1day" and "1week" fire exactly 3, 1 and 7 whole days before
      the event, at the same time of day, or throw when that leaves the range
      of `Date`. */
  lemma DaysBeforeEvent(eventDate: string, kind: string, dt: DateTime)
    requires eventDate != "" && dt.Valid()
    requires kind in {"3days", "1day", "1week"}
    ensures var k := if kind == "3days" then 3 else if kind == "1day" then 1 else 7;
      var t := dt.TimeValue() - k * MsPerDay;
      match CalculateReminderTime(eventDate, kind, At(dt))
      case Text(iso) =>
        -MaxTimeValue <= t <= MaxTimeValue &&
        exists r: DateTime :: r.Valid() && r.TimeValue() == t && r.msOfDay == dt.msOfDay && iso == IsoText(r)
      case RangeError => !(-MaxTimeValue <= t <= MaxTimeValue)
      case Undefined => false
  {
    var k := if kind == "3days" then 3 else if kind == "1day" then 1 else 7;
    assert OffsetOf(kind) == Some(DaysBack(k));
    var d := SetDate(At(dt), dt.day - k);
    assert Shift(At(dt), DaysBack(k)) == d;
    ShiftBackDays(dt, k);
    if d.At? {
      assert CalculateReminderTime(eventDate, kind, At(dt)) == Text(IsoText(d.dt));
    } else {
      assert CalculateReminderTime(eventDate, kind, At(dt)) == RangeError;
    }
  }

  /** "1month" fires on the same day of the previous calendar month, where a
      day past that month's end rolls over into the event's month, or throws
      when that moment leaves the range of `Date`. */
  lemma MonthBeforeEvent(eventDate: string, dt: DateTime)
    requires eventDate != "" && dt.Valid()
    ensures var y, m := dt.year + (dt.month - 1) / 12, (dt.month - 1) % 12;
      var t := (DayNumber(y, m, 1) + dt.day - 1) * MsPerDay + dt.msOfDay;
      match CalculateReminderTime(eventDate, "1month", At(dt))
      case Text(iso) =>
        -MaxTimeValue <= t <= MaxTimeValue &&
        exists r: DateTime :: r.Valid() && r.TimeValue() == t && iso == IsoText(r)
      case RangeError => !(-MaxTimeValue <= t <= MaxTimeValue)
      case Undefined => false
  {
    assert OffsetOf("1month") == Some(MonthsBack(1));
    var d := SetMonth(At(dt), dt.month + -1);
    assert Shift(At(dt), MonthsBack(1)) == d;
    PreviousMonth(dt);
    if d.At? {
      assert CalculateReminderTime(eventDate, "1month", At(dt)) == Text(IsoText(d.dt));
    } else {
      assert CalculateReminderTime(eventDate, "1month", At(dt)) == RangeError;
    }
  }

  /** The same day of the previous month, as `setMonth` computes it. */
  lemma PreviousMonth(dt: DateTime)
    requires dt.Valid()
    ensures var y, m := dt.year + (dt.month - 1) / 12, (dt.month - 1) % 12;
      var t := (DayNumber(y, m, 1) + dt.day - 1) * MsPerDay + dt.msOfDay;
      var d := SetMonth(At(dt), dt.month + -1);
      (d.At? <==> -MaxTimeValue <= t <= MaxTimeValue) && (d.At? ==> d.dt.Valid() && d.dt.TimeValue() == t)
  {
    ShiftMonths(dt, -1);
    ShiftMonthsInRange(dt, -1);
  }
}
