/**
 * Time arithmetic shared by the booking page, the timetable page and the
 * profile page: reading a form time as minutes (`parseTime`), the duration
 * text (`calculateDuration`), the 24-hour slot values ("07:00") and the
 * 12-hour labels ("7:00 AM") the time pickers and lists show.
 */
module TimeArithmetic {
  import opened Wrappers
  import opened Text

  datatype Clock = Clock(hour: nat, minute: nat)

  /** A wall-clock time of day, as an `<input type="time">` or a time `<select>` yields it. */
  type TimeOfDay = c: Clock | c.hour < 24 && c.minute < 60 witness Clock(0, 0)

  /** `parseTime` (js/sessions.js): minutes since midnight, 0 for an empty field. */
  function ParseTime(field: Option<TimeOfDay>): (m: nat)
    ensures field.None? ==> m == 0
    ensures field.Some? ==> m / 60 == field.value.hour && m % 60 == field.value.minute
    ensures m < 24 * 60
  {
    if field.None? then 0 else field.value.hour * 60 + field.value.minute
  }

  // ---------------------------------------------------------------------------
  // "HH:MM" text

  /** `s.padStart(len, fill)` with a one-character fill. */
  function PadStart(s: string, len: nat, fill: char): string
    decreases len - |s|
  {
    if |s| >= len then s else PadStart([fill] + s, len, fill)
  }

  /** The padded text has length max(len, |s|), ends with `s` and holds only `fill` before it. */
  lemma {:induction false} PadStartShape(s: string, len: nat, fill: char)
    ensures var r := PadStart(s, len, fill);
      && |r| == (if |s| >= len then |s| else len)
      && r[|r| - |s|..] == s
      && forall i :: 0 <= i < |r| - |s| ==> r[i] == fill
    decreases len - |s|
  {
    if |s| < len {
      var t := [fill] + s;
      PadStartShape(t, len, fill);
      var r := PadStart(t, len, fill);
      assert r[|r| - |t|..] == t;
      assert r[|r| - |s|..] == t[1..];
    }
  }

  /** The value of the whole-hour time option for `hour`: `${hour.toString().padStart(2, '0')}:00`. */
  function SlotValue(hour: nat): string {
    PadStart(NatText(hour), 2, '0') + ":00"
  }

  /** Reads an "HH:MM" value as the browser submits it for a time field. */
  function ParseTime24(s: string): Option<TimeOfDay> {
    if |s| == 5 && AllDigits(s[..2]) && s[2] == ':' && AllDigits(s[3..]) then
      var h, m := DigitsValue(s[..2]), DigitsValue(s[3..]);
      if h < 24 && m < 60 then Some(Clock(h, m)) else None
    else None
  }

  /** A digit after a leading zero denotes the digit's own value. */
  lemma ZeroLedDigit(c: char)
    requires IsDigit(c)
    ensures AllDigits(['0', c]) && DigitsValue(['0', c]) == DigitValue(c)
  {
    var t := ['0', c];
    assert t[..1] == ['0'] && ['0'][..0] == [];
  }

  /** The zero-padded hour text is two digits that denote the hour. */
  lemma TwoDigitHour(hour: nat)
    requires hour < 24
    ensures var t := PadStart(NatText(hour), 2, '0'); |t| == 2 && AllDigits(t) && DigitsValue(t) == hour
  {
    if hour < 10 {
      var c := DigitChar(hour);
      assert NatText(hour) == [c];
      assert PadStart([c], 2, '0') == PadStart(['0'] + [c], 2, '0');
      assert ['0'] + [c] == ['0', c];
      ZeroLedDigit(c);
    } else {
      assert NatText(hour / 10) == [DigitChar(hour / 10)];
      assert |NatText(hour)| == 2;
      NatTextValue(hour);
    }
  }

  /** A five-character "HH:MM" text whose two digit runs denote `h` and `m` reads as that time. */
  lemma ParseTime24Fields(s: string, h: nat, m: nat)
    requires |s| == 5 && s[2] == ':' && AllDigits(s[..2]) && AllDigits(s[3..])
    requires DigitsValue(s[..2]) == h < 24 && DigitsValue(s[3..]) == m < 60
    ensures ParseTime24(s) == Some(Clock(h, m))
  {
  }

  /** "00" is a run of digits denoting zero. */
  lemma DoubleZero()
    ensures AllDigits("00") && DigitsValue("00") == 0
  {
    assert "00"[..1] == "0" && "0"[..0] == [];
  }

  /** Two digits denoting an hour, followed by ":00", read as that hour on the hour. */
  lemma OnTheHourParses(t: string, hour: nat)
    requires |t| == 2 && AllDigits(t) && DigitsValue(t) == hour < 24
    ensures ParseTime24(t + ":00") == Some(Clock(hour, 0))
  {
    DoubleZero();
    var s := t + ":00";
    assert s[..2] == t && s[2] == ':' && s[3..] == "00";
    ParseTime24Fields(s, hour, 0);
  }

  /** Every whole-hour option value reads back as that hour, on the hour. */
  lemma SlotValueParses(hour: nat)
    requires hour < 24
    ensures ParseTime24(SlotValue(hour)) == Some(Clock(hour, 0))
  {
    TwoDigitHour(hour);
    OnTheHourParses(PadStart(NatText(hour), 2, '0'), hour);
  }

  // ---------------------------------------------------------------------------
  // Duration text

  /** The duration text for a positive number of minutes, as `calculateDuration` builds it. */
  function DurationText(d: nat): string
    requires d > 0
  {
    var h, m := d / 60, d % 60;
    if h > 0 && m > 0 then NatText(h) + "hr " + NatText(m) + "min"
    else if h > 0 then NatText(h) + "hr"
    else NatText(m) + "min"
  }

  /** `calculateDuration` (js/sessions.js, js/timetable.js). */
  function CalculateDuration(start: Option<TimeOfDay>, end: Option<TimeOfDay>): string {
    if start.None? || end.None? then ""
    else
      var d := ParseTime(end) - ParseTime(start);
      if d <= 0 then "" else DurationText(d)
  }

  /**
   * Reads a duration text back into minutes. Accepts exactly "{h}hr {m}min",
   * "{h}hr" and "{m}min" with no zero component, no leading zero and m < 60.
   */
  function ReadDuration(s: string): Option<nat> {
    match ReadNat(s)
    case None => None
    case Some((a, rest)) => if a == 0 then None else ReadDurationUnit(a, rest)
  }

  /** What may follow the leading number `a` of a duration text. */
  function ReadDurationUnit(a: nat, rest: string): Option<nat> {
    if rest == "min" then (if a < 60 then Some(a) else None)
    else if rest == "hr" then Some(a * 60)
    else if |rest| > 3 && rest[..3] == "hr " then ReadMinutesAfterHours(a, rest[3..])
    else None
  }

  /** The "{m}min" part after "{a}hr ". */
  function ReadMinutesAfterHours(a: nat, t: string): Option<nat> {
    match ReadNat(t)
    case None => None
    case Some((b, tail)) => if b < 60 && b > 0 && tail == "min" then Some(a * 60 + b) else None
  }

  /** A duration text whose leading number reads as `a` continues with `rest`. */
  lemma ReadDurationLead(s: string, a: nat, rest: string)
    requires ReadNat(s) == Some((a, rest)) && a > 0
    ensures ReadDuration(s) == ReadDurationUnit(a, rest)
  {
  }

  /** The unit part "hr {m}min" after an hour count `a`. */
  lemma ReadMinutesUnit(a: nat, mins: string, m: nat)
    requires ReadNat(mins) == Some((m, "min")) && 0 < m < 60
    ensures ReadDurationUnit(a, "hr " + mins) == Some(a * 60 + m)
  {
    var tail := "hr " + mins;
    assert |tail| > 3 && tail[..3] == "hr " && tail[3..] == mins;
    assert tail != "min" && tail != "hr";
  }

  lemma ReadMinutesTail(h: nat, m: nat)
    requires 0 < m < 60
    ensures ReadDurationUnit(h, "hr " + (NatText(m) + "min")) == Some(h * 60 + m)
  {
    ReadNatText(m, "min");
    ReadMinutesUnit(h, NatText(m) + "min", m);
  }

  /** `a + b + c + d` regrouped from the right. */
  lemma RegroupFour(a: string, b: string, c: string, d: string)
    ensures a + b + c + d == a + (b + (c + d))
  {
  }

  lemma ReadHoursAndMinutes(h: nat, m: nat)
    requires h > 0 && 0 < m < 60
    ensures ReadDuration(NatText(h) + "hr " + NatText(m) + "min") == Some(h * 60 + m)
  {
    var tail := "hr " + (NatText(m) + "min");
    RegroupFour(NatText(h), "hr ", NatText(m), "min");
    assert tail[0] == 'h';
    ReadNatText(h, tail);
    ReadDurationLead(NatText(h) + tail, h, tail);
    ReadMinutesTail(h, m);
  }

  lemma ReadHours(h: nat)
    requires h > 0
    ensures ReadDuration(NatText(h) + "hr") == Some(h * 60)
  {
    ReadNatText(h, "hr");
  }

  lemma ReadMinutes(m: nat)
    requires 0 < m < 60
    ensures ReadDuration(NatText(m) + "min") == Some(m)
  {
    ReadNatText(m, "min");
  }

  /** The hours and minutes printed by `DurationText` add back up to the duration. */
  lemma DurationRoundTrip(d: nat)
    requires d > 0
    ensures ReadDuration(DurationText(d)) == Some(d)
  {
    var h, m := d / 60, d % 60;
    assert h * 60 + m == d;
    if h > 0 && m > 0 {
      ReadHoursAndMinutes(h, m);
    } else if h > 0 {
      ReadHours(h);
    } else {
      ReadMinutes(m);
    }
  }

  lemma CanonicalMinutes(a: nat)
    requires 0 < a < 60
    ensures DurationText(a) == NatText(a) + "min"
  {
  }

  lemma CanonicalHours(a: nat)
    requires a > 0
    ensures DurationText(a * 60) == NatText(a) + "hr"
  {
    assert (a * 60) / 60 == a && (a * 60) % 60 == 0;
  }

  /** The text of a duration with both an hour and a minute part. */
  lemma HoursAndMinutesText(a: nat, b: nat)
    requires a > 0 && 0 < b < 60
    ensures DurationText(a * 60 + b) == NatText(a) + "hr " + NatText(b) + "min"
  {
    assert (a * 60 + b) / 60 == a && (a * 60 + b) % 60 == b;
  }

  /** A minute part that reads back is a number from 1 to 59 followed by "min". */
  lemma MinutesAfterHoursParts(a: nat, t: string, d: nat)
    requires ReadMinutesAfterHours(a, t) == Some(d)
    ensures d > a * 60 && d - a * 60 < 60 && ReadNat(t) == Some((d - a * 60, "min"))
  {
  }

  lemma CanonicalHoursAndMinutes(a: nat, t: string, d: nat)
    requires a > 0
    requires ReadMinutesAfterHours(a, t) == Some(d)
    ensures d > 0 && DurationText(d) == NatText(a) + ("hr " + t)
  {
    MinutesAfterHoursParts(a, t, d);
    var b := d - a * 60;
    ReadNatSome(t, b, "min");
    HoursAndMinutesText(a, b);
    RegroupFour(NatText(a), "hr ", NatText(b), "min");
  }

  /** Only the texts `DurationText` prints are read back: the format is canonical. */
  lemma DurationCanonical(s: string, d: nat)
    requires ReadDuration(s) == Some(d)
    ensures d > 0 && s == DurationText(d)
  {
    var (a, rest) := ReadNat(s).value;
    ReadNatSome(s, a, rest);
    assert ReadDurationUnit(a, rest) == Some(d);
    if rest == "min" {
      CanonicalMinutes(a);
    } else if rest == "hr" {
      CanonicalHours(a);
    } else {
      assert rest == "hr " + rest[3..];
      CanonicalHoursAndMinutes(a, rest[3..], d);
    }
  }

  /**
   * `calculateDuration` is empty exactly when a time is missing or the end is
   * not after the start; otherwise it reads back as end minus start minutes.
   */
  lemma CalculateDurationMeaning(start: Option<TimeOfDay>, end: Option<TimeOfDay>)
    ensures CalculateDuration(start, end) == "" <==>
      (start.None? || end.None? || ParseTime(end) <= ParseTime(start))
    ensures CalculateDuration(start, end) != "" ==>
      ReadDuration(CalculateDuration(start, end)) == Some(ParseTime(end) - ParseTime(start))
  {
    if start.Some? && end.Some? && ParseTime(end) > ParseTime(start) {
      DurationRoundTrip(ParseTime(end) - ParseTime(start));
    }
  }

  // ---------------------------------------------------------------------------
  // 12-hour labels

  /**
   * The 12-hour label `formatTime` and `initializeTimeSlots` give an hour.
   * Only the hour is shown: minutes always print as ":00".
   */
  function Clock12Label(hour: nat): string {
    if hour == 0 then "12:00 AM"
    else if hour == 12 then "12:00 PM"
    else if hour > 12 then NatText(hour - 12) + ":00 PM"
    else NatText(hour) + ":00 AM"
  }

  /** Reads a label "h:00 AM" or "h:00 PM", h in 1..12, back into a 24-hour hour. */
  function ReadClock12Label(s: string): Option<nat> {
    match ReadNat(s)
    case None => None
    case Some((h, rest)) =>
      if h < 1 || h > 12 then None
      else if rest == ":00 AM" then Some(if h == 12 then 0 else h)
      else if rest == ":00 PM" then Some(if h == 12 then 12 else h + 12)
      else None
  }

  /** "12" is the decimal text of twelve. */
  lemma TwelveText()
    ensures NatText(12) == "12"
  {
    assert NatText(1) == "1";
  }

  /** A morning label "h:00 AM" reads back as h, or as midnight for 12. */
  lemma ReadAmLabel(h: nat)
    requires 1 <= h <= 12
    ensures ReadClock12Label(NatText(h) + ":00 AM") == Some(if h == 12 then 0 else h)
  {
    ReadNatText(h, ":00 AM");
  }

  /** An afternoon label "h:00 PM" reads back as h + 12, or as noon for 12. */
  lemma ReadPmLabel(h: nat)
    requires 1 <= h <= 12
    ensures ReadClock12Label(NatText(h) + ":00 PM") == Some(if h == 12 then 12 else h + 12)
  {
    ReadNatText(h, ":00 PM");
  }

  /** No two hours of the day share a label: each label reads back as its hour. */
  lemma Clock12LabelRoundTrip(hour: nat)
    requires hour < 24
    ensures ReadClock12Label(Clock12Label(hour)) == Some(hour)
  {
    if hour == 0 {
      TwelveText();
      assert Clock12Label(hour) == NatText(hour + 12) + ":00 AM";
      ReadAmLabel(hour + 12);
    } else if hour == 12 {
      TwelveText();
      assert Clock12Label(hour) == NatText(hour) + ":00 PM";
      ReadPmLabel(hour);
    } else if hour > 12 {
      ReadPmLabel(hour - 12);
    } else {
      ReadAmLabel(hour);
    }
  }

  predicate IsAmLabel(shown: string) {
    |shown| >= 2 && shown[|shown| - 2..] == "AM"
  }

  /** The label says AM exactly for the hours before noon. */
  lemma Clock12LabelMeridiem(hour: nat)
    requires hour < 24
    ensures IsAmLabel(Clock12Label(hour)) <==> hour < 12
  {
    var shown := Clock12Label(hour);
    if 0 < hour < 12 {
      var n := NatText(hour);
      assert shown[|shown| - 2..] == (":00 AM")[4..];
    } else if hour > 12 {
      var n := NatText(hour - 12);
      assert shown[|shown| - 2..] == (":00 PM")[4..];
    }
  }

  /** `formatTime` as js/timetable.js and js/profile.js write it: "N/A" for an empty time. */
  function FormatTimeOrNA(field: Option<TimeOfDay>): string {
    if field.None? then "N/A" else Clock12Label(field.value.hour)
  }

  /** `formatTime` returns "N/A" exactly for an empty time; a present time is never formatted as "N/A". */
  lemma FormatTimeOrNAMissing(field: Option<TimeOfDay>)
    ensures FormatTimeOrNA(field) == "N/A" <==> field.None?
  {
    if field.Some? {
      Clock12LabelRoundTrip(field.value.hour);
      assert ReadNat("N/A") == None;
    }
  }

  /**
   * The shown `updateEndTimeOptions` gives an end hour. It tests `hour > 12`
   * before `hour === 12` and has no midnight case.
   */
  function EndOptionLabel(hour: nat): string {
    if hour > 12 then NatText(hour - 12) + ":00 PM"
    else if hour == 12 then "12:00 PM"
    else NatText(hour) + ":00 AM"
  }

  /** The end-time list labels every hour it can offer (1..23) as the start list does. */
  lemma EndOptionLabelAgrees(hour: nat)
    requires 1 <= hour
    ensures EndOptionLabel(hour) == Clock12Label(hour)
  {
  }
}
