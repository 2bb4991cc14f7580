/** The arithmetic and time helpers of src/lib/utils.ts that the reward
    engine's callers use: clock-window checks, capped percentages and the
    Monday/Sunday of a week. */
module Utils {
  import opened Types

  // ---------------------------------------------------------------------
  // "HH:MM" clock times
  // ---------------------------------------------------------------------

  /** Position of the first ':' in `s`. */
  function ColonIndex(s: string): (k: nat)
    requires ':' in s
    ensures k < |s| && s[k] == ':' && ':' !in s[..k]
  {
    if s[0] == ':' then 0
    else
      assert s == [s[0]] + s[1..];
      var k := ColonIndex(s[1..]);
      assert s[..k + 1] == [s[0]] + s[1..][..k];
      k + 1
  }

  /** The pieces joined back with ':' between them. */
  function JoinColon(parts: seq<string>): string
    requires |parts| >= 1
  {
    if |parts| == 1 then parts[0] else parts[0] + ":" + JoinColon(parts[1..])
  }

  /** `s.split(':')`: the pieces between colons, never empty, none holding a
      colon, and joining back to `s`. */
  function SplitColon(s: string): (parts: seq<string>)
    ensures |parts| >= 1
    ensures forall i :: 0 <= i < |parts| ==> ':' !in parts[i]
    ensures JoinColon(parts) == s
    decreases |s|
  {
    if ':' !in s then [s]
    else
      var k := ColonIndex(s);
      var rest := SplitColon(s[k + 1..]);
      assert s == s[..k] + ":" + s[k + 1..];
      [s[..k]] + rest
  }

  /** Splitting a join of colon-free pieces gives the pieces back. */
  lemma {:induction false} SplitJoin(parts: seq<string>)
    requires |parts| >= 1
    requires forall i :: 0 <= i < |parts| ==> ':' !in parts[i]
    ensures SplitColon(JoinColon(parts)) == parts
  {
    if |parts| > 1 {
      var s := JoinColon(parts);
      var head := parts[0];
      var tail := JoinColon(parts[1..]);
      assert s == head + ":" + tail;
      assert s[|head|] == ':';
      assert s[..|head|] == head;
      assert ':' in s;
      var k := ColonIndex(s);
      assert k == |head|;
      assert s[k + 1..] == tail;
      SplitJoin(parts[1..]);
    }
  }

  predicate IsDigit(c: char) {
    '0' <= c <= '9'
  }

  /** The decimal value of a string of digits. */
  function DigitsValue(s: string): (n: nat)
    requires forall i :: 0 <= i < |s| ==> IsDigit(s[i])
  {
    if s == [] then 0
    else
      assert IsDigit(s[|s| - 1]);
      DigitsValue(s[..|s| - 1]) * 10 + (s[|s| - 1] as int - '0' as int)
  }

  /** `Number(s)` for the strings a clock field holds: the empty string is 0,
      a run of decimal digits is its value, and everything else is not a
      number (None). */
  function ParseNumber(s: string): (r: Option<int>)
    ensures r.Some? ==> r.value >= 0
    ensures s == "" ==> r == Some(0)
    ensures r.None? <==> exists i :: 0 <= i < |s| && !IsDigit(s[i])
  {
    if forall i :: 0 <= i < |s| ==> IsDigit(s[i]) then Some(DigitsValue(s)) else None
  }

  /** `h * 60 + m` after splitting on ':'; None stands for NaN, which a
      missing minutes field (`undefined`) or a non-numeric field produces. */
  function ClockMinutes(t: string): (r: Option<int>)
    ensures r.Some? <==> |SplitColon(t)| >= 2 && ParseNumber(SplitColon(t)[0]).Some? &&
                         ParseNumber(SplitColon(t)[1]).Some?
    ensures r.Some? ==> r.value == ParseNumber(SplitColon(t)[0]).value * 60 + ParseNumber(SplitColon(t)[1]).value
    ensures r.Some? ==> r.value >= 0
    ensures ':' !in t ==> r.None?
  {
    var parts := SplitColon(t);
    var hours := ParseNumber(parts[0]);
    var minutes := if |parts| >= 2 then ParseNumber(parts[1]) else None;
    if hours.Some? && minutes.Some? then Some(hours.value * 60 + minutes.value) else None
  }

  /** `isWithinTimeWindow`: the time lies between the window's ends, both
      inclusive, comparing minutes since midnight. Any NaN makes every
      comparison, and so the answer, false. */
  function IsWithinTimeWindow(time: string, windowStart: string, windowEnd: string): (r: bool)
    ensures r ==> ClockMinutes(time).Some? && ClockMinutes(windowStart).Some? && ClockMinutes(windowEnd).Some?
    ensures r ==> ClockMinutes(windowStart).value <= ClockMinutes(time).value <= ClockMinutes(windowEnd).value
    ensures (ClockMinutes(time).Some? && ClockMinutes(windowStart).Some? && ClockMinutes(windowEnd).Some? &&
             ClockMinutes(windowStart).value <= ClockMinutes(time).value <= ClockMinutes(windowEnd).value) ==> r
    ensures (ClockMinutes(windowStart).Some? && ClockMinutes(windowEnd).Some? &&
             ClockMinutes(windowStart).value > ClockMinutes(windowEnd).value) ==> !r
  {
    var currentMinutes := ClockMinutes(time);
    var startMinutes := ClockMinutes(windowStart);
    var endMinutes := ClockMinutes(windowEnd);
    currentMinutes.Some? && startMinutes.Some? && endMinutes.Some? &&
    currentMinutes.value >= startMinutes.value && currentMinutes.value <= endMinutes.value
  }

  /** The answer depends on each argument only through its minutes since
      midnight. */
  lemma OnlyMinutesMatter(t1: string, t2: string, s1: string, s2: string, e1: string, e2: string)
    requires ClockMinutes(t1) == ClockMinutes(t2)
    requires ClockMinutes(s1) == ClockMinutes(s2)
    requires ClockMinutes(e1) == ClockMinutes(e2)
    ensures IsWithinTimeWindow(t1, s1, e1) == IsWithinTimeWindow(t2, s2, e2)
  {
  }

  function DigitChar(d: int): (c: char)
    requires 0 <= d < 10
    ensures IsDigit(c)
  {
    ('0' as int + d) as char
  }

  /** A two-digit, zero-padded field. */
  function TwoDigits(n: int): (s: string)
    requires 0 <= n < 100
    ensures |s| == 2 && forall i :: 0 <= i < |s| ==> IsDigit(s[i])
  {
    [DigitChar(n / 10), DigitChar(n % 10)]
  }

  /** "HH:MM" for hours and minutes below 100. */
  function FormatClock(hours: int, minutes: int): string
    requires 0 <= hours < 100 && 0 <= minutes < 100
  {
    TwoDigits(hours) + ":" + TwoDigits(minutes)
  }

  lemma TwoDigitsValue(n: int)
    requires 0 <= n < 100
    ensures ParseNumber(TwoDigits(n)) == Some(n)
  {
    var s := TwoDigits(n);
    assert s[..1][..0] == [];
    assert DigitsValue(s[..1]) == n / 10;
    assert DigitsValue(s) == (n / 10) * 10 + n % 10;
  }

  /** A time written as two colon-free fields reads as hours × 60 + minutes
      when both fields are numbers, and as NaN otherwise. */
  lemma ClockMinutesOfFields(hours: string, minutes: string)
    requires ':' !in hours && ':' !in minutes
    ensures ClockMinutes(hours + ":" + minutes) ==
      if ParseNumber(hours).Some? && ParseNumber(minutes).Some?
      then Some(ParseNumber(hours).value * 60 + ParseNumber(minutes).value) else None
  {
    var parts := [hours, minutes];
    assert JoinColon(parts) == hours + ":" + minutes by {
      assert parts[1..] == [minutes];
    }
    SplitJoin(parts);
  }

  /** Parsing a formatted clock time gives back its minutes since midnight. */
  lemma ClockMinutesOfFormat(hours: int, minutes: int)
    requires 0 <= hours < 100 && 0 <= minutes < 100
    ensures ClockMinutes(FormatClock(hours, minutes)) == Some(hours * 60 + minutes)
  {
    TwoDigitsValue(hours);
    TwoDigitsValue(minutes);
    ClockMinutesOfFields(TwoDigits(hours), TwoDigits(minutes));
  }

  /** Both ends of a window are inside it. */
  lemma WindowIncludesBothEnds(h1: int, m1: int, h2: int, m2: int)
    requires 0 <= h1 < 100 && 0 <= m1 < 100 && 0 <= h2 < 100 && 0 <= m2 < 100
    requires h1 * 60 + m1 <= h2 * 60 + m2
    ensures IsWithinTimeWindow(FormatClock(h1, m1), FormatClock(h1, m1), FormatClock(h2, m2))
    ensures IsWithinTimeWindow(FormatClock(h2, m2), FormatClock(h1, m1), FormatClock(h2, m2))
  {
    ClockMinutesOfFormat(h1, m1);
    ClockMinutesOfFormat(h2, m2);
  }

  /** A window that wraps past midnight, such as 22:00 to 02:00, contains no
      time at all. */
  lemma OvernightWindowIsEmpty(time: string)
    ensures !IsWithinTimeWindow(time, "22:00", "02:00")
  {
    assert "22:00" == FormatClock(22, 0);
    assert "02:00" == FormatClock(2, 0);
    ClockMinutesOfFormat(22, 0);
    ClockMinutesOfFormat(2, 0);
  }

  lemma OneAndNinety()
    ensures ParseNumber("1") == Some(1) && ParseNumber("90") == Some(90)
  {
    assert "1"[..0] == [];
    assert "90"[..1] == "9";
    assert "9"[..0] == [];
  }

  /** Fields are not range-checked: "1:90" is the same 150 minutes as "02:30". */
  lemma MinutesAreNotRangeChecked()
    ensures ClockMinutes("1:90") == ClockMinutes("02:30") == Some(150)
  {
    assert "02:30" == FormatClock(2, 30);
    ClockMinutesOfFormat(2, 30);
    OneAndNinety();
    assert "1:90" == "1" + ":" + "90";
    ClockMinutesOfFields("1", "90");
  }

  // ---------------------------------------------------------------------
  // Progress percentage
  // ---------------------------------------------------------------------

  /** `calculateProgress`: `current / target` as a percentage, capped at 100
      but not clamped below; 0 when the target is 0. */
  function CalculateProgress(current: real, target: real): (r: real)
    ensures r <= 100.0
    ensures target == 0.0 ==> r == 0.0
    ensures target > 0.0 && 0.0 <= current <= target ==> r == current / target * 100.0 && 0.0 <= r
    ensures target > 0.0 && current >= target ==> r == 100.0
    ensures target > 0.0 && current < 0.0 ==> r < 0.0
  {
    if target == 0.0 then 0.0
    else
      var ratio := current / target * 100.0;
      assert target > 0.0 && current <= target ==> current / target <= 1.0;
      assert target > 0.0 && current >= target ==> current / target >= 1.0;
      if ratio <= 100.0 then ratio else 100.0
  }

  // ---------------------------------------------------------------------
  // Week boundaries
  // ---------------------------------------------------------------------

  /** A local date and time: `day` counts days from 1 January 1970 (a
      Thursday); the rest is the time of day. */
  datatype Instant = Instant(day: int, hours: int, minutes: int, seconds: int, millis: int)

  /** `Date.getDay()`: 0 for Sunday through 6 for Saturday. */
  function Weekday(day: int): (w: int)
    ensures 0 <= w < 7
  {
    (day + 4) % 7
  }

  /** `start` is the Monday on or before `day`. */
  predicate IsWeekStartOf(start: int, day: int) {
    Weekday(start) == 1 && day - 6 <= start <= day
  }

  /** `end` is the Sunday on or after `day`. */
  predicate IsWeekEndOf(end: int, day: int) {
    Weekday(end) == 0 && day <= end <= day + 6
  }

  /** Shifting a day by whole days shifts its weekday the same way. */
  lemma WeekdayShift(day: int, k: int)
    ensures Weekday(day + k) == (Weekday(day) + k) % 7
  {
    var q := (day + 4) / 7;
    assert day + 4 == 7 * q + Weekday(day);
    assert day + k + 4 == 7 * q + (Weekday(day) + k);
    ModShift(Weekday(day) + k, q);
  }

  lemma ModShift(x: int, q: int)
    ensures (7 * q + x) % 7 == x % 7
  {
  }

  /** `getWeekStart`: move the copied date back to Monday (6 days back from
      a Sunday) and set it to midnight. */
  method GetWeekStart(date: Instant) returns (weekStart: Instant)
    ensures IsWeekStartOf(weekStart.day, date.day)
    ensures Weekday(date.day) == 0 ==> weekStart.day == date.day - 6
    ensures weekStart.hours == 0 && weekStart.minutes == 0 && weekStart.seconds == 0 && weekStart.millis == 0
  {
    weekStart := date;
    var day := Weekday(weekStart.day);
    var diff := weekStart.day - day + (if day == 0 then -6 else 1);
    WeekdayShift(weekStart.day, diff - weekStart.day);
    weekStart := weekStart.(day := diff);
    weekStart := weekStart.(hours := 0, minutes := 0, seconds := 0, millis := 0);
  }

  /** `getWeekEnd`: move the copied date forward to Sunday (staying put on a
      Sunday) and set it to 23:00. */
  method GetWeekEnd(date: Instant) returns (weekEnd: Instant)
    ensures IsWeekEndOf(weekEnd.day, date.day)
    ensures Weekday(date.day) == 0 ==> weekEnd.day == date.day
    ensures weekEnd.hours == 23 && weekEnd.minutes == 0 && weekEnd.seconds == 0 && weekEnd.millis == 0
  {
    weekEnd := date;
    var day := Weekday(weekEnd.day);
    var diff := weekEnd.day - day + (if day == 0 then 0 else 7);
    WeekdayShift(weekEnd.day, diff - weekEnd.day);
    weekEnd := weekEnd.(day := diff);
    weekEnd := weekEnd.(hours := 23, minutes := 0, seconds := 0, millis := 0);
  }

  /** The week's Sunday is always six days after its Monday. */
  lemma WeekEndSixDaysAfterStart(day: int, start: int, end: int)
    requires IsWeekStartOf(start, day) && IsWeekEndOf(end, day)
    ensures end == start + 6
  {
    WeekdayShift(start, end - start);
  }

  /** Only one Monday lies in the six days up to a date. */
  lemma WeekStartUnique(day: int, s1: int, s2: int)
    requires IsWeekStartOf(s1, day) && IsWeekStartOf(s2, day)
    ensures s1 == s2
  {
    if s1 < s2 {
      WeekdayShift(s1, s2 - s1);
    } else if s2 < s1 {
      WeekdayShift(s2, s1 - s2);
    }
  }
}
