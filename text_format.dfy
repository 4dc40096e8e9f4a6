/**
 * The texts both text sensors build with `snprintf`: `%02d:%02d:%02d`
 * for a time of day, optionally after a day name, `%04d-%02d-%02d` for a
 * date, the two joined by a space for a date and time, and the
 * ` [FAULT]` / ` [DST]` suffixes of a DPT 19 value.
 */
module TextFormat {
  import opened Bytes
  import opened Text
  import opened Dpt

  /** The day-name table entry for a day of week 1 (Monday) to 7 (Sunday). */
  function DayName(day: u8): (r: string)
    requires 1 <= day <= 7
    ensures |r| == 3
  {
    if day == 1 then "Mon" else if day == 2 then "Tue" else if day == 3 then "Wed"
    else if day == 4 then "Thu" else if day == 5 then "Fri" else if day == 6 then "Sat" else "Sun"
  }

  /** `%02d` of a value below 100 is exactly two digits. */
  lemma TwoDigits(n: nat)
    requires n < 100
    ensures |ZeroPad(n, 2)| == 2
  {
    DecLength(n, 2, 100);
  }

  /** `%02d` of an octet is two or three digits. */
  lemma OctetDigits(n: nat)
    requires n < 256
    ensures 2 <= |ZeroPad(n, 2)| <= 3
  {
    DecLength(n, 3, 1000);
  }

  /** `%04d` of a value below 10000 is exactly four digits; below 100000, at most five. */
  lemma FourDigits(n: nat)
    requires n < 100000
    ensures 4 <= |ZeroPad(n, 4)| <= 5
    ensures n < 10000 ==> |ZeroPad(n, 4)| == 4
  {
    DecLength(n, 5, 100000);
    if n < 10000 {
      DecLength(n, 4, 10000);
    }
  }

  /** Where the three fields and two separators of `a sep b sep c` sit. */
  lemma Fields(a: string, b: string, c: string, sep: char)
    ensures var r := a + [sep] + b + [sep] + c;
      |r| == |a| + |b| + |c| + 2 && r[..|a|] == a && r[|a|] == sep &&
      r[|a| + 1..|a| + 1 + |b|] == b && r[|a| + 1 + |b|] == sep && r[|a| + 2 + |b|..] == c
  {
  }

  /** `%02d:%02d:%02d`. */
  function Clock(hour: nat, minute: nat, second: nat): (r: string)
    ensures |r| >= 8
  {
    ZeroPad(hour, 2) + ":" + ZeroPad(minute, 2) + ":" + ZeroPad(second, 2)
  }

  /** A clock of two-digit fields is eight characters and reads back as those fields. */
  lemma ClockReadsBack(hour: nat, minute: nat, second: nat)
    requires hour < 100 && minute < 100 && second < 100
    ensures var r := Clock(hour, minute, second);
      |r| == 8 && r[2] == ':' && r[5] == ':' &&
      AllDigits(r[..2]) && DigitsValue(r[..2]) == hour &&
      AllDigits(r[3..5]) && DigitsValue(r[3..5]) == minute &&
      AllDigits(r[6..]) && DigitsValue(r[6..]) == second
  {
    var h, m, s := ZeroPad(hour, 2), ZeroPad(minute, 2), ZeroPad(second, 2);
    TwoDigits(hour);
    TwoDigits(minute);
    TwoDigits(second);
    Fields(h, m, s, ':');
  }

  /**
   * The DPT 10 text: `"<day> HH:MM:SS"` for a day of week 1..7, the bare
   * clock otherwise (day 0, "no day", and anything out of range).
   */
  function TimeText(t: TimeOfDay): (r: string)
    ensures var clock := Clock(t.hour as nat, t.minute as nat, t.second as nat);
      if 1 <= t.dayOfWeek <= 7 then |r| == 4 + |clock| && r[..3] == DayName(t.dayOfWeek) && r[3] == ' ' && r[4..] == clock
      else r == clock
  {
    var clock := Clock(t.hour as nat, t.minute as nat, t.second as nat);
    if 1 <= t.dayOfWeek <= 7 then Named(DayName(t.dayOfWeek), clock) else clock
  }

  /** A three-letter name, a space, then the text. */
  function Named(name: string, text: string): (r: string)
    requires |name| == 3
    ensures |r| == 4 + |text| && r[..3] == name && r[3] == ' ' && r[4..] == text
  {
    name + [' '] + text
  }

  /** `%04d-%02d-%02d`. */
  function DateText(year: nat, month: nat, day: nat): (r: string)
    ensures |r| >= 10
  {
    ZeroPad(year, 4) + "-" + ZeroPad(month, 2) + "-" + ZeroPad(day, 2)
  }

  /** A date of a four-digit year and two-digit month and day is ten characters and reads back. */
  lemma DateReadsBack(year: nat, month: nat, day: nat)
    requires year < 10000 && month < 100 && day < 100
    ensures var r := DateText(year, month, day);
      |r| == 10 && r[4] == '-' && r[7] == '-' &&
      AllDigits(r[..4]) && DigitsValue(r[..4]) == year &&
      AllDigits(r[5..7]) && DigitsValue(r[5..7]) == month &&
      AllDigits(r[8..]) && DigitsValue(r[8..]) == day
  {
    var y, m, d := ZeroPad(year, 4), ZeroPad(month, 2), ZeroPad(day, 2);
    FourDigits(year);
    TwoDigits(month);
    TwoDigits(day);
    Fields(y, m, d, '-');
  }

  /** `%04d-%02d-%02d %02d:%02d:%02d` of a DPT 19 value. */
  function DateTimeText(dt: DateTime): (r: string)
    ensures var date := DateText(dt.year as nat, dt.month as nat, dt.day as nat);
      |r| == |date| + 1 + |Clock(dt.hour as nat, dt.minute as nat, dt.second as nat)| &&
      r[..|date|] == date && r[|date|] == ' '
  {
    Spaced(DateText(dt.year as nat, dt.month as nat, dt.day as nat), Clock(dt.hour as nat, dt.minute as nat, dt.second as nat))
  }

  /** Two texts with a space between them. */
  function Spaced(left: string, right: string): (r: string)
    ensures |r| == |left| + 1 + |right| && r[..|left|] == left && r[|left|] == ' ' && r[|left| + 1..] == right
  {
    left + [' '] + right
  }

  /** The suffix of a DPT 19 text: ` [FAULT]` when the fault flag is set, then ` [DST]` for summer time. */
  function Flags(fault: bool, summerTime: bool): (r: string)
    ensures |r| == (if fault then 8 else 0) + (if summerTime then 6 else 0)
    ensures fault ==> r[..8] == " [FAULT]"
    ensures summerTime ==> r[|r| - 6..] == " [DST]"
    ensures r == "" <==> !fault && !summerTime
  {
    (if fault then " [FAULT]" else "") + (if summerTime then " [DST]" else "")
  }
}
