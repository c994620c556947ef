/**
 * The clock strings of the dashboard: "HH:MM" and "<weekday> × <month>
 * DD" with Swedish weekday names and month abbreviations, from the fields
 * of the real-time clock's time structure.
 */
module Clock {
  import opened Builtins

  /** Weekday names, Monday first, as the time structure numbers them. */
  const Weekdays: seq<string> :=
    ["M\U{E5}ndag", "Tisdag", "Onsdag", "Torsdag", "Fredag", "L\U{F6}rdag", "S\U{F6}ndag"]

  /** Month abbreviations, January first. */
  const Months: seq<string> :=
    ["Jan", "Feb", "Mar", "Apr", "Maj", "Jun", "Jul", "Aug", "Sep", "Oct", "Nov", "Dec"]

  /** What separates the weekday from the month: a multiplication sign
      between spaces. */
  const Separator: string := " \U{D7} "

  lemma NameTables()
    ensures |Weekdays| == 7 && Distinct(Weekdays)
    ensures |Months| == 12 && Distinct(Months)
    ensures forall i :: 0 <= i < |Months| ==> |Months[i]| == 3
    ensures forall i :: 0 <= i < |Weekdays| ==> |Weekdays[i]| >= 6
  {
  }

  /** `"{:02}:{:02}".format(hour, minute)`. */
  function TimeText(hour: nat, minute: nat): string {
    Pad2(hour) + ":" + Pad2(minute)
  }

  /** `"{} × {} {:02}".format(weekday[wday], month[mon - 1], mday)`. The
      tables are Python lists, so a month of 0 reads the last entry, and an
      index outside them raises `IndexError`. */
  function DateText(wday: int, mon: int, mday: nat): Result<string> {
    match PyIndex(Weekdays, wday)
    case Err(e) => Err(e)
    case Ok(day) =>
      match PyIndex(Months, mon - 1)
      case Err(e) => Err(e)
      case Ok(month) => Ok(day + Separator + month + " " + Pad2(mday))
  }

  // -----------------------------------------------------------------------
  // Reading the strings back

  predicate AllDigits(s: string) {
    forall i :: 0 <= i < |s| ==> IsDigit(s[i])
  }

  /** The hour and minute of an "HH:MM" string. */
  function ParseTime(s: string): Option<(nat, nat)> {
    if |s| == 5 && s[2] == ':' && AllDigits(s[..2]) && AllDigits(s[3..])
    then Some((DigitsValue(s[..2]), DigitsValue(s[3..])))
    else None
  }

  /** The weekday number, month number and day of a date string. */
  function ParseDate(s: string): Option<(nat, nat, nat)> {
    if |s| < 6 + |Separator| || s[|s| - 3] != ' ' || !AllDigits(s[|s| - 2..]) then None
    else
      var head := s[..|s| - 6];
      var day := head[..|head| - |Separator|];
      match IndexOf(Months, s[|s| - 6..|s| - 3])
      case None => None
      case Some(m) =>
        if head[|head| - |Separator|..] != Separator then None
        else match IndexOf(Weekdays, day)
          case None => None
          case Some(w) => Some((w, m + 1, DigitsValue(s[|s| - 2..])))
  }

  /** The time string of an hour and minute below 100 is five characters
      long and reads back as that hour and minute. */
  lemma {:induction false} TimeTextRoundTrip(hour: nat, minute: nat)
    requires hour < 100 && minute < 100
    ensures |TimeText(hour, minute)| == 5
    ensures ParseTime(TimeText(hour, minute)) == Some((hour, minute))
  {
    var s := TimeText(hour, minute);
    assert s[..2] == Pad2(hour);
    assert s[3..] == Pad2(minute);
  }

  /** A date string reads back as the positions of its weekday and month
      in the tables and the value of its two-digit day. */
  lemma {:induction false} ParseDateOf(day: string, month: string, dd: string)
    requires |month| == 3 && |dd| == 2 && AllDigits(dd)
    ensures ParseDate(day + Separator + month + " " + dd) ==
      match IndexOf(Months, month)
      case None => None
      case Some(m) =>
        match IndexOf(Weekdays, day)
        case None => None
        case Some(w) => Some((w, m + 1, DigitsValue(dd)))
  {
    var s := day + Separator + month + " " + dd;
    var head := s[..|s| - 6];
    assert head == day + Separator;
    assert s[|s| - 6..|s| - 3] == month;
    assert s[|s| - 3] == ' ';
    assert s[|s| - 2..] == dd;
    assert head[..|head| - |Separator|] == day;
    assert head[|head| - |Separator|..] == Separator;
  }

  /** For a weekday in 0..6 and a month in 1..12 the tables are indexed
      directly. */
  lemma DateTextOf(wday: nat, mon: nat, mday: nat)
    requires wday < 7 && 1 <= mon <= 12
    ensures DateText(wday, mon, mday) == Ok(Weekdays[wday] + Separator + Months[mon - 1] + " " + Pad2(mday))
  {
  }

  /** A weekday in 0..6 and a month in 1..12 give a date string, and it
      reads back as that weekday, month and day. */
  lemma {:induction false} DateTextRoundTrip(wday: nat, mon: nat, mday: nat)
    requires wday < 7 && 1 <= mon <= 12 && mday < 100
    ensures DateText(wday, mon, mday).Ok?
    ensures ParseDate(DateText(wday, mon, mday).value) == Some((wday, mon, mday))
  {
    DateTextOf(wday, mon, mday);
    NameTables();
    ParseDateOf(Weekdays[wday], Months[mon - 1], Pad2(mday));
    IndexOfDistinct(Months, mon - 1);
    IndexOfDistinct(Weekdays, wday);
  }

  /** The weekday and month must be indices of the tables, a month of 0
      counting from the end; the day is padded to two digits. */
  lemma DateTextCases(wday: int, mon: int, mday: nat)
    ensures DateText(wday, mon, mday).Ok? <==> -7 <= wday < 7 && -11 <= mon <= 12
    ensures DateText(6, 0, mday) == Ok("S\U{F6}ndag" + Separator + "Dec" + " " + Pad2(mday))
  {
    NameTables();
    assert PyIndex(Weekdays, 6) == Ok(Weekdays[6]) && Weekdays[6] == "S\U{F6}ndag";
    assert PyIndex(Months, -1) == Ok(Months[11]) && Months[11] == "Dec";
  }
}
