/**
 * `formatTime`, which both the recipe list and the results panel use to show
 * a number of minutes as hours and minutes.
 */
module TimeFormat {
  import opened JsBuiltins
  import opened JsText

  /**
   * `Math.floor(minutes / 60)`, then the `%` remainder, then the template
   * strings. No information is lost: a non-negative number of minutes can
   * be read back from the text.
   */
  function FormatTime(minutes: int): (text: string)
    ensures minutes >= 0 ==> ParseTime(text) == Some(minutes)
  {
    var hours := minutes / 60;
    var mins := JsRemainder(minutes, 60);
    assert minutes >= 0 ==> mins == minutes % 60 && hours * 60 + mins == minutes;
    if hours > 0 then
      ReadHoursText(hours, mins);
      IntToString(hours) + " hr " + (if mins > 0 then IntToString(mins) + " min" else "")
    else
      ReadMinutesText(mins);
      IntToString(mins) + " min"
  }

  /** Below an hour (and down to minus 59) the text is the minutes alone. */
  lemma FormatTimeUnderAnHour(minutes: int)
    requires -60 < minutes < 60
    ensures FormatTime(minutes) == IntToString(minutes) + " min"
  {
    assert minutes / 60 <= 0;
    assert JsRemainder(minutes, 60) == minutes;
  }

  /** From an hour up, with minutes left over: both parts, and they add back up. */
  lemma FormatTimeHoursAndMinutes(minutes: int)
    requires minutes >= 60 && minutes % 60 != 0
    ensures FormatTime(minutes) == IntToString(minutes / 60) + " hr " + IntToString(minutes % 60) + " min"
    ensures minutes / 60 >= 1 && 0 < minutes % 60 < 60
    ensures (minutes / 60) * 60 + minutes % 60 == minutes
  {
    assert minutes / 60 >= 1;
    assert JsRemainder(minutes, 60) == minutes % 60;
    var s := IntToString(minutes / 60) + " hr " + (IntToString(minutes % 60) + " min");
    assert s == IntToString(minutes / 60) + " hr " + IntToString(minutes % 60) + " min";
  }

  /** A whole number of hours: the hour part with its trailing space and no minute part. */
  lemma FormatTimeWholeHours(minutes: int)
    requires minutes >= 60 && minutes % 60 == 0
    ensures FormatTime(minutes) == IntToString(minutes / 60) + " hr "
  {
    assert minutes / 60 >= 1;
    assert JsRemainder(minutes, 60) == 0;
    assert IntToString(minutes / 60) + " hr " + "" == IntToString(minutes / 60) + " hr ";
  }

  /** Reads "M min". */
  function ParseMinutes(s: string): Option<int> {
    var m := LeadingDigits(s);
    if |m| > 0 && s[|m|..] == " min" then Some(DigitsValue(m)) else None
  }

  /** Reads what follows " hr ": nothing, or "M min". */
  function ParseAfterHours(hours: int, tail: string): Option<int> {
    if tail == [] then Some(hours * 60)
    else match ParseMinutes(tail)
      case Some(m) => Some(hours * 60 + m)
      case None => None
  }

  /** Reads what follows the leading number. */
  function ParseAfterNumber(n: int, rest: string): Option<int> {
    if rest == " min" then Some(n)
    else if |rest| >= 4 && rest[..4] == " hr " then ParseAfterHours(n, rest[4..])
    else None
  }

  /** Reads back the three shapes `FormatTime` produces for a non-negative number of minutes. */
  function ParseTime(s: string): Option<int> {
    var h := LeadingDigits(s);
    if |h| == 0 then None else ParseAfterNumber(DigitsValue(h), s[|h|..])
  }

  /** Splitting `digits + rest` back into the number and the rest. */
  lemma ReadNumber(n: nat, rest: string)
    requires |rest| > 0 && rest[0] == ' '
    ensures ParseTime(NatToString(n) + rest) == ParseAfterNumber(n, rest)
  {
    var s := NatToString(n) + rest;
    assert LeadingDigits(s) == NatToString(n) by {
      LeadingDigitsOfConcat(NatToString(n), rest);
    }
    assert s[|NatToString(n)|..] == rest;
    NatToStringRoundTrip(n);
  }

  lemma ReadHourMark(n: int, tail: string)
    ensures ParseAfterNumber(n, " hr " + tail) == ParseAfterHours(n, tail)
  {
    assert (" hr " + tail)[1] == 'h';
    assert (" hr " + tail)[..4] == " hr ";
    assert (" hr " + tail)[4..] == tail;
  }

  lemma ParseMinutesOf(mins: nat)
    ensures ParseMinutes(NatToString(mins) + " min") == Some(mins)
  {
    var s := NatToString(mins) + " min";
    assert LeadingDigits(s) == NatToString(mins) by {
      LeadingDigitsOfConcat(NatToString(mins), " min");
    }
    assert s[|NatToString(mins)|..] == " min";
    NatToStringRoundTrip(mins);
  }

  lemma ParseWholeHours(hours: nat)
    ensures ParseTime(NatToString(hours) + (" hr " + "")) == Some(hours * 60)
  {
    ReadNumber(hours, " hr " + "");
    ReadHourMark(hours, "");
  }

  lemma ParseHoursAndMinutes(hours: nat, mins: nat)
    ensures ParseTime(NatToString(hours) + (" hr " + (NatToString(mins) + " min"))) == Some(hours * 60 + mins)
  {
    var tail := NatToString(mins) + " min";
    ReadNumber(hours, " hr " + tail);
    ReadHourMark(hours, tail);
    ReadMinutesAfterHours(hours, mins);
  }

  lemma ReadMinutesAfterHours(hours: int, mins: nat)
    ensures ParseAfterHours(hours, NatToString(mins) + " min") == Some(hours * 60 + mins)
  {
    ParseMinutesOf(mins);
  }

  lemma ParseMinutesOnly(mins: nat)
    ensures ParseTime(NatToString(mins) + " min") == Some(mins)
  {
    ReadNumber(mins, " min");
  }

  /** Reads back the text of the hours branch. */
  lemma ReadHoursText(hours: nat, mins: nat)
    ensures ParseTime(IntToString(hours) + " hr " + (if mins > 0 then IntToString(mins) + " min" else ""))
            == Some(hours * 60 + mins)
  {
    assert IntToString(hours) == NatToString(hours);
    if mins > 0 {
      assert IntToString(mins) == NatToString(mins);
      assert IntToString(hours) + " hr " + (IntToString(mins) + " min")
          == NatToString(hours) + (" hr " + (NatToString(mins) + " min"));
      ParseHoursAndMinutes(hours, mins);
    } else {
      assert IntToString(hours) + " hr " + "" == NatToString(hours) + (" hr " + "");
      ParseWholeHours(hours);
    }
  }

  /** Reads back the text of the minutes-only branch. */
  lemma ReadMinutesText(mins: int)
    ensures mins >= 0 ==> ParseTime(IntToString(mins) + " min") == Some(mins)
  {
    if mins >= 0 {
      assert IntToString(mins) == NatToString(mins);
      ParseMinutesOnly(mins);
    }
  }

  /**
   * Negative minutes: the hours are dropped, so the text does not determine
   * the input. -90 and -30 both give "-30 min", and -60 gives the text of 0.
   */
  lemma FormatTimeNegativeCollisions()
    ensures FormatTime(-90) == FormatTime(-30)
    ensures FormatTime(-60) == FormatTime(0)
  {
    assert JsRemainder(-90, 60) == -30 && -90 / 60 == -2;
    assert JsRemainder(-30, 60) == -30 && -30 / 60 == -1;
    assert JsRemainder(-60, 60) == 0 && -60 / 60 == -1;
  }

  /** Different non-negative numbers of minutes get different texts. */
  lemma FormatTimeInjective(a: nat, b: nat)
    requires FormatTime(a) == FormatTime(b)
    ensures a == b
  {
  }
}
