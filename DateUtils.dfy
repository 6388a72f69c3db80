/**
 * `formatDuration` of src/utils/dateUtils.ts: a whole number of minutes as the
 * text shown beside each service. The other helpers of that file only wrap
 * date-fns formatting and are not part of this model.
 */
module DateUtils {
  import opened Strings
  import MockData

  function FormatDuration(minutes: int): string
  {
    if minutes < 60 then IntToString(minutes) + " min"
    else
      var hours := minutes / 60;
      var remainingMinutes := minutes % 60;
      if remainingMinutes == 0 then
        if hours == 1 then "1 hour" else NatToString(hours) + " hours"
      else NatToString(hours) + " hr " + NatToString(remainingMinutes) + " min"
  }

  /** The three shapes of the text, with hours and minutes that add back up to the input. */
  lemma FormatDurationShapes(minutes: int)
    ensures minutes < 60 ==> FormatDuration(minutes) == IntToString(minutes) + " min"
    ensures minutes == 60 ==> FormatDuration(minutes) == "1 hour"
    ensures minutes > 60 && minutes % 60 == 0 ==>
              exists h: nat :: h >= 2 && h * 60 == minutes && FormatDuration(minutes) == NatToString(h) + " hours"
    ensures minutes > 60 && minutes % 60 != 0 ==>
              exists h: nat, m: nat :: h >= 1 && 0 < m < 60 && h * 60 + m == minutes &&
                FormatDuration(minutes) == NatToString(h) + " hr " + NatToString(m) + " min"
  {
    if minutes > 60 {
      var h, m := minutes / 60, minutes % 60;
      assert h * 60 + m == minutes;
      if m == 0 {
        assert FormatDuration(minutes) == NatToString(h) + " hours";
      } else {
        assert FormatDuration(minutes) == NatToString(h) + " hr " + NatToString(m) + " min";
      }
    }
  }

  /** Two runs of digits each followed by a blank-led text are equal when the wholes are. */
  lemma DigitsBeforeBlank(x: string, rest: string, y: string, rest': string)
    requires AllDigits(x) && AllDigits(y)
    requires rest != [] && rest[0] == ' ' && rest' != [] && rest'[0] == ' '
    requires x + rest == y + rest'
    ensures x == y && rest == rest'
  {
    DigitRunStops(x, rest);
    DigitRunStops(y, rest');
    assert x == (x + rest)[..|x|] == (y + rest')[..|y|] == y;
    assert rest == (x + rest)[|x|..] == (y + rest')[|y|..] == rest';
  }

  /** The last letter tells the shape: 'n' for minutes, 'r' for one hour, 's' for whole hours. */
  lemma LastLetter(minutes: int)
    requires minutes >= 60
    ensures var s := FormatDuration(minutes);
      && |s| > 0
      && (minutes % 60 != 0 <==> s[|s| - 1] == 'n')
      && (minutes == 60 <==> s[|s| - 1] == 'r')
  {
  }

  /** Distinct durations are shown as distinct texts. */
  lemma FormatDurationInjective(a: int, b: int)
    requires FormatDuration(a) == FormatDuration(b)
    ensures a == b
  {
    if a < 60 && b < 60 {
      ShortInjective(a, b);
    } else if a < 60 {
      MinAgainstLong(a, b);
    } else if b < 60 {
      MinAgainstLong(b, a);
    } else {
      LastLetter(a);
      LastLetter(b);
      if a % 60 != 0 {
        MixedInjective(a, b);
      } else if a != 60 && b != 60 {
        WholeHoursInjective(a, b);
      }
    }
  }

  lemma ShortInjective(a: int, b: int)
    requires a < 60 && b < 60
    requires FormatDuration(a) == FormatDuration(b)
    ensures a == b
  {
    var s := FormatDuration(a);
    assert IntToString(a) == s[..|s| - 4] == IntToString(b);
    IntToStringInjective(a, b);
  }

  lemma WholeHoursInjective(a: int, b: int)
    requires a > 60 && b > 60 && a % 60 == 0 && b % 60 == 0
    requires FormatDuration(a) == FormatDuration(b)
    ensures a == b
  {
    DigitsBeforeBlank(NatToString(a / 60), " hours", NatToString(b / 60), " hours");
    NatToStringInjective(a / 60, b / 60);
  }

  lemma MixedInjective(a: int, b: int)
    requires a >= 60 && b >= 60 && a % 60 != 0 && b % 60 != 0
    requires FormatDuration(a) == FormatDuration(b)
    ensures a == b
  {
    var ra, rb := MinutesPart(a % 60), MinutesPart(b % 60);
    MixedText(a);
    MixedText(b);
    DigitsBeforeBlank(NatToString(a / 60), ra, NatToString(b / 60), rb);
    NatToStringInjective(a / 60, b / 60);
    MinutesPartInjective(a % 60, b % 60);
  }

  /** The text after the hours in the "H hr M min" shape. */
  function MinutesPart(m: nat): (r: string)
    ensures |r| > 0 && r[0] == ' '
  {
    " hr " + NatToString(m) + " min"
  }

  lemma MixedText(a: int)
    requires a >= 60 && a % 60 != 0
    ensures FormatDuration(a) == NatToString(a / 60) + MinutesPart(a % 60)
  {
  }

  lemma MinutesPartInjective(m: nat, m': nat)
    requires MinutesPart(m) == MinutesPart(m')
    ensures m == m'
  {
    var r, r' := MinutesPart(m), MinutesPart(m');
    assert NatToString(m) == r[4..|r| - 4] == r'[4..|r'| - 4] == NatToString(m');
    NatToStringInjective(m, m');
  }

  /** A duration under an hour never reads like one of an hour or more. */
  lemma MinAgainstLong(a: int, b: int)
    requires a < 60 <= b
    ensures FormatDuration(a) != FormatDuration(b)
  {
    var s, t := FormatDuration(a), FormatDuration(b);
    assert s == IntToString(a) + " min";
    assert s[|s| - 1] == 'n';
    assert forall j :: 0 <= j < |s| - 4 ==> s[j] != ' ';
    LastLetter(b);
    if b % 60 != 0 {
      var h := NatToString(b / 60);
      assert t == h + " hr " + NatToString(b % 60) + " min";
      assert |h| < |t| - 4 && t[|h|] == ' ';
    }
  }

  /** The catalog's five durations as the booking page shows them. */
  lemma CatalogDurations()
    ensures FormatDuration(MockData.Catalog[0].duration) == "1 hour"
    ensures FormatDuration(MockData.Catalog[1].duration) == "1 hr 30 min"
    ensures FormatDuration(MockData.Catalog[2].duration) == "1 hr 15 min"
    ensures FormatDuration(MockData.Catalog[3].duration) == "2 hours"
    ensures FormatDuration(MockData.Catalog[4].duration) == "30 min"
  {
    KnownDurations();
  }

  lemma KnownDurations()
    ensures FormatDuration(60) == "1 hour" && FormatDuration(90) == "1 hr 30 min"
    ensures FormatDuration(75) == "1 hr 15 min" && FormatDuration(120) == "2 hours"
    ensures FormatDuration(30) == "30 min"
  {
    WholeHourTexts();
    HourAndMinutesTexts();
    assert NatToString(30) == "30";
  }

  lemma WholeHourTexts()
    ensures FormatDuration(60) == "1 hour" && FormatDuration(120) == "2 hours"
  {
    assert 60 / 60 == 1 && 60 % 60 == 0 && 120 / 60 == 2 && 120 % 60 == 0;
    assert NatToString(2) == "2";
  }

  lemma HourAndMinutesTexts()
    ensures FormatDuration(90) == "1 hr 30 min" && FormatDuration(75) == "1 hr 15 min"
  {
    HourAndMinutesText(90, "30");
    HourAndMinutesText(75, "15");
  }

  /** A duration between one and two hours that is not whole reads "1 hr M min". */
  lemma HourAndMinutesText(minutes: int, m: string)
    requires 60 < minutes < 120 && m == NatToString(minutes - 60)
    ensures FormatDuration(minutes) == "1 hr " + m + " min"
  {
    assert minutes / 60 == 1 && minutes % 60 == minutes - 60;
    assert NatToString(1) == "1";
  }
}
