/** `formatDuration`, defined identically in `app/components/TrackList.tsx`
    and `app/components/PlaylistSelector.tsx`: a duration in milliseconds
    shown as whole minutes, a colon and two digits of remaining seconds. */
module Duration {

  import opened Strings

  /** `formatDuration(ms)`. Durations are non-negative, so `Math.floor` of
      the quotient is integer division; minutes are not folded into hours. */
  function FormatDuration(ms: nat): string {
    var minutes := ms / 60000;
    var seconds := (ms % 60000) / 1000;
    NatToString(minutes) + ":" + PadStart(NatToString(seconds), 2, '0')
  }

  /** The text before the colon. */
  function MinutesPart(s: string): string {
    BeforeFirst(s, ':')
  }

  /** The text after the first colon. */
  function SecondsPart(s: string): string {
    var m := MinutesPart(s);
    if |m| < |s| then s[|m| + 1..] else []
  }

  /** Reading a formatted duration back: the minutes are the digits before
      the colon, the seconds are exactly two digits below 60 after it, and
      together they give the whole seconds of the duration (the sub-second
      rest is dropped). */
  lemma FormatDurationReadsBack(ms: nat)
    ensures var s := FormatDuration(ms);
      && AllDigits(MinutesPart(s)) && |MinutesPart(s)| > 0
      && AllDigits(SecondsPart(s)) && |SecondsPart(s)| == 2
      && DigitsValue(SecondsPart(s)) < 60
      && DigitsValue(MinutesPart(s)) * 60 + DigitsValue(SecondsPart(s)) == ms / 1000
  {
    var minutes := ms / 60000;
    var seconds := (ms % 60000) / 1000;
    var m := NatToString(minutes);
    var p := PadStart(NatToString(seconds), 2, '0');
    assert FormatDuration(ms) == m + [':'] + p;
    BeforeSeparator(m, ':', p);
    assert (m + [':'] + p)[|m| + 1..] == p;
    TwoDigitSeconds(seconds);
    assert minutes * 60 + seconds == ms / 1000;
  }

  /** A second count below a minute pads to two digits denoting it. */
  lemma TwoDigitSeconds(seconds: nat)
    requires seconds < 60
    ensures var p := PadStart(NatToString(seconds), 2, '0');
      |p| == 2 && AllDigits(p) && DigitsValue(p) == seconds
  {
    var d := NatToString(seconds);
    if seconds < 10 {
      var p := PadStart(d, 2, '0');
      assert p == ['0'] + d;
      assert p[..1] == ['0'];
    } else {
      assert NatToString(seconds / 10) == [DigitChar(seconds / 10)];
    }
  }

  /** `split` stops at the first separator. */
  lemma {:induction false} BeforeSeparator(d: string, sep: char, rest: string)
    requires sep !in d
    ensures BeforeFirst(d + [sep] + rest, sep) == d
  {
    if |d| > 0 {
      assert (d + [sep] + rest)[1..] == d[1..] + [sep] + rest;
      BeforeSeparator(d[1..], sep, rest);
      assert d == [d[0]] + d[1..];
    } else {
      assert (d + [sep] + rest)[0] == sep;
    }
  }

  /** Examples: a second below a minute, a padded second count, and
      an hour, which stays in minutes. */
  lemma DurationExamples()
    ensures FormatDuration(59999) == "0:59"
    ensures FormatDuration(61000) == "1:01"
    ensures FormatDuration(3600000) == "60:00"
  {
    UnderAMinute();
    PaddedSecond();
    AnHour();
  }

  lemma UnderAMinute()
    ensures FormatDuration(59999) == "0:59"
  {
    assert NatToString(59) == "59" by { assert NatToString(5) == "5"; }
    FormatDurationOf(59999, 0, 59, "0", "59");
  }

  lemma PaddedSecond()
    ensures FormatDuration(61000) == "1:01"
  {
    assert PadStart(NatToString(1), 2, '0') == "01";
    FormatDurationOf(61000, 1, 1, "1", "01");
  }

  lemma AnHour()
    ensures FormatDuration(3600000) == "60:00"
  {
    assert NatToString(60) == "60" by { assert NatToString(6) == "6"; }
    assert PadStart(NatToString(0), 2, '0') == "00";
    FormatDurationOf(3600000, 60, 0, "60", "00");
  }

  /** `formatDuration(ms)` is the minutes' numeral, a colon and the padded
      seconds, given those numerals. */
  lemma FormatDurationOf(ms: nat, minutes: nat, seconds: nat, m: string, p: string)
    requires ms / 60000 == minutes && (ms % 60000) / 1000 == seconds
    requires NatToString(minutes) == m && PadStart(NatToString(seconds), 2, '0') == p
    ensures FormatDuration(ms) == m + ":" + p
  {
  }
}
