/** Tempo banding of `app/utils/playlistOrganizer.ts`: the range string a
    rounded tempo is grouped under, the lower bound parsed back out of that
    string, and the display label of the same bands. Tempos are whole
    numbers of beats per minute, so the source's `Math.round` leaves them
    unchanged. */
module Bpm {

  import opened Wrappers
  import opened Strings

  /** `getBpmRange(bpm)`: the grouping key of a tempo. */
  function GetBpmRange(bpm: int): string {
    if bpm < 80 then "60-79"
    else if bpm < 100 then "80-99"
    else if bpm < 120 then "100-119"
    else if bpm < 140 then "120-139"
    else if bpm < 160 then "140-159"
    else if bpm < 180 then "160-179"
    else "180+"
  }

  /** The seven strings `GetBpmRange` can return. */
  predicate IsBpmRange(range: string) {
    range in {"60-79", "80-99", "100-119", "120-139", "140-159", "160-179", "180+"}
  }

  /** `parseInt(range.split('-')[0])`: the number a range string starts
      with. Every range string starts with a digit, so the parse never
      yields `NaN`. */
  function RangeBound(range: string): (bound: nat)
    requires IsBpmRange(range)
  {
    BoundsParse(range);
    ParseInt(BeforeFirst(range, '-')).value
  }

  lemma BoundsParse(range: string)
    requires IsBpmRange(range)
    ensures ParseInt(BeforeFirst(range, '-')).Some?
  {
    assert range[0] != '-' && IsDigit(range[0]);
  }

  /** The band lower bound, stated arithmetically: 60 below 80 (including
      tempos under 60, which have no band of their own), 180 from 180 up,
      and in between the tempo rounded down to a multiple of 20. */
  function BandLowerBound(bpm: int): int {
    if bpm < 80 then 60 else if bpm >= 180 then 180 else bpm / 20 * 20
  }

  /** The group bound the organizer parses out of the range string of a
      tempo is that tempo's band lower bound. */
  lemma RangeBoundIsBandLowerBound(bpm: int)
    ensures IsBpmRange(GetBpmRange(bpm))
    ensures RangeBound(GetBpmRange(bpm)) == BandLowerBound(bpm)
  {
    if bpm < 80 {
      Bound60();
    } else if bpm < 100 {
      BandQuotient(bpm, 4);
      Bound80();
    } else if bpm < 120 {
      BandQuotient(bpm, 5);
      Bound100();
    } else if bpm < 140 {
      BandQuotient(bpm, 6);
      Bound120();
    } else if bpm < 160 {
      BandQuotient(bpm, 7);
      Bound140();
    } else if bpm < 180 {
      BandQuotient(bpm, 8);
      Bound160();
    } else {
      Bound180();
    }
  }

  /** Different range strings start with different numbers, so grouping by
      the range string and by the number parsed out of it agree. */
  lemma RangeBoundOneToOne(r1: string, r2: string)
    requires IsBpmRange(r1) && IsBpmRange(r2)
    ensures RangeBound(r1) == RangeBound(r2) <==> r1 == r2
  {
    Bound60();
    Bound80();
    Bound100();
    Bound120();
    Bound140();
    Bound160();
    Bound180();
  }

  /** Every group bound is one of the seven band starts. */
  lemma BandLowerBoundValues(bpm: int)
    ensures BandLowerBound(bpm) in {60, 80, 100, 120, 140, 160, 180}
    ensures BandLowerBound(bpm) <= bpm || bpm < 60
  {
    if 80 <= bpm < 100 {
      BandQuotient(bpm, 4);
    } else if 100 <= bpm < 120 {
      BandQuotient(bpm, 5);
    } else if 120 <= bpm < 140 {
      BandQuotient(bpm, 6);
    } else if 140 <= bpm < 160 {
      BandQuotient(bpm, 7);
    } else if 160 <= bpm < 180 {
      BandQuotient(bpm, 8);
    }
  }

  lemma BandQuotient(bpm: int, q: int)
    requires 20 * q <= bpm < 20 * q + 20
    ensures bpm / 20 == q
  {
  }

  lemma Bound60()
    ensures RangeBound("60-79") == 60
  {
    Numeral60();
    assert BeforeFirst("60-79", '-') == NatToString(60) + [] by { PrefixBefore("60-79", 2); }
    BoundOf("60-79", 60, []);
  }

  lemma Bound80()
    ensures RangeBound("80-99") == 80
  {
    Numeral80();
    assert BeforeFirst("80-99", '-') == NatToString(80) + [] by { PrefixBefore("80-99", 2); }
    BoundOf("80-99", 80, []);
  }

  lemma Bound100()
    ensures RangeBound("100-119") == 100
  {
    Numeral100();
    assert BeforeFirst("100-119", '-') == NatToString(100) + [] by { PrefixBefore("100-119", 3); }
    BoundOf("100-119", 100, []);
  }

  lemma Bound120()
    ensures RangeBound("120-139") == 120
  {
    Numeral120();
    assert BeforeFirst("120-139", '-') == NatToString(120) + [] by { PrefixBefore("120-139", 3); }
    BoundOf("120-139", 120, []);
  }

  lemma Bound140()
    ensures RangeBound("140-159") == 140
  {
    Numeral140();
    assert BeforeFirst("140-159", '-') == NatToString(140) + [] by { PrefixBefore("140-159", 3); }
    BoundOf("140-159", 140, []);
  }

  lemma Bound160()
    ensures RangeBound("160-179") == 160
  {
    Numeral160();
    assert BeforeFirst("160-179", '-') == NatToString(160) + [] by { PrefixBefore("160-179", 3); }
    BoundOf("160-179", 160, []);
  }

  lemma Bound180()
    ensures RangeBound("180+") == 180
  {
    Numeral180();
    assert BeforeFirst("180+", '-') == NatToString(180) + "+" by { PrefixBefore("180+", 4); }
    BoundOf("180+", 180, "+");
  }

  /** The numerals of the seven band starts. */
  lemma Numeral60()
    ensures NatToString(60) == "60"
  {
    assert NatToString(6) == "6";
  }

  lemma Numeral80()
    ensures NatToString(80) == "80"
  {
    assert NatToString(8) == "8";
  }

  lemma Numeral100()
    ensures NatToString(100) == "100"
  {
    assert NatToString(1) == "1" && NatToString(10) == "10";
  }

  lemma Numeral120()
    ensures NatToString(120) == "120"
  {
    assert NatToString(1) == "1" && NatToString(12) == "12";
  }

  lemma Numeral140()
    ensures NatToString(140) == "140"
  {
    assert NatToString(1) == "1" && NatToString(14) == "14";
  }

  lemma Numeral160()
    ensures NatToString(160) == "160"
  {
    assert NatToString(1) == "1" && NatToString(16) == "16";
  }

  lemma Numeral180()
    ensures NatToString(180) == "180"
  {
    assert NatToString(1) == "1" && NatToString(18) == "18";
  }

  /** A range string whose text before the hyphen is a numeral, possibly
      followed by a non-digit, has that numeral's number as its bound. */
  lemma BoundOf(range: string, n: nat, rest: string)
    requires IsBpmRange(range)
    requires BeforeFirst(range, '-') == NatToString(n) + rest
    requires rest == [] || !IsDigit(rest[0])
    ensures RangeBound(range) == n
  {
    ParseNumeral(n, rest);
  }

  /** `BeforeFirst` stops at position `n` when the characters before it are
      not the separator and the one at it is (or the string ends there). */
  lemma {:induction false} PrefixBefore(s: string, n: nat)
    requires n <= |s|
    requires forall i :: 0 <= i < n ==> s[i] != '-'
    requires n == |s| || s[n] == '-'
    ensures BeforeFirst(s, '-') == s[..n]
  {
    if n > 0 {
      PrefixBefore(s[1..], n - 1);
      assert s[..n] == [s[0]] + s[1..][..n - 1];
    }
  }

  /** A numeral followed by a non-digit parses back to its number. */
  lemma ParseNumeral(n: nat, rest: string)
    requires rest == [] || !IsDigit(rest[0])
    ensures ParseInt(NatToString(n) + rest) == Some(n)
  {
    LeadingDigitsOfNumeral(NatToString(n), rest);
  }

  lemma {:induction false} LeadingDigitsOfNumeral(digits: string, rest: string)
    requires AllDigits(digits)
    requires rest == [] || !IsDigit(rest[0])
    ensures LeadingDigits(digits + rest) == digits
  {
    if |digits| > 0 {
      assert (digits + rest)[1..] == digits[1..] + rest;
      LeadingDigitsOfNumeral(digits[1..], rest);
      assert digits == [digits[0]] + digits[1..];
    } else {
      assert digits + rest == rest;
    }
  }

  /** `getBpmRangeDisplay(bpm)`: the label shown for a band. */
  function GetBpmRangeDisplay(bpm: int): string {
    if bpm < 80 then "Downtempo (60-79 BPM)"
    else if bpm < 100 then "Hip-Hop (80-99 BPM)"
    else if bpm < 120 then "House (100-119 BPM)"
    else if bpm < 140 then "Techno (120-139 BPM)"
    else if bpm < 160 then "Drum & Bass (140-159 BPM)"
    else if bpm < 180 then "Hardcore (160-179 BPM)"
    else "Extreme (180+ BPM)"
  }

  /** The label and the grouping key use the same thresholds: two tempos get
      the same label exactly when they get the same range string. */
  lemma DisplayMatchesRange(bpm1: int, bpm2: int)
    ensures GetBpmRangeDisplay(bpm1) == GetBpmRangeDisplay(bpm2) <==> GetBpmRange(bpm1) == GetBpmRange(bpm2)
  {
  }

  /** The label of a band's lower bound is the label of every tempo in the
      band. */
  lemma DisplayOfLowerBound(bpm: int)
    ensures GetBpmRangeDisplay(BandLowerBound(bpm)) == GetBpmRangeDisplay(bpm)
  {
  }

  /** A band's lower bound lies in the band itself. */
  lemma RangeOfLowerBound(bpm: int)
    ensures GetBpmRange(BandLowerBound(bpm)) == GetBpmRange(bpm)
  {
    BandLowerBoundValues(bpm);
  }

  /** Examples: 75 falls in the lowest band, 100 opens the House band rather
      than closing Hip-Hop, and 180 already belongs to the top band. */
  lemma BandExamples()
    ensures BandLowerBound(75) == 60 && GetBpmRangeDisplay(75) == "Downtempo (60-79 BPM)"
    ensures BandLowerBound(100) == 100 && GetBpmRangeDisplay(100) == "House (100-119 BPM)"
    ensures BandLowerBound(180) == 180 && GetBpmRangeDisplay(180) == "Extreme (180+ BPM)"
  {
  }
}
