/** The Camelot classifier of `app/utils/playlistOrganizer.ts`: pitch class
    and mode to a Camelot-style code, through the organizer's own 24-entry
    table. */
module Camelot {

  import opened Strings

  /** The pitch-class names, indexed by `key` (0 = C). */
  const KeyNames: seq<string> := ["C", "C#", "D", "D#", "E", "F", "F#", "G", "G#", "A", "A#", "B"]

  /** The organizer's table, entry for entry. A bare name is the major key,
      a name ending in `m` the minor key. Each code is shared by two keys and
      only even wheel numbers occur. */
  const CamelotWheel: map<string, string> := map[
    "C" := "8B", "G" := "8B",
    "D" := "10B", "A" := "10B",
    "E" := "12B", "B" := "12B",
    "F#" := "2B", "C#" := "2B",
    "G#" := "4B", "D#" := "4B",
    "A#" := "6B", "F" := "6B",
    "Am" := "8A", "Em" := "8A",
    "Bm" := "10A", "F#m" := "10A",
    "C#m" := "12A", "G#m" := "12A",
    "D#m" := "2A", "A#m" := "2A",
    "Fm" := "4A", "Cm" := "4A",
    "Gm" := "6A", "Dm" := "6A"
  ]

  /** The fallback code for a lookup miss. */
  const Unknown: string := "Unknown"

  /** `getCamelotNotation(key, mode)`. Mode 1 selects the major name, every
      other mode the minor name. A key outside 0..11 makes `keyNames[key]`
      undefined, and neither `undefined` nor `"undefinedm"` is in the table,
      so the result is the fallback. */
  function GetCamelotNotation(key: int, mode: int): string {
    if 0 <= key < |KeyNames| then
      var keyName := KeyNames[key];
      var modeName := if mode == 1 then keyName else keyName + "m";
      if modeName in CamelotWheel then CamelotWheel[modeName] else Unknown
    else Unknown
  }

  /** The position of key `key` on the conventional Camelot wheel, for the
      major key or for the minor key (whose relative major lies three
      semitones up): C major is 8B, and each fifth up moves one step. */
  function ConventionalWheelNumber(key: int, major: bool): (n: int)
    requires 0 <= key < 12
    ensures 1 <= n <= 12
  {
    var tonic := if major then key else key + 3;
    (7 * tonic + 7) % 12 + 1
  }

  /** An odd wheel position moved one step back onto an even one (1 wraps
      to 12). */
  function EvenStep(n: int): (e: int)
    requires 1 <= n <= 12
    ensures 2 <= e <= 12 && e % 2 == 0
    ensures e == n || e == n - 1 || (n == 1 && e == 12)
  {
    if n % 2 == 0 then n else if n == 1 then 12 else n - 1
  }

  /** The organizer's table is the conventional wheel with every odd
      position folded onto the even position before it: for every pitch
      class the code is that even number followed by `B` for mode 1 and `A`
      for any other mode. */
  lemma CamelotNotationIsFoldedWheel(key: int, mode: int)
    requires 0 <= key < 12
    ensures GetCamelotNotation(key, mode)
         == NatToString(EvenStep(ConventionalWheelNumber(key, mode == 1))) + (if mode == 1 then "B" else "A")
  {
    if mode == 1 {
      FoldedWheelMajor(key);
    } else {
      FoldedWheelMinor(key, mode);
    }
  }

  lemma FoldedWheelMajor(key: int)
    requires 0 <= key < 12
    ensures GetCamelotNotation(key, 1) == NatToString(EvenStep(ConventionalWheelNumber(key, true))) + "B"
  {
    if key < 3 {
      FoldedWheelMajor0To2(key);
    } else if key < 6 {
      FoldedWheelMajor3To5(key);
    } else if key < 9 {
      FoldedWheelMajor6To8(key);
    } else {
      FoldedWheelMajor9To11(key);
    }
  }

  lemma FoldedWheelMajor0To2(key: int)
    requires 0 <= key < 3
    ensures GetCamelotNotation(key, 1) == NatToString(EvenStep(ConventionalWheelNumber(key, true))) + "B"
  {
    EvenNumerals();
    var folded := EvenStep(ConventionalWheelNumber(key, true));
    if key == 0 {
      assert GetCamelotNotation(0, 1) == "8B" by {
        assert KeyNames[0] == "C" && CamelotWheel["C"] == "8B";
      }
      assert folded == 8 && NatToString(8) + "B" == "8B";
    } else if key == 1 {
      assert GetCamelotNotation(1, 1) == "2B" by {
        assert KeyNames[1] == "C#" && CamelotWheel["C#"] == "2B";
      }
      assert folded == 2 && NatToString(2) + "B" == "2B";
    } else if key == 2 {
      assert GetCamelotNotation(2, 1) == "10B" by {
        assert KeyNames[2] == "D" && CamelotWheel["D"] == "10B";
      }
      assert folded == 10 && NatToString(10) + "B" == "10B";
    }
  }

  lemma FoldedWheelMajor3To5(key: int)
    requires 3 <= key < 6
    ensures GetCamelotNotation(key, 1) == NatToString(EvenStep(ConventionalWheelNumber(key, true))) + "B"
  {
    EvenNumerals();
    var folded := EvenStep(ConventionalWheelNumber(key, true));
    if key == 3 {
      assert GetCamelotNotation(3, 1) == "4B" by {
        assert KeyNames[3] == "D#" && CamelotWheel["D#"] == "4B";
      }
      assert folded == 4 && NatToString(4) + "B" == "4B";
    } else if key == 4 {
      assert GetCamelotNotation(4, 1) == "12B" by {
        assert KeyNames[4] == "E" && CamelotWheel["E"] == "12B";
      }
      assert folded == 12 && NatToString(12) + "B" == "12B";
    } else if key == 5 {
      assert GetCamelotNotation(5, 1) == "6B" by {
        assert KeyNames[5] == "F" && CamelotWheel["F"] == "6B";
      }
      assert folded == 6 && NatToString(6) + "B" == "6B";
    }
  }

  lemma FoldedWheelMajor6To8(key: int)
    requires 6 <= key < 9
    ensures GetCamelotNotation(key, 1) == NatToString(EvenStep(ConventionalWheelNumber(key, true))) + "B"
  {
    EvenNumerals();
    var folded := EvenStep(ConventionalWheelNumber(key, true));
    if key == 6 {
      assert GetCamelotNotation(6, 1) == "2B" by {
        assert KeyNames[6] == "F#" && CamelotWheel["F#"] == "2B";
      }
      assert folded == 2 && NatToString(2) + "B" == "2B";
    } else if key == 7 {
      assert GetCamelotNotation(7, 1) == "8B" by {
        assert KeyNames[7] == "G" && CamelotWheel["G"] == "8B";
      }
      assert folded == 8 && NatToString(8) + "B" == "8B";
    } else if key == 8 {
      assert GetCamelotNotation(8, 1) == "4B" by {
        assert KeyNames[8] == "G#" && CamelotWheel["G#"] == "4B";
      }
      assert folded == 4 && NatToString(4) + "B" == "4B";
    }
  }

  lemma FoldedWheelMajor9To11(key: int)
    requires 9 <= key < 12
    ensures GetCamelotNotation(key, 1) == NatToString(EvenStep(ConventionalWheelNumber(key, true))) + "B"
  {
    EvenNumerals();
    var folded := EvenStep(ConventionalWheelNumber(key, true));
    if key == 9 {
      assert GetCamelotNotation(9, 1) == "10B" by {
        assert KeyNames[9] == "A" && CamelotWheel["A"] == "10B";
      }
      assert folded == 10 && NatToString(10) + "B" == "10B";
    } else if key == 10 {
      assert GetCamelotNotation(10, 1) == "6B" by {
        assert KeyNames[10] == "A#" && CamelotWheel["A#"] == "6B";
      }
      assert folded == 6 && NatToString(6) + "B" == "6B";
    } else if key == 11 {
      assert GetCamelotNotation(11, 1) == "12B" by {
        assert KeyNames[11] == "B" && CamelotWheel["B"] == "12B";
      }
      assert folded == 12 && NatToString(12) + "B" == "12B";
    }
  }

  lemma FoldedWheelMinor(key: int, mode: int)
    requires 0 <= key < 12 && mode != 1
    ensures GetCamelotNotation(key, mode) == NatToString(EvenStep(ConventionalWheelNumber(key, false))) + "A"
  {
    if key < 3 {
      FoldedWheelMinor0To2(key, mode);
    } else if key < 6 {
      FoldedWheelMinor3To5(key, mode);
    } else if key < 9 {
      FoldedWheelMinor6To8(key, mode);
    } else {
      FoldedWheelMinor9To11(key, mode);
    }
  }

  lemma FoldedWheelMinor0To2(key: int, mode: int)
    requires 0 <= key < 3 && mode != 1
    ensures GetCamelotNotation(key, mode) == NatToString(EvenStep(ConventionalWheelNumber(key, false))) + "A"
  {
    EvenNumerals();
    var folded := EvenStep(ConventionalWheelNumber(key, false));
    if key == 0 {
      assert GetCamelotNotation(0, mode) == "4A" by {
        assert KeyNames[0] + "m" == "Cm" && CamelotWheel["Cm"] == "4A";
      }
      assert folded == 4 && NatToString(4) + "A" == "4A";
    } else if key == 1 {
      assert GetCamelotNotation(1, mode) == "12A" by {
        assert KeyNames[1] + "m" == "C#m" && CamelotWheel["C#m"] == "12A";
      }
      assert folded == 12 && NatToString(12) + "A" == "12A";
    } else if key == 2 {
      assert GetCamelotNotation(2, mode) == "6A" by {
        assert KeyNames[2] + "m" == "Dm" && CamelotWheel["Dm"] == "6A";
      }
      assert folded == 6 && NatToString(6) + "A" == "6A";
    }
  }

  lemma FoldedWheelMinor3To5(key: int, mode: int)
    requires 3 <= key < 6 && mode != 1
    ensures GetCamelotNotation(key, mode) == NatToString(EvenStep(ConventionalWheelNumber(key, false))) + "A"
  {
    EvenNumerals();
    var folded := EvenStep(ConventionalWheelNumber(key, false));
    if key == 3 {
      assert GetCamelotNotation(3, mode) == "2A" by {
        assert KeyNames[3] + "m" == "D#m" && CamelotWheel["D#m"] == "2A";
      }
      assert folded == 2 && NatToString(2) + "A" == "2A";
    } else if key == 4 {
      assert GetCamelotNotation(4, mode) == "8A" by {
        assert KeyNames[4] + "m" == "Em" && CamelotWheel["Em"] == "8A";
      }
      assert folded == 8 && NatToString(8) + "A" == "8A";
    } else if key == 5 {
      assert GetCamelotNotation(5, mode) == "4A" by {
        assert KeyNames[5] + "m" == "Fm" && CamelotWheel["Fm"] == "4A";
      }
      assert folded == 4 && NatToString(4) + "A" == "4A";
    }
  }

  lemma FoldedWheelMinor6To8(key: int, mode: int)
    requires 6 <= key < 9 && mode != 1
    ensures GetCamelotNotation(key, mode) == NatToString(EvenStep(ConventionalWheelNumber(key, false))) + "A"
  {
    EvenNumerals();
    var folded := EvenStep(ConventionalWheelNumber(key, false));
    if key == 6 {
      assert GetCamelotNotation(6, mode) == "10A" by {
        assert KeyNames[6] + "m" == "F#m" && CamelotWheel["F#m"] == "10A";
      }
      assert folded == 10 && NatToString(10) + "A" == "10A";
    } else if key == 7 {
      assert GetCamelotNotation(7, mode) == "6A" by {
        assert KeyNames[7] + "m" == "Gm" && CamelotWheel["Gm"] == "6A";
      }
      assert folded == 6 && NatToString(6) + "A" == "6A";
    } else if key == 8 {
      assert GetCamelotNotation(8, mode) == "12A" by {
        assert KeyNames[8] + "m" == "G#m" && CamelotWheel["G#m"] == "12A";
      }
      assert folded == 12 && NatToString(12) + "A" == "12A";
    }
  }

  lemma FoldedWheelMinor9To11(key: int, mode: int)
    requires 9 <= key < 12 && mode != 1
    ensures GetCamelotNotation(key, mode) == NatToString(EvenStep(ConventionalWheelNumber(key, false))) + "A"
  {
    EvenNumerals();
    var folded := EvenStep(ConventionalWheelNumber(key, false));
    if key == 9 {
      assert GetCamelotNotation(9, mode) == "8A" by {
        assert KeyNames[9] + "m" == "Am" && CamelotWheel["Am"] == "8A";
      }
      assert folded == 8 && NatToString(8) + "A" == "8A";
    } else if key == 10 {
      assert GetCamelotNotation(10, mode) == "2A" by {
        assert KeyNames[10] + "m" == "A#m" && CamelotWheel["A#m"] == "2A";
      }
      assert folded == 2 && NatToString(2) + "A" == "2A";
    } else if key == 11 {
      assert GetCamelotNotation(11, mode) == "10A" by {
        assert KeyNames[11] + "m" == "Bm" && CamelotWheel["Bm"] == "10A";
      }
      assert folded == 10 && NatToString(10) + "A" == "10A";
    }
  }

  /** A code of the 24-position wheel: a number 1..12 and `A` or `B`. */
  ghost predicate IsWheelCode(code: string) {
    exists n :: 1 <= n <= 12 && (code == NatToString(n) + "A" || code == NatToString(n) + "B")
  }

  /** Classification: every pitch class gets a wheel code, never the
      fallback; the code ends in `B` exactly for mode 1 (any other mode is
      read as minor) and its number is even. A key outside 0..11 gets the
      fallback, which is not a wheel code. */
  lemma CamelotClassification(key: int, mode: int)
    ensures var code := GetCamelotNotation(key, mode);
      && (0 <= key < 12 ==> code != Unknown && IsWheelCode(code))
      && (0 <= key < 12 ==> (code[|code| - 1] == 'B' <==> mode == 1))
      && (0 <= key < 12 ==> exists n :: 1 <= n <= 12 && n % 2 == 0 && code[..|code| - 1] == NatToString(n))
      && (!(0 <= key < 12) ==> code == Unknown && !IsWheelCode(code))
  {
    if 0 <= key < 12 {
      PitchClassCode(key, mode);
    } else {
      UnknownIsNotWheelCode();
    }
  }

  lemma PitchClassCode(key: int, mode: int)
    requires 0 <= key < 12
    ensures var code := GetCamelotNotation(key, mode);
      && code != Unknown && IsWheelCode(code)
      && (code[|code| - 1] == 'B' <==> mode == 1)
      && exists n :: 1 <= n <= 12 && n % 2 == 0 && code[..|code| - 1] == NatToString(n)
  {
    CamelotNotationIsFoldedWheel(key, mode);
    var n := EvenStep(ConventionalWheelNumber(key, mode == 1));
    CodeShape(GetCamelotNotation(key, mode), n, mode == 1);
    assert 1 <= n <= 12 && n % 2 == 0 && GetCamelotNotation(key, mode)[..|GetCamelotNotation(key, mode)| - 1] == NatToString(n);
  }

  /** An even wheel number followed by a mode letter is a wheel code, ends
      in that letter and is not the fallback. */
  lemma CodeShape(code: string, n: int, major: bool)
    requires 1 <= n <= 12 && n % 2 == 0
    requires code == NatToString(n) + (if major then "B" else "A")
    ensures code != Unknown && IsWheelCode(code)
    ensures code[|code| - 1] == 'B' <==> major
    ensures code[..|code| - 1] == NatToString(n)
  {
    var digits := NatToString(n);
    var letter := if major then "B" else "A";
    assert code[..|code| - 1] == digits;
    assert code[|code| - 1] == letter[0];
    assert code != Unknown by {
      assert IsDigit(code[0]) && !IsDigit(Unknown[0]);
    }
  }

  lemma UnknownIsNotWheelCode()
    ensures !IsWheelCode(Unknown)
  {
  }

  /** Examples: C major is 8B, A minor is 8A, F# major is 2B. */
  lemma CamelotExamples()
    ensures GetCamelotNotation(0, 1) == "8B"
    ensures GetCamelotNotation(9, 0) == "8A"
    ensures GetCamelotNotation(6, 1) == "2B"
  {
    assert KeyNames[0] == "C" && KeyNames[9] + "m" == "Am" && KeyNames[6] == "F#";
  }

  lemma EvenNumerals()
    ensures NatToString(2) == "2" && NatToString(4) == "4" && NatToString(6) == "6"
    ensures NatToString(8) == "8" && NatToString(10) == "10" && NatToString(12) == "12"
  {
    assert NatToString(1) == "1";
  }

  lemma WheelNumerals()
    ensures NatToString(1) == "1" && NatToString(2) == "2" && NatToString(3) == "3"
    ensures NatToString(4) == "4" && NatToString(5) == "5" && NatToString(6) == "6"
    ensures NatToString(7) == "7" && NatToString(8) == "8" && NatToString(9) == "9"
    ensures NatToString(10) == "10" && NatToString(11) == "11" && NatToString(12) == "12"
  {
  }
}
