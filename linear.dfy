/**
 * The skipoffset attribute of a Linear ad (vast/linear.go): when the skip control appears,
 * either as a time "HH:MM:SS" with optional milliseconds or as a percentage of the ad's
 * duration. The check is two anchored regular expressions; each is written out below as a
 * predicate that follows the expression's structure, and then characterized in plain terms.
 * Go's \d matches the ASCII digits only.
 */
module Linear {
  import opened Wrappers
  import Str = Text
  import Common

  /** (\.?\d)* : any number of digits, each optionally preceded by one '.'. */
  predicate DotDigitGroups(t: string)
    decreases |t|
  {
    || t == []
    || (Str.IsDigit(t[0]) && DotDigitGroups(t[1..]))
    || (|t| >= 2 && t[0] == '.' && Str.IsDigit(t[1]) && DotDigitGroups(t[2..]))
  }

  /** ^1?\d?\d(\.?\d)*$ , one disjunct per choice of the two optional parts. */
  predicate PercentPattern(t: string) {
    || (|t| >= 1 && Str.IsDigit(t[0]) && DotDigitGroups(t[1..]))
    || (|t| >= 2 && Str.IsDigit(t[0]) && Str.IsDigit(t[1]) && DotDigitGroups(t[2..]))
    || (|t| >= 2 && t[0] == '1' && Str.IsDigit(t[1]) && DotDigitGroups(t[2..]))
    || (|t| >= 3 && t[0] == '1' && Str.IsDigit(t[1]) && Str.IsDigit(t[2]) && DotDigitGroups(t[3..]))
  }

  predicate IsSexagesimalTens(c: char) {
    '0' <= c <= '5'
  }

  /** ^\d{2}:[0-5]\d:[0-5]\d(\.\d\d\d)?$ */
  predicate TimePattern(s: string) {
    && (|s| == 8 || |s| == 12)
    && Str.IsDigit(s[0]) && Str.IsDigit(s[1]) && s[2] == ':'
    && IsSexagesimalTens(s[3]) && Str.IsDigit(s[4]) && s[5] == ':'
    && IsSexagesimalTens(s[6]) && Str.IsDigit(s[7])
    && (|s| == 12 ==> s[8] == '.' && Str.IsDigit(s[9]) && Str.IsDigit(s[10]) && Str.IsDigit(s[11]))
  }

  /**
   * Digits and single dots, starting and ending with a digit: every '.' stands between two
   * digits.
   */
  predicate DottedDecimal(t: string) {
    && |t| >= 1
    && Str.IsDigit(t[0])
    && forall i | 0 <= i < |t| :: Str.IsDigit(t[i]) || (t[i] == '.' && i + 1 < |t| && Str.IsDigit(t[i + 1]))
  }

  /** What the repeated group matches: digits and dots, each dot directly followed by a digit. */
  lemma {:induction false} DotDigitGroupsExactly(t: string)
    ensures DotDigitGroups(t) <==>
      forall i | 0 <= i < |t| :: Str.IsDigit(t[i]) || (t[i] == '.' && i + 1 < |t| && Str.IsDigit(t[i + 1]))
    decreases |t|
  {
    if t != [] {
      DotDigitGroupsExactly(t[1..]);
      assert forall i | 1 <= i < |t| :: t[i] == t[1..][i - 1];
      if |t| >= 2 {
        DotDigitGroupsExactly(t[2..]);
        assert forall i | 2 <= i < |t| :: t[i] == t[2..][i - 2];
      }
    }
  }

  /** A leading digit may be read as part of the repeated group. */
  lemma DigitThenGroups(t: string)
    requires |t| >= 1 && Str.IsDigit(t[0]) && DotDigitGroups(t[1..])
    ensures DotDigitGroups(t)
  {
  }

  /**
   * The percentage expression accepts exactly the dotted decimals: the optional leading "1" and
   * the optional second digit add nothing, and the number of digits is not bounded, so "1000%"
   * and "1.2.3%" pass as well as "25%" and "12.5%".
   */
  lemma PercentPatternExactly(t: string)
    ensures PercentPattern(t) <==> DottedDecimal(t)
  {
    if |t| >= 1 {
      DotDigitGroupsExactly(t[1..]);
      assert forall i | 1 <= i < |t| :: t[i] == t[1..][i - 1];
      if |t| >= 2 && Str.IsDigit(t[1]) && DotDigitGroups(t[2..]) {
        DigitThenGroups(t[1..]);
        assert t[1..][1..] == t[2..];
      }
      if |t| >= 3 && Str.IsDigit(t[1]) && Str.IsDigit(t[2]) && DotDigitGroups(t[3..]) {
        assert t[1..][1..][1..] == t[3..];
        DigitThenGroups(t[2..]);
        assert t[1..][1..] == t[2..];
        DigitThenGroups(t[1..]);
      }
    }
  }

  datatype SkipOffsetError = SkipOffsetInvalid  // "SkipOffset must match pattern (HH:MM:SS[.fff] or percentage)"

  /** SkipOffset.Validate: empty, a percentage, or a time; the percentage is tried first. */
  function ValidateSkipOffset(s: string): (r: Option<SkipOffsetError>)
    ensures r.None? <==>
      || s == ""
      || (Str.HasSuffix(s, "%") && DottedDecimal(s[..|s| - 1]))
      || TimePattern(s)
    ensures r.Some? ==> r.value == SkipOffsetInvalid
  {
    if s == [] then None
    else if Str.HasSuffix(s, "%") && PercentPattern(s[..|s| - 1]) then
      PercentPatternExactly(s[..|s| - 1]);
      None
    else if TimePattern(s) then None
    else
      assert Str.HasSuffix(s, "%") ==> !DottedDecimal(s[..|s| - 1]) by {
        if Str.HasSuffix(s, "%") {
          PercentPatternExactly(s[..|s| - 1]);
        }
      }
      Some(SkipOffsetInvalid)
  }

  /** NewSkipOffset: the value when Validate accepts it, else "" and the error. */
  function NewSkipOffset(s: string): (r: Common.Constructed<SkipOffsetError>)
    ensures r.err.None? <==> ValidateSkipOffset(s).None?
    ensures r.err.None? ==> r.value == s
    ensures r.err.Some? ==> r.value == "" && r.err == Some(SkipOffsetInvalid)
  {
    Common.Construct(s, ValidateSkipOffset(s))
  }

  /** Whatever NewSkipOffset returns validates again: on failure it is "", which is accepted. */
  lemma ConstructedOffsetValidates(s: string)
    ensures ValidateSkipOffset(NewSkipOffset(s).value).None?
  {
  }

  /**
   * A time offset without milliseconds is a well-shaped Duration whose minutes and seconds are
   * at most 59; its hours are not bounded.
   */
  lemma TimeOffsetFields(s: string)
    requires TimePattern(s) && |s| == 8
    ensures Common.WellShaped(s)
    ensures Common.Field(s, 3) <= 59 && Common.Field(s, 6) <= 59
  {
    Common.FieldValue(s, 3);
    Common.FieldValue(s, 6);
  }

  /** Percentages: whole and fractional values pass, and so does one above a hundred. */
  lemma PercentExamples()
    ensures ValidateSkipOffset("25%").None?
    ensures ValidateSkipOffset("100%").None?
    ensures ValidateSkipOffset("12.5%").None?
    ensures ValidateSkipOffset("1000%").None?
  {
    assert "25%"[..2] == "25" && PercentPattern("25");
    assert "100%"[..3] == "100" && PercentPattern("100");
    assert "12.5%"[..4] == "12.5" && PercentPattern("12.5");
    assert "1000%"[..4] == "1000" && PercentPattern("1000");
  }

  /** Times, with and without milliseconds, and the empty offset. */
  lemma TimeExamples()
    ensures ValidateSkipOffset("").None?
    ensures ValidateSkipOffset("00:00:05").None?
    ensures ValidateSkipOffset("01:30:15.250").None?
  {
    assert TimePattern("00:00:05") && TimePattern("01:30:15.250");
  }

  /** A bare sign, a doubled dot, sixty minutes and two-digit milliseconds are refused. */
  lemma RejectedExamples()
    ensures ValidateSkipOffset("%").Some?
    ensures ValidateSkipOffset("12..5%").Some?
    ensures ValidateSkipOffset("00:60:00").Some?
    ensures ValidateSkipOffset("00:00:05.25").Some?
  {
    assert "%"[..0] == "";
    assert "12..5%"[..5] == "12..5" && !DottedDecimal("12..5") by {
      assert "12..5"[2] == '.' && !Str.IsDigit("12..5"[3]);
    }
    assert !TimePattern("00:60:00") && !TimePattern("00:00:05.25");
  }
}
