/**
 * The string-valued VAST types of vast/common.go whose values carry a format: NumericBool's
 * text form, Duration ("hh:mm:ss") and the X/Y positions of icons ([0-9]*, or a named edge).
 * Go's `for i, c := range s` walks code points at byte offsets; every string these checks accept
 * is ASCII, and any other code point is rejected wherever it stands, so walking code points
 * here gives the same verdicts.
 */
module Common {
  import opened Wrappers
  import Str = Text

  /**
   * What a New* constructor of a validated string type returns: the value and no error when the
   * value validates, otherwise the empty value and the validation error.
   */
  datatype Constructed<+E> = Constructed(value: string, err: Option<E>)

  function Construct<E>(s: string, verdict: Option<E>): (r: Constructed<E>)
    ensures r.err == verdict
    ensures verdict.None? ==> r.value == s
    ensures verdict.Some? ==> r.value == ""
  {
    if verdict.None? then Constructed(s, None) else Constructed("", verdict)
  }

  // ---------------------------------------------------------------------------------------------
  // NumericBool

  /** NumericBool.MarshalText: "1" for true, "0" for false; it never fails. */
  function MarshalNumericBool(b: bool): (r: Result<string, string>)
    ensures r.Ok? && |r.value| == 1
    ensures r.value == "1" <==> b
    ensures r.value == "0" <==> !b
  {
    if b then Ok("1") else Ok("0")
  }

  // ---------------------------------------------------------------------------------------------
  // Duration

  datatype DurationError =
    | BadFormat          // "Duration must be in the format hh:mm:ss"
    | HoursOutOfRange    // "hours must be between 00 and 23"
    | MinutesOutOfRange  // "minutes must be between 00 and 59"
    | SecondsOutOfRange  // "seconds must be between 00 and 59"
    | ZeroDuration       // "Duration cannot be 00:00:00"
    | UnderFiveSeconds   // "Duration must be at least 5 seconds"

  /** The positions of the two ':' separators of "hh:mm:ss". */
  predicate IsSeparatorIndex(i: int) {
    i == 2 || i == 5
  }

  /** Eight characters, ':' at positions 2 and 5, a decimal digit everywhere else. */
  predicate WellShaped(s: string) {
    && |s| == 8
    && s[2] == ':' && s[5] == ':'
    && forall i | 0 <= i < |s| && !IsSeparatorIndex(i) :: Str.IsDigit(s[i])
  }

  predicate AllDigits(ds: string) {
    forall i | 0 <= i < |ds| :: Str.IsDigit(ds[i])
  }

  /** The characters of s[..n] outside the separator positions, in order. */
  function DigitsBefore(s: string, n: nat): (r: string)
    requires n <= |s|
    ensures |r| <= n
    ensures (forall j | 0 <= j < n && !IsSeparatorIndex(j) :: Str.IsDigit(s[j])) ==> AllDigits(r)
  {
    if n == 0 then [] else DigitsBefore(s, n - 1) + (if IsSeparatorIndex(n - 1) then [] else [s[n - 1]])
  }

  /** The number a run of decimal digits denotes, most significant first. */
  function DecimalValue(ds: string): nat
    requires AllDigits(ds)
  {
    if ds == [] then 0 else DecimalValue(ds[..|ds| - 1]) * 10 + (ds[|ds| - 1] as int - '0' as int)
  }

  /** The six digits of a well-shaped duration, read as the single number hhmmss. */
  function HhmmssValue(s: string): nat
    requires WellShaped(s)
  {
    DecimalValue(DigitsBefore(s, 8))
  }

  /** The range checks on the hours, minutes and seconds fields of an hhmmss number. */
  function RangeVerdict(value: int): Option<DurationError> {
    var hours := value / 10000;
    var minutes := (value / 100) % 100;
    var seconds := value % 100;
    if hours < 0 || hours > 23 then Some(HoursOutOfRange)
    else if minutes < 0 || minutes > 59 then Some(MinutesOutOfRange)
    else if seconds < 0 || seconds > 59 then Some(SecondsOutOfRange)
    else None
  }

  /**
   * Duration.ValidateDuration as it is written: the range checks read the number while it is
   * still 0, before the digits are accumulated; then a zero value and a value below 5 are refused.
   */
  function DurationVerdict(s: string): Option<DurationError> {
    if !WellShaped(s) then Some(BadFormat)
    else if RangeVerdict(0).Some? then RangeVerdict(0)
    else if HhmmssValue(s) == 0 then Some(ZeroDuration)
    else if HhmmssValue(s) < 5 then Some(UnderFiveSeconds)
    else None
  }

  /** Duration.ValidateDuration: the shape checks, then the accumulation of the six digits. */
  method ValidateDuration(s: string) returns (err: Option<DurationError>)
    ensures err == DurationVerdict(s)
  {
    if |s| != 8 {
      return Some(BadFormat);
    }
    if s[2] != ':' || s[5] != ':' {
      return Some(BadFormat);
    }
    var i := 0;
    while i < |s|
      invariant 0 <= i <= |s|
      invariant forall j | 0 <= j < i && !IsSeparatorIndex(j) :: Str.IsDigit(s[j])
    {
      if !IsSeparatorIndex(i) && (s[i] < '0' || s[i] > '9') {
        return Some(BadFormat);
      }
      i := i + 1;
    }
    var numericValue := 0;
    var hours := numericValue / 10000;
    var minutes := (numericValue / 100) % 100;
    var seconds := numericValue % 100;
    if hours < 0 || hours > 23 {
      err := Some(HoursOutOfRange);
    } else if minutes < 0 || minutes > 59 {
      err := Some(MinutesOutOfRange);
    } else if seconds < 0 || seconds > 59 {
      err := Some(SecondsOutOfRange);
    } else {
      i := 0;
      while i < |s|
        invariant 0 <= i <= |s|
        invariant AllDigits(DigitsBefore(s, i))
        invariant numericValue == DecimalValue(DigitsBefore(s, i))
      {
        if !IsSeparatorIndex(i) {
          var before := DigitsBefore(s, i);
          assert DigitsBefore(s, i + 1) == before + [s[i]];
          DecimalAppend(before, s[i]);
          numericValue := numericValue * 10 + (s[i] as int - '0' as int);
          assert numericValue == DecimalValue(before + [s[i]]);
        } else {
          assert DigitsBefore(s, i) + [] == DigitsBefore(s, i);
        }
        i := i + 1;
      }
      if numericValue == 0 {
        err := Some(ZeroDuration);
      } else if numericValue < 5 {
        err := Some(UnderFiveSeconds);
      } else {
        err := None;
      }
    }
  }

  /** NewDuration: the value when ValidateDuration accepts it, else "" and the error. */
  method NewDuration(s: string) returns (r: Constructed<DurationError>)
    ensures r.err.None? <==> DurationVerdict(s).None?
    ensures r.err.None? ==> r.value == s
    ensures r.err.Some? ==> r.value == "" && r.err == DurationVerdict(s)
  {
    var err := ValidateDuration(s);
    r := Construct(s, err);
  }

  /** The two-digit field of s starting at k, as a number. */
  function Field(s: string, k: nat): nat
    requires k + 2 <= |s| && Str.IsDigit(s[k]) && Str.IsDigit(s[k + 1])
  {
    DecimalValue(s[k..k + 2])
  }

  /** Appending a digit shifts the number one decimal place and adds the digit. */
  lemma DecimalAppend(ds: string, c: char)
    requires AllDigits(ds) && Str.IsDigit(c)
    ensures AllDigits(ds + [c])
    ensures DecimalValue(ds + [c]) == DecimalValue(ds) * 10 + (c as int - '0' as int)
  {
    assert (ds + [c])[..|ds|] == ds;
  }

  lemma TwoDigits(x: char, y: char)
    requires Str.IsDigit(x) && Str.IsDigit(y)
    ensures DecimalValue([x, y]) == (x as int - '0' as int) * 10 + (y as int - '0' as int)
  {
    assert [x][..0] == [];
    assert DecimalValue([x]) == x as int - '0' as int;
    assert [x, y][..1] == [x];
  }

  lemma FieldValue(s: string, k: nat)
    requires k + 2 <= |s| && Str.IsDigit(s[k]) && Str.IsDigit(s[k + 1])
    ensures Field(s, k) == (s[k] as int - '0' as int) * 10 + (s[k + 1] as int - '0' as int)
  {
    assert s[k..k + 2] == [s[k], s[k + 1]];
    TwoDigits(s[k], s[k + 1]);
  }

  /** The digits of a well-shaped duration are its characters outside the separators. */
  lemma ShapedDigits(s: string)
    requires WellShaped(s)
    ensures DigitsBefore(s, 8) == [s[0], s[1], s[3], s[4], s[6], s[7]]
  {
    assert DigitsBefore(s, 2) == [s[0], s[1]];
    assert DigitsBefore(s, 4) == [s[0], s[1], s[3]];
    assert DigitsBefore(s, 5) == [s[0], s[1], s[3], s[4]];
    assert DigitsBefore(s, 7) == [s[0], s[1], s[3], s[4], s[6]];
  }

  /** Six digits read as one number are three two-digit numbers side by side. */
  lemma SixDigits(a: char, b: char, c: char, d: char, e: char, f: char)
    requires Str.IsDigit(a) && Str.IsDigit(b) && Str.IsDigit(c) && Str.IsDigit(d) && Str.IsDigit(e) && Str.IsDigit(f)
    ensures DecimalValue([a, b, c, d, e, f]) == DecimalValue([a, b]) * 10000 + DecimalValue([c, d]) * 100 + DecimalValue([e, f])
  {
    var da, db, dc, dd, de, df :=
      a as int - '0' as int, b as int - '0' as int, c as int - '0' as int,
      d as int - '0' as int, e as int - '0' as int, f as int - '0' as int;
    TwoDigits(a, b);
    TwoDigits(c, d);
    TwoDigits(e, f);
    assert [a, b, c][..2] == [a, b];
    assert DecimalValue([a, b, c]) == DecimalValue([a, b]) * 10 + dc;
    assert [a, b, c, d][..3] == [a, b, c];
    assert DecimalValue([a, b, c, d]) == DecimalValue([a, b, c]) * 10 + dd;
    assert [a, b, c, d, e][..4] == [a, b, c, d];
    assert DecimalValue([a, b, c, d, e]) == DecimalValue([a, b, c, d]) * 10 + de;
    assert [a, b, c, d, e, f][..5] == [a, b, c, d, e];
    assert DecimalValue([a, b, c, d, e, f]) == DecimalValue([a, b, c, d, e]) * 10 + df;
  }

  /** The hhmmss number of a well-shaped duration is its three fields side by side. */
  lemma HhmmssFields(s: string)
    requires WellShaped(s)
    ensures Field(s, 0) < 100 && Field(s, 3) < 100 && Field(s, 6) < 100
    ensures HhmmssValue(s) == Field(s, 0) * 10000 + Field(s, 3) * 100 + Field(s, 6)
  {
    FieldValue(s, 0);
    FieldValue(s, 3);
    FieldValue(s, 6);
    ShapedDigits(s);
    SixDigits(s[0], s[1], s[3], s[4], s[6], s[7]);
    assert s[0..2] == [s[0], s[1]] && s[3..5] == [s[3], s[4]] && s[6..8] == [s[6], s[7]];
  }

  /** A duration is accepted exactly when it is well shaped and its hhmmss number is at least 5. */
  lemma DurationAccepted(s: string)
    ensures DurationVerdict(s).None? <==> WellShaped(s) && HhmmssValue(s) >= 5
    ensures !WellShaped(s) ==> DurationVerdict(s) == Some(BadFormat)
    ensures WellShaped(s) && HhmmssValue(s) == 0 ==> DurationVerdict(s) == Some(ZeroDuration)
    ensures WellShaped(s) && 0 < HhmmssValue(s) < 5 ==> DurationVerdict(s) == Some(UnderFiveSeconds)
  {
    assert RangeVerdict(0) == None;
  }

  /**
   * The range checks never refuse anything: "99:99:99" is accepted, although hours above 23 and
   * minutes or seconds above 59 are meant to be refused.
   */
  lemma OutOfRangeAccepted()
    ensures WellShaped("99:99:99")
    ensures Field("99:99:99", 0) == 99 && Field("99:99:99", 3) == 99
    ensures DurationVerdict("99:99:99") == None
  {
    var s := "99:99:99";
    assert s[0..2] == "99" && s[3..5] == "99";
    HhmmssFields(s);
    DurationAccepted(s);
  }

  /** ValidateDuration with the range checks applied to the accumulated number. */
  function IntendedDurationVerdict(s: string): Option<DurationError> {
    if !WellShaped(s) then Some(BadFormat)
    else if RangeVerdict(HhmmssValue(s)).Some? then RangeVerdict(HhmmssValue(s))
    else if HhmmssValue(s) == 0 then Some(ZeroDuration)
    else if HhmmssValue(s) < 5 then Some(UnderFiveSeconds)
    else None
  }

  /**
   * With the range checks on the accumulated number, a duration is accepted exactly when it is
   * well shaped, its hours are at most 23, its minutes and seconds at most 59, and it is at
   * least 00:00:05; an out-of-range field is reported by its own error.
   */
  lemma IntendedDurationAccepted(s: string)
    ensures IntendedDurationVerdict(s).None? <==>
      && WellShaped(s)
      && Field(s, 0) <= 23 && Field(s, 3) <= 59 && Field(s, 6) <= 59
      && HhmmssValue(s) >= 5
    ensures WellShaped(s) && Field(s, 0) > 23 ==> IntendedDurationVerdict(s) == Some(HoursOutOfRange)
    ensures WellShaped(s) && Field(s, 0) <= 23 && Field(s, 3) > 59 ==>
              IntendedDurationVerdict(s) == Some(MinutesOutOfRange)
    ensures WellShaped(s) && Field(s, 0) <= 23 && Field(s, 3) <= 59 && Field(s, 6) > 59 ==>
              IntendedDurationVerdict(s) == Some(SecondsOutOfRange)
  {
    if WellShaped(s) {
      HhmmssFields(s);
      var h, m, sec := Field(s, 0), Field(s, 3), Field(s, 6);
      var v := HhmmssValue(s);
      assert v / 10000 == h && (v / 100) % 100 == m && v % 100 == sec by {
        SplitHhmmss(h, m, sec);
      }
    }
  }

  lemma SplitHhmmss(h: nat, m: nat, sec: nat)
    requires h < 100 && m < 100 && sec < 100
    ensures var v := h * 10000 + m * 100 + sec;
      v / 10000 == h && (v / 100) % 100 == m && v % 100 == sec
  {
    var v := h * 10000 + m * 100 + sec;
    assert v / 100 == h * 100 + m;
  }

  // ---------------------------------------------------------------------------------------------
  // XPosition and YPosition

  datatype PositionError =
    | XPositionInvalid  // "XPosition must be a number, 'left', or 'right'"
    | YPositionInvalid  // "YPosition must be a number, 'top', or 'bottom'"

  /** The scan of the position checks: true when no character is outside '0'..'9'. */
  function ScanDigits(s: string): (r: bool)
    ensures r <==> AllDigits(s)
  {
    if s == [] then true
    else if s[0] < '0' || s[0] > '9' then false
    else
      assert forall i | 1 <= i < |s| :: s[i] == s[1..][i - 1];
      ScanDigits(s[1..])
  }

  /** XPosition.Validate: "left", "right", or a run of digits, the empty string included. */
  function ValidateXPosition(s: string): (r: Option<PositionError>)
    ensures r.None? <==> s == "left" || s == "right" || AllDigits(s)
    ensures r.Some? ==> r.value == XPositionInvalid
  {
    if s == "left" || s == "right" then None
    else if ScanDigits(s) then None
    else Some(XPositionInvalid)
  }

  /** YPosition.Validate: "top", "bottom", or a run of digits, the empty string included. */
  function ValidateYPosition(s: string): (r: Option<PositionError>)
    ensures r.None? <==> s == "top" || s == "bottom" || AllDigits(s)
    ensures r.Some? ==> r.value == YPositionInvalid
  {
    if s == "top" || s == "bottom" then None
    else if ScanDigits(s) then None
    else Some(YPositionInvalid)
  }

  function NewXPosition(s: string): (r: Constructed<PositionError>)
    ensures r.err.None? <==> ValidateXPosition(s).None?
    ensures r.err.None? ==> r.value == s
    ensures r.err.Some? ==> r.value == "" && r.err == Some(XPositionInvalid)
  {
    Construct(s, ValidateXPosition(s))
  }

  function NewYPosition(s: string): (r: Constructed<PositionError>)
    ensures r.err.None? <==> ValidateYPosition(s).None?
    ensures r.err.None? ==> r.value == s
    ensures r.err.Some? ==> r.value == "" && r.err == Some(YPositionInvalid)
  {
    Construct(s, ValidateYPosition(s))
  }

  /** Whatever a position constructor returns validates again: on failure it is "", a run of no digits. */
  lemma ConstructedPositionsValidate(s: string)
    ensures ValidateXPosition(NewXPosition(s).value).None?
    ensures ValidateYPosition(NewYPosition(s).value).None?
  {
  }

  /** A duration value never validates as empty: NewDuration's failure value is itself refused. */
  lemma EmptyDurationRefused()
    ensures DurationVerdict("") == Some(BadFormat)
  {
  }
}
