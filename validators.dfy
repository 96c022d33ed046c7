/**
 * The field validators of the date form: `checkDay`, `checkMonth`, `checkYear`
 * and `checkDate` (js/jquery.dateForm.js). The first three judge one field's
 * text on its own; `checkDate` judges the parsed triple.
 */
module Validators {
  import opened Wrappers
  import opened JsText
  import Calendar

  /** The test one pass of the `checkDay`/`checkMonth` loop makes for candidate
      `i`: `t == i` (numeric text against a number), `t == "0" + i` and
      `t == "0"`. */
  predicate LooseMatch(t: string, i: nat) {
    Value(t) == i || t == "0" + Decimal(i) || t == "0"
  }

  /** What the day and month loops accept, in closed form: nothing, the text
      "0", or a numeral (padded or not) whose value is in 1..hi. */
  predicate AcceptsNumeral(t: string, hi: nat) {
    t == "" || (IsNumeric(t) && (t == "0" || 1 <= Value(t) <= hi))
  }

  predicate IsValidDay(s: string) {
    AcceptsNumeral(Trim(s), 31)
  }

  predicate IsValidMonth(s: string) {
    AcceptsNumeral(Trim(s), 12)
  }

  /** The candidate loop of `checkDay` and `checkMonth`: tries 1..hi in turn,
      raising the flag and leaving at the first match. */
  method ScanCandidates(t: string, hi: nat) returns (res: bool)
    requires IsNumeric(t) && hi >= 1
    ensures res <==> t == "0" || 1 <= Value(t) <= hi
  {
    res := false;
    for i := 1 to hi + 1
      invariant !res
      invariant forall j :: 1 <= j < i ==> !LooseMatch(t, j)
    {
      if Value(t) == i || t == "0" + Decimal(i) || t == "0" {
        ValueLeadingZero(Decimal(i));
        ValueOfDecimal(i);
        res := true;
        break;
      }
    }
    if !res {
      assert !LooseMatch(t, 1);
      if 1 <= Value(t) <= hi {
        assert !LooseMatch(t, Value(t));
      }
    }
  }

  /** `checkDay`: the trimmed entry is empty, "0", or a day numeral 1..31. */
  method CheckDay(s: string) returns (ok: bool)
    ensures ok == IsValidDay(s)
  {
    var t := Trim(s);
    ok := true;
    if |t| > 0 {
      if !IsNumeric(t) {
        return false;
      }
      var res := ScanCandidates(t, 31);
      if !res {
        return false;
      }
    }
  }

  /** `checkMonth`: the trimmed entry is empty, "0", or a month numeral 1..12. */
  method CheckMonth(s: string) returns (ok: bool)
    ensures ok == IsValidMonth(s)
  {
    var t := Trim(s);
    ok := true;
    if |t| > 0 {
      if !IsNumeric(t) {
        return false;
      }
      var res := ScanCandidates(t, 12);
      if !res {
        return false;
      }
    }
  }

  /** `checkYear`: the trimmed entry is empty or exactly four digits. */
  function CheckYear(s: string): (ok: bool)
    ensures ok <==> Trim(s) == "" || (|Trim(s)| == 4 && AllDigits(Trim(s)))
  {
    var t := Trim(s);
    if |t| > 0 then
      if !IsNumeric(t) then false
      else if |t| == 4 then true
      else false
    else true
  }

  /** `checkDate`: each field read with `parseInt`, then the normalise-and-compare
      test; a field that reads as NaN makes every comparison fail. */
  function CheckDate(d: string, m: string, y: string): bool {
    match (ParseInt(d), ParseInt(m), ParseInt(y))
    case (Some(dv), Some(mv), Some(yv)) => Calendar.IsRealDate(yv, mv, dv)
    case _ => false
  }

  // ---------------------------------------------------------------------------
  // Properties
  // ---------------------------------------------------------------------------

  /** `checkDate` holds exactly when all three fields read as numbers forming a
      date that exists. */
  lemma CheckDateIff(d: string, m: string, y: string)
    ensures CheckDate(d, m, y) <==>
      ParseInt(d).Some? && ParseInt(m).Some? && ParseInt(y).Some? &&
      var dv, mv, yv := ParseInt(d).value, ParseInt(m).value, ParseInt(y).value;
      1 <= mv <= 12 && 1 <= dv <= Calendar.DaysInMonth(yv, mv)
  {
    if ParseInt(d).Some? && ParseInt(m).Some? && ParseInt(y).Some? {
      Calendar.RealDateIff(ParseInt(y).value, ParseInt(m).value, ParseInt(d).value);
    }
  }

  /** Text that trims to nothing reads as NaN. */
  lemma BlankIsNaN(s: string)
    requires Trim(s) == ""
    ensures ParseInt(s) == None
  {
  }

  /** An empty (or blank) field means there is no date. */
  lemma BlankFieldIsNoDate(d: string, m: string, y: string)
    requires Trim(d) == "" || Trim(m) == "" || Trim(y) == ""
    ensures !CheckDate(d, m, y)
  {
    if Trim(d) == "" { BlankIsNaN(d); }
    if Trim(m) == "" { BlankIsNaN(m); }
    if Trim(y) == "" { BlankIsNaN(y); }
  }

  /** A day accepted by `checkDay` reads as 0..31, and as 0 only when it is "0". */
  lemma ValidDayReading(s: string)
    requires IsValidDay(s) && Trim(s) != ""
    ensures ParseInt(s).Some? && 0 <= ParseInt(s).value <= 31
    ensures ParseInt(s).value == 0 <==> Trim(s) == "0"
  {
    ParseIntOfNumeral(s);
  }

  /** A month accepted by `checkMonth` reads as 0..12, and as 0 only when it is "0". */
  lemma ValidMonthReading(s: string)
    requires IsValidMonth(s) && Trim(s) != ""
    ensures ParseInt(s).Some? && 0 <= ParseInt(s).value <= 12
    ensures ParseInt(s).value == 0 <==> Trim(s) == "0"
  {
    ParseIntOfNumeral(s);
  }

  /** A non-empty year accepted by `checkYear` reads as a year 0..9999. */
  lemma ValidYearReading(s: string)
    requires CheckYear(s) && Trim(s) != ""
    ensures ParseInt(s).Some? && 0 <= ParseInt(s).value <= 9999
  {
    ParseIntOfNumeral(s);
    ValueBelowPow10(Trim(s));
  }

  /** "0" passes `checkDay` and `checkMonth` but never makes a date. */
  lemma ZeroPassesFieldCheckOnly(d: string, m: string, y: string)
    ensures IsValidDay("0") && IsValidMonth("0")
    ensures !CheckDate("0", m, y) && !CheckDate(d, "0", y)
  {
    TrimNumeral("0");
    assert Value("0") == 0;
    ParseIntOfNumeral("0");
    CheckDateIff("0", m, y);
    CheckDateIff(d, "0", y);
  }

  /** Day entries `checkDay` accepts, padded or not. */
  lemma DayAccepted()
    ensures IsValidDay("") && IsValidDay("7") && IsValidDay("07") && IsValidDay("31")
  {
    TrimNumeral("7");
    TrimNumeral("07");
    TrimNumeral("31");
    ValueOfShort("7");
    ValueOfShort("07");
    ValueOfShort("31");
  }

  /** Day entries `checkDay` rejects: "00" and out of range. */
  lemma DayRejected()
    ensures !IsValidDay("00") && !IsValidDay("32")
  {
    TrimNumeral("00");
    TrimNumeral("32");
    ValueOfShort("00");
    ValueOfShort("32");
  }

  /** Text with a letter in it is rejected. */
  lemma NonNumericRejected()
    ensures !IsValidDay("7a")
  {
    assert Trim("7a") == "7a";
    assert !IsDigit("7a"[1]);
  }

  /** Surrounding white space is ignored. */
  lemma PaddedEntryExample()
    ensures Trim(" 7 ") == "7" && IsValidDay(" 7 ")
  {
    assert TrimStart(" 7 ") == "7 ";
    assert TrimEnd("7 ") == "7";
    TrimNumeral("7");
    ValueOfShort("7");
  }

  /** Month entries: 1..12 accepted, 13 rejected. */
  lemma MonthExamples()
    ensures IsValidMonth("12") && IsValidMonth("09") && !IsValidMonth("13")
  {
    TrimNumeral("12");
    TrimNumeral("09");
    TrimNumeral("13");
    ValueOfShort("12");
    ValueOfShort("09");
    ValueOfShort("13");
  }

  /** Year entries `checkYear` accepts: empty, or four digits. */
  lemma YearAccepted()
    ensures CheckYear("") && CheckYear("2013")
  {
    TrimNumeral("2013");
  }

  /** A year of three digits is rejected. */
  lemma YearRejected()
    ensures !CheckYear("201")
  {
    TrimNumeral("201");
  }

  /** Any entry that reads as 29/2/2024 is a date; one that reads as 29/2/2023 is not. */
  lemma LeapDayExamples(d: string, m: string, y: string)
    requires ParseInt(d) == Some(29) && ParseInt(m) == Some(2)
    ensures ParseInt(y) == Some(2024) ==> CheckDate(d, m, y)
    ensures ParseInt(y) == Some(2023) ==> !CheckDate(d, m, y)
  {
    Calendar.LeapDayExamples();
  }

  /** Any entry that reads as 31/4/2021 is not a date: April has 30 days. */
  lemma MonthLengthExample(d: string, m: string, y: string)
    requires ParseInt(d) == Some(31) && ParseInt(m) == Some(4) && ParseInt(y) == Some(2021)
    ensures !CheckDate(d, m, y)
  {
    Calendar.MonthLengthExamples();
  }
}
