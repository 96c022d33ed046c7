/**
 * The rules behind the stateful operations of the date form
 * (js/jquery.dateForm.js): what `checkFields` makes of an entry, how `setDate`
 * merges its arguments with the current fields and what it commits, how a
 * list index is chosen, and the generated pick-list items.
 */
module Form {
  import opened Wrappers
  import opened JsText
  import Calendar
  import opened Validators
  import opened Arrangement

  /** The text of the day, month and year inputs. */
  datatype Entry = Entry(d: string, m: string, y: string)

  /** The error flag of each input. */
  datatype Flags = Flags(d: bool, m: bool, y: bool)

  const NoErrors := Flags(false, false, false)

  predicate IsBlank(e: Entry) {
    |e.d| == 0 && |e.m| == 0 && |e.y| == 0
  }

  predicate IsComplete(e: Entry) {
    |e.d| > 0 && |e.m| > 0 && |e.y| > 0
  }

  /** A one-character day or month gets a leading "0". */
  function Pad(t: string): string {
    if |t| == 1 then "0" + t else t
  }

  function Padded(e: Entry): Entry {
    Entry(Pad(e.d), Pad(e.m), e.y)
  }

  /** The flags the field check raises; the year is checked only when its text
      has exactly four characters. */
  function FieldErrors(e: Entry): Flags {
    Flags(!IsValidDay(e.d), !IsValidMonth(e.m), |e.y| == 4 && !CheckYear(e.y))
  }

  /** The flags `doErrorField` raises on the first three inputs of the widget:
      the inputs of the fields in the arrangement. */
  function Present(arr: seq<Field>): Flags {
    Flags(Day in arr, Month in arr, Year in arr)
  }

  /** Raises the flag of field `f`. */
  function SetFlag(fl: Flags, f: Field): Flags {
    match f
    case Day => fl.(d := true)
    case Month => fl.(m := true)
    case Year => fl.(y := true)
  }

  /** `doErrorField` on `$this.find('input').eq(k)`: the input at position `k` of
      the arrangement, if there is one. */
  function FlagAt(fl: Flags, arr: seq<Field>, k: nat): Flags {
    if k < |arr| then SetFlag(fl, arr[k]) else fl
  }

  /** The outcome of `checkFields`: the new field text, the new flags and the
      number of `onError` calls made. */
  datatype Verdict = Verdict(entry: Entry, errors: Flags, calls: nat)

  function Calls(hasOnError: bool, n: nat): nat {
    if hasOnError then n else 0
  }

  /** `checkFields` on entry `e` in a widget whose inputs are arranged as `arr`. */
  function CheckFieldsSpec(e: Entry, arr: seq<Field>, hasOnError: bool): Verdict {
    if IsBlank(e) then Verdict(e, NoErrors, 0)
    else if FieldErrors(e) != NoErrors then Verdict(e, FieldErrors(e), Calls(hasOnError, 1))
    else DateStep(e, arr, hasOnError)
  }

  /** The second step of `checkFields`, once every field has passed: pad, then
      on a complete entry run `checkDate` on the padded text. */
  function DateStep(e: Entry, arr: seq<Field>, hasOnError: bool): Verdict {
    if IsComplete(e) && !CheckDate(Pad(e.d), Pad(e.m), e.y) then
      Verdict(Padded(e), Present(arr), Calls(hasOnError, 3))
    else Verdict(Padded(e), NoErrors, 0)
  }

  /** The steps of `checkFields` on entry `e`, in the order the widget takes
      them: the three field checks (the year only at four characters), one
      `onError` call on a failure, otherwise the padding and, on a complete
      entry, the date check with `doErrorField` on inputs 0, 1 and 2. */
  method CheckEntry(e: Entry, arr: seq<Field>, hasOnError: bool) returns (v: Verdict)
    requires AtMostOnce(arr)
    ensures v == CheckFieldsSpec(e, arr, hasOnError)
  {
    var dt, mt, yt := e.d, e.m, e.y;
    var pd, pm := dt, mt;
    var flags := NoErrors;
    var calls := 0;
    if |dt| > 0 || |mt| > 0 || |yt| > 0 {
      var okDay := CheckDay(dt);
      var okMonth := CheckMonth(mt);
      var okYear := true;
      if |yt| == 4 {
        okYear := CheckYear(yt);
      }
      CheckFieldsByChecks(e, arr, hasOnError, okDay, okMonth, okYear);
      if !okDay || !okMonth || !okYear {
        flags := Flags(!okDay, !okMonth, !okYear);
        calls := Calls(hasOnError, 1);
      } else {
        pd, pm := Pad(dt), Pad(mt);
        var okDate := CheckDate(pd, pm, yt);
        DateStepByCheck(e, arr, hasOnError, |dt| > 0 && |mt| > 0 && |yt| > 0, okDate);
        if |dt| > 0 && |mt| > 0 && |yt| > 0 && !okDate {
          flags := FlagAt(FlagAt(FlagAt(flags, arr, 0), arr, 1), arr, 2);
          calls := Calls(hasOnError, 3);
          FlagFirstThree(arr);
        }
      }
    }
    v := Verdict(Entry(pd, pm, yt), flags, calls);
  }

  /** A `setDate` argument: missing, a number, or a string. */
  datatype Arg = Absent | Number(n: int) | Text(s: string)

  /** JavaScript truthiness: missing, 0 and "" are falsy. */
  predicate Truthy(a: Arg) {
    match a
    case Absent => false
    case Number(n) => n != 0
    case Text(s) => s != ""
  }

  /** The value `setDate` validates and stores for one field: the argument as
      text when it is truthy, the current text otherwise. */
  function Merge(a: Arg, current: string): string {
    if !Truthy(a) then current
    else match a
      case Number(n) => IntText(n)
      case Text(s) => s
      case Absent => current
  }

  function MergeEntry(ad: Arg, am: Arg, ay: Arg, current: Entry): Entry {
    Entry(Merge(ad, current.d), Merge(am, current.m), Merge(ay, current.y))
  }

  /** The four checks `setDate` runs on the clones before it commits. */
  predicate Acceptable(e: Entry) {
    IsValidDay(e.d) && IsValidMonth(e.m) && CheckYear(e.y) && CheckDate(e.d, e.m, e.y)
  }

  /** The short-circuit chain of checks `setDate` runs on the clones. */
  method CheckClones(e: Entry) returns (ok: bool)
    ensures ok == Acceptable(e)
  {
    ok := CheckDay(e.d);
    if ok {
      ok := CheckMonth(e.m);
    }
    if ok {
      ok := CheckYear(e.y) && CheckDate(e.d, e.m, e.y);
    }
  }

  /** `selectItem`: the item at `index` when there is one, otherwise none. */
  function Pick(index: int, count: nat): (r: Option<nat>)
    ensures r.Some? <==> 0 <= index < count
    ensures r.Some? ==> r.value == index
  {
    if 0 <= index < count then Some(index) else None
  }

  /** `selectItem` with an index that may be NaN (`None`), which selects nothing. */
  function PickAt(index: Option<int>, count: nat): (r: Option<nat>)
    ensures r.Some? <==> index.Some? && 0 <= index.value < count
    ensures r.Some? ==> r.value == index.value
  {
    match index
    case None => None
    case Some(i) => Pick(i, count)
  }

  /** `field.val() - 1`: the field's number less one, NaN (`None`) when the
      text is not a number. */
  function NumberLessOne(t: string): Option<int> {
    match ToNumber(t)
    case None => None
    case Some(v) => Some(v - 1)
  }

  /** `max_year - field.val()`, NaN (`None`) when the text is not a number. */
  function MaxYearLess(maxYear: int, t: string): Option<int> {
    match ToNumber(t)
    case None => None
    case Some(v) => Some(maxYear - v)
  }

  /** `selectItem(list, field.val() - 1)`: the item for the field's number; a
      field that is not a number (NaN) selects nothing. */
  function FieldIndex(t: string, count: nat): Option<nat> {
    PickAt(NumberLessOne(t), count)
  }

  /** `selectItem(year_list, max_year - field.val())`. */
  function YearIndex(t: string, maxYear: int, count: nat): Option<nat> {
    PickAt(MaxYearLess(maxYear, t), count)
  }

  /** The number of items of the year list. */
  function YearCount(minYear: int, maxYear: int): nat {
    if minYear <= maxYear then maxYear - minYear + 1 else 0
  }

  /** The year list as displayed: every year from `minYear` to `maxYear` was
      prepended in turn, so the latest year comes first. */
  function YearItems(minYear: int, maxYear: int): (r: seq<int>)
    ensures |r| == YearCount(minYear, maxYear)
  {
    seq(YearCount(minYear, maxYear), k => maxYear - k)
  }

  /** The year list construction loop: `<li>` items for `min_year..max_year`,
      each prepended to the list. */
  method BuildYearList(minYear: int, maxYear: int) returns (items: seq<int>)
    ensures items == YearItems(minYear, maxYear)
  {
    items := [];
    var j := minYear;
    while j <= maxYear
      invariant minYear <= maxYear ==> j <= maxYear + 1
      invariant minYear > maxYear ==> j == minYear
      invariant |items| == j - minYear
      invariant forall k :: 0 <= k < |items| ==> items[k] == j - 1 - k
    {
      items := [j] + items;
      j := j + 1;
    }
  }

  /** The text a click on day or month item `v` writes into the field. */
  function ItemText(v: nat): string {
    if v < 10 then "0" + Decimal(v) else Decimal(v)
  }

  /** The click handler of a day or month item with the given label: the
      label read by `parseInt`, with a "0" in front below 10 (a NaN reading
      is written as "NaN"). */
  function ClickText(caption: string): string {
    match ParseInt(caption)
    case None => "NaN"
    case Some(v) => if v < 10 then "0" + IntText(v) else IntText(v)
  }

  /** The click handler of a year item: the label read by `parseInt`, written
      back as a number. */
  function YearClickText(caption: string): string {
    match ParseInt(caption)
    case None => "NaN"
    case Some(v) => IntText(v)
  }

  // ---------------------------------------------------------------------------
  // Properties
  // ---------------------------------------------------------------------------

  /** Padding never leaves a one-character text, so padding twice is padding once. */
  lemma {:induction false} PadIdempotent(t: string)
    ensures |Pad(t)| != 1 && Pad(Pad(t)) == Pad(t)
    ensures Pad(t) == "" <==> t == ""
  {
  }

  /** The field check's outcome: a blank entry is left alone; otherwise the
      flags are exactly the failing checks, with one `onError` call. */
  lemma {:induction false} CheckFieldsErrors(e: Entry, arr: seq<Field>, hasOnError: bool)
    ensures IsBlank(e) ==> CheckFieldsSpec(e, arr, hasOnError) == Verdict(e, NoErrors, 0)
    ensures !IsBlank(e) && FieldErrors(e) != NoErrors ==>
      var v := CheckFieldsSpec(e, arr, hasOnError);
      v.entry == e && v.calls == Calls(hasOnError, 1) &&
      (v.errors.d <==> !IsValidDay(e.d)) && (v.errors.m <==> !IsValidMonth(e.m)) &&
      (v.errors.y <==> |e.y| == 4 && !CheckYear(e.y))
    ensures |e.y| != 4 ==> !FieldErrors(e).y
  {
  }

  /** `checkFields` on a non-blank entry, read off the outcomes of its three
      field checks. */
  lemma CheckFieldsByChecks(e: Entry, arr: seq<Field>, hasOnError: bool, okDay: bool, okMonth: bool, okYear: bool)
    requires !IsBlank(e)
    requires okDay == IsValidDay(e.d) && okMonth == IsValidMonth(e.m)
    requires okYear == (|e.y| != 4 || CheckYear(e.y))
    ensures !(okDay && okMonth && okYear) ==>
      CheckFieldsSpec(e, arr, hasOnError) == Verdict(e, Flags(!okDay, !okMonth, !okYear), Calls(hasOnError, 1))
    ensures okDay && okMonth && okYear ==> CheckFieldsSpec(e, arr, hasOnError) == DateStep(e, arr, hasOnError)
  {
  }

  /** The date step read off the completeness test and the date check. */
  lemma DateStepByCheck(e: Entry, arr: seq<Field>, hasOnError: bool, complete: bool, okDate: bool)
    requires complete == IsComplete(e) && okDate == CheckDate(Pad(e.d), Pad(e.m), e.y)
    ensures complete && !okDate ==> DateStep(e, arr, hasOnError) == Verdict(Padded(e), Present(arr), Calls(hasOnError, 3))
    ensures !(complete && !okDate) ==> DateStep(e, arr, hasOnError) == Verdict(Padded(e), NoErrors, 0)
  {
  }

  /** A padded digit reads as the digit. */
  lemma {:induction false} PadDigit(t: string)
    requires |t| == 1 && IsDigit(t[0])
    ensures ParseInt("0" + t) == ParseInt(t)
  {
    var p := "0" + t;
    assert AllDigits(p) && AllDigits(t);
    TrimNumeral(p);
    TrimNumeral(t);
    ParseIntOfNumeral(p);
    ParseIntOfNumeral(t);
    ValueLeadingZero(t);
  }

  /** A padded non-digit reads as 0; the character alone is NaN. */
  lemma {:induction false} PadNonDigit(t: string)
    requires |t| == 1 && !IsDigit(t[0])
    ensures ParseInt("0" + t) == Some(0) && ParseInt(t) == None
  {
    var p := "0" + t;
    assert SpaceEnd(p, 0) == 0;
    assert DigitEnd(p, 1) == 1;
    assert DigitPrefix(p) == "0";
    assert TrimStart(p) == p;
    assert Value("0") == 0;
    if IsSpace(t[0]) {
      assert SpaceEnd(t, 1) == 1;
      assert TrimStart(t) == [];
      assert DigitPrefix([]) == [];
    } else {
      assert SpaceEnd(t, 0) == 0;
      assert DigitEnd(t, 0) == 0;
      assert DigitEnd(t[1..], 0) == 0;
    }
  }

  /** Flagging the inputs at positions 0, 1 and 2 flags exactly the fields in
      the arrangement. */
  lemma {:induction false} FlagFirstThree(arr: seq<Field>)
    requires AtMostOnce(arr)
    ensures FlagAt(FlagAt(FlagAt(NoErrors, arr, 0), arr, 1), arr, 2) == Present(arr)
  {
    AtMostOnceLength(arr);
    if |arr| == 1 {
      assert arr == [arr[0]];
    } else if |arr| == 2 {
      assert arr == [arr[0], arr[1]];
    } else if |arr| == 3 {
      assert arr == [arr[0], arr[1], arr[2]];
    }
  }

  /** `parseInt` of a padded field reads what the unpadded one does, except that
      a single non-digit character, padded, reads as 0 instead of NaN. */
  lemma {:induction false} PadReading(t: string)
    ensures ParseInt(Pad(t)) == ParseInt(t) || (ParseInt(Pad(t)) == Some(0) && ParseInt(t) == None)
  {
    if |t| == 1 {
      if IsDigit(t[0]) {
        PadDigit(t);
      } else {
        PadNonDigit(t);
      }
    }
  }

  /** Padding changes no `checkDate` verdict: where the readings differ, the
      padded one is a day or month 0, which is never a date. */
  lemma {:induction false} PadKeepsDate(d: string, m: string, y: string)
    ensures CheckDate(Pad(d), Pad(m), y) == CheckDate(d, m, y)
  {
    PadReading(d);
    PadReading(m);
    CheckDateIff(Pad(d), Pad(m), y);
    CheckDateIff(d, m, y);
  }

  /** On a complete entry that passes the field check, `checkFields` pads the
      day and month and then flags the arranged inputs exactly when the entry is
      not a real date. */
  lemma {:induction false} CheckFieldsOnCompleteEntry(e: Entry, arr: seq<Field>, hasOnError: bool)
    requires IsComplete(e) && FieldErrors(e) == NoErrors
    ensures var v := CheckFieldsSpec(e, arr, hasOnError);
      v.entry == Padded(e) &&
      (CheckDate(e.d, e.m, e.y) ==> v.errors == NoErrors && v.calls == 0) &&
      (!CheckDate(e.d, e.m, e.y) ==> v.errors == Present(arr) && v.calls == Calls(hasOnError, 3))
  {
    PadKeepsDate(e.d, e.m, e.y);
  }

  /** A single white-space character, padded, trims to "0". */
  lemma {:induction false} PadSpace(t: string)
    requires |t| == 1 && IsSpace(t[0])
    ensures Trim(t) == "" && Trim("0" + t) == "0"
  {
    var p := "0" + t;
    assert TrimStart(p) == p by {
      assert !IsSpace(p[0]);
    }
    assert p[..1] == "0";
    assert TrimEnd(p) == TrimEnd(p[..1]);
    assert TrimStart(t[1..]) == [];
  }

  /** A single digit other than 0, padded, is a numeral of the same value. */
  lemma {:induction false} PadNonZeroDigit(t: string, hi: nat)
    requires |t| == 1 && IsDigit(t[0]) && t[0] != '0' && hi >= 9
    ensures AcceptsNumeral(Trim("0" + t), hi)
  {
    var p := "0" + t;
    assert AllDigits(p);
    TrimNumeral(p);
    ValueLeadingZero(t);
    NonZeroDigitValue(t);
  }

  lemma {:induction false} NonZeroDigitValue(t: string)
    requires |t| == 1 && IsDigit(t[0]) && t[0] != '0'
    ensures 1 <= Value(t) <= 9
  {
    ValueOfShort(t);
  }

  /** A single character that is not white space trims to itself. */
  lemma {:induction false} TrimSingle(t: string)
    requires |t| == 1 && !IsSpace(t[0])
    ensures Trim(t) == t
  {
    assert TrimStart(t) == t;
  }

  /** A field that passes its check still passes once padded, unless it is the
      text "0", which becomes "00". */
  lemma {:induction false} PadKeepsValid(t: string, hi: nat)
    requires hi >= 9 && AcceptsNumeral(Trim(t), hi) && t != "0"
    ensures AcceptsNumeral(Trim(Pad(t)), hi)
  {
    if |t| == 1 {
      if IsSpace(t[0]) {
        PadSpaceValid(t, hi);
      } else {
        PadCharValid(t, hi);
      }
    }
  }

  lemma {:induction false} PadSpaceValid(t: string, hi: nat)
    requires |t| == 1 && IsSpace(t[0])
    ensures AcceptsNumeral(Trim("0" + t), hi)
  {
    PadSpace(t);
    ZeroAccepted(hi);
  }

  /** The loops' third test accepts the text "0" itself. */
  lemma {:induction false} ZeroAccepted(hi: nat)
    ensures AcceptsNumeral("0", hi)
  {
  }

  lemma {:induction false} PadCharValid(t: string, hi: nat)
    requires |t| == 1 && !IsSpace(t[0]) && hi >= 9 && AcceptsNumeral(Trim(t), hi) && t != "0"
    ensures AcceptsNumeral(Trim("0" + t), hi)
  {
    TrimSingle(t);
    assert IsDigit(t[0]);
    assert t == [t[0]];
    PadNonZeroDigit(t, hi);
  }

  /** The zero quirk: "0" passes the day check, is padded to "00", and the next
      check flags it. */
  lemma {:induction false} ZeroDayQuirk(arr: seq<Field>, hasOnError: bool)
    ensures var v := CheckFieldsSpec(Entry("0", "", ""), arr, hasOnError);
      v == Verdict(Entry("00", "", ""), NoErrors, 0) &&
      CheckFieldsSpec(v.entry, arr, hasOnError).errors.d
  {
    ZeroPassesFieldCheckOnly("", "", "");
    DayRejected();
    assert IsValidMonth("") && CheckYear("") by {
      assert Trim("") == "";
    }
    assert "0" + "0" == "00";
  }

  /** `checkFields` settles: running it again on its own result changes nothing,
      provided neither the day nor the month is the text "0". */
  lemma {:induction false} CheckFieldsIdempotent(e: Entry, arr: seq<Field>, hasOnError: bool)
    requires e.d != "0" && e.m != "0"
    ensures var v := CheckFieldsSpec(e, arr, hasOnError);
      CheckFieldsSpec(v.entry, arr, hasOnError) == v
  {
    if !IsBlank(e) && FieldErrors(e) == NoErrors {
      PaddedFieldsPass(e);
      PaddedSettles(e, arr, hasOnError);
    }
  }

  /** Padding keeps a passing entry passing the field check. */
  lemma {:induction false} PaddedFieldsPass(e: Entry)
    requires FieldErrors(e) == NoErrors && e.d != "0" && e.m != "0"
    ensures FieldErrors(Padded(e)) == NoErrors
  {
    PadKeepsValid(e.d, 31);
    PadKeepsValid(e.m, 12);
  }

  /** On a padded entry that passes the field check, the second run takes the
      same branch as the first. */
  lemma {:induction false} PaddedSettles(e: Entry, arr: seq<Field>, hasOnError: bool)
    requires !IsBlank(e) && FieldErrors(e) == NoErrors && FieldErrors(Padded(e)) == NoErrors
    ensures CheckFieldsSpec(Padded(e), arr, hasOnError) == CheckFieldsSpec(e, arr, hasOnError)
  {
    PadIdempotent(e.d);
    PadIdempotent(e.m);
    DateStepSettles(e, arr, hasOnError);
  }

  /** The date step on its own padded result takes the same branch again. */
  lemma {:induction false} DateStepSettles(e: Entry, arr: seq<Field>, hasOnError: bool)
    ensures DateStep(Padded(e), arr, hasOnError) == DateStep(e, arr, hasOnError)
  {
    PadIdempotent(e.d);
    PadIdempotent(e.m);
    var p := Padded(e);
    assert Padded(p) == p;
    assert IsComplete(p) == IsComplete(e);
  }

  /** On a field that trims to a numeral, padding keeps the reading, and
      `Number` of the padded text agrees with `parseInt`. */
  lemma {:induction false} PadSameReading(t: string)
    requires IsNumeric(Trim(t))
    ensures ParseInt(Pad(t)) == ParseInt(t) && ToNumber(Pad(t)) == ParseInt(t)
  {
    ParseIntOfNumeral(t);
    if |t| == 1 {
      var p := "0" + t;
      assert Trim(t) == t by {
        assert TrimStart(t) == t;
      }
      assert AllDigits(p);
      TrimNumeral(p);
      ValueLeadingZero(t);
      ParseIntOfNumeral(p);
    } else {
      ToNumberAgreesWithParseInt(t);
    }
  }

  /** What passes the four checks of `setDate` reads as a real date: a day
      1..31, a month 1..12, and a four-digit year, each read the same by
      `parseInt` and by `Number`, padded or not. */
  lemma {:induction false} AcceptedReadings(e: Entry)
    requires Acceptable(e)
    ensures ParseInt(e.d).Some? && ParseInt(e.m).Some? && ParseInt(e.y).Some?
    ensures 1 <= ParseInt(e.d).value <= 31 && 1 <= ParseInt(e.m).value <= 12
    ensures 0 <= ParseInt(e.y).value <= 9999
    ensures Calendar.IsRealDate(ParseInt(e.y).value, ParseInt(e.m).value, ParseInt(e.d).value)
    ensures ToNumber(Pad(e.d)) == ParseInt(e.d) && ToNumber(Pad(e.m)) == ParseInt(e.m)
    ensures ToNumber(e.y) == ParseInt(e.y)
    ensures ParseInt(Pad(e.d)) == ParseInt(e.d) && ParseInt(Pad(e.m)) == ParseInt(e.m)
  {
    CheckDateIff(e.d, e.m, e.y);
    if Trim(e.d) == "" { BlankIsNaN(e.d); }
    if Trim(e.m) == "" { BlankIsNaN(e.m); }
    if Trim(e.y) == "" { BlankIsNaN(e.y); }
    ValidDayReading(e.d);
    ValidMonthReading(e.m);
    ValidYearReading(e.y);
    PadSameReading(e.d);
    PadSameReading(e.m);
    ToNumberAgreesWithParseInt(e.y);
  }

  /** What `setDate` commits passes `checkFields` untouched: no flag, no call,
      no change to the text. */
  lemma {:induction false} CommittedPassesCheckFields(e: Entry, arr: seq<Field>, hasOnError: bool)
    requires Acceptable(e)
    ensures CheckFieldsSpec(Padded(e), arr, hasOnError) == Verdict(Padded(e), NoErrors, 0)
  {
    CommittedFieldsPass(e);
    CommittedIsDate(e);
    PadIdempotent(e.d);
    PadIdempotent(e.m);
  }

  /** The committed text passes the three field checks. */
  lemma {:induction false} CommittedFieldsPass(e: Entry)
    requires Acceptable(e)
    ensures FieldErrors(Padded(e)) == NoErrors
  {
    AcceptedReadings(e);
    CommittedFieldPasses(e.d, 31);
    CommittedFieldPasses(e.m, 12);
  }

  /** Day or month text that reads as 1 or more still passes its check once padded. */
  lemma {:induction false} CommittedFieldPasses(t: string, hi: nat)
    requires hi >= 9 && AcceptsNumeral(Trim(t), hi)
    requires ParseInt(t).Some? && ParseInt(t).value >= 1
    ensures AcceptsNumeral(Trim(Pad(t)), hi)
  {
    if t == "0" {
      TrimNumeral(t);
      ParseIntOfNumeral(t);
    }
    PadKeepsValid(t, hi);
  }

  /** The committed text is complete and, padded once more, still a date. */
  lemma {:induction false} CommittedIsDate(e: Entry)
    requires Acceptable(e)
    ensures IsComplete(Padded(e)) && CheckDate(Pad(Pad(e.d)), Pad(Pad(e.m)), e.y)
  {
    AcceptedReadings(e);
    PadIdempotent(e.d);
    PadIdempotent(e.m);
    PadKeepsDate(e.d, e.m, e.y);
  }

  /** The list items `setDate` selects: day d-1, month m-1, and in the year list
      index `max_year - y`, which exists exactly when the year is in range and
      then shows that year. */
  lemma {:induction false} SetDateSelections(e: Entry, minYear: int, maxYear: int)
    requires Acceptable(e)
    ensures AcceptedReadingsHold(e)
    ensures FieldIndex(Pad(e.d), 31) == Some(ParseInt(e.d).value - 1)
    ensures FieldIndex(Pad(e.m), 12) == Some(ParseInt(e.m).value - 1)
    ensures var yv := ParseInt(e.y).value;
      var r := YearIndex(e.y, maxYear, YearCount(minYear, maxYear));
      (r.Some? <==> minYear <= yv <= maxYear) &&
      (r.Some? ==> r.value == maxYear - yv && YearItems(minYear, maxYear)[r.value] == yv)
  {
    AcceptedReadings(e);
    SelectionsFromReadings(Pad(e.d), Pad(e.m), e.y, ParseInt(e.d).value, ParseInt(e.m).value,
                           ParseInt(e.y).value, minYear, maxYear);
  }

  /** The readings `setDate` relies on exist. */
  predicate AcceptedReadingsHold(e: Entry) {
    ParseInt(e.d).Some? && ParseInt(e.m).Some? && ParseInt(e.y).Some? &&
    1 <= ParseInt(e.d).value <= 31 && 1 <= ParseInt(e.m).value <= 12 &&
    ToNumber(Pad(e.d)) == ParseInt(e.d) && ToNumber(Pad(e.m)) == ParseInt(e.m) &&
    ToNumber(e.y) == ParseInt(e.y)
  }

  lemma {:induction false} SelectionsFromReadings(d: string, m: string, y: string, dv: int, mv: int, yv: int,
                                                  minYear: int, maxYear: int)
    requires ToNumber(d) == Some(dv) && ToNumber(m) == Some(mv) && ToNumber(y) == Some(yv)
    requires 1 <= dv <= 31 && 1 <= mv <= 12
    ensures FieldIndex(d, 31) == Some(dv - 1) && FieldIndex(m, 12) == Some(mv - 1)
    ensures var r := YearIndex(y, maxYear, YearCount(minYear, maxYear));
      (r.Some? <==> minYear <= yv <= maxYear) &&
      (r.Some? ==> r.value == maxYear - yv && YearItems(minYear, maxYear)[r.value] == yv)
  {
    FieldIndexOf(d, dv, 31);
    FieldIndexOf(m, mv, 12);
    YearIndexOf(y, yv, maxYear, YearCount(minYear, maxYear));
    YearListIndex(minYear, maxYear, yv);
  }

  lemma {:induction false} FieldIndexOf(t: string, v: int, count: nat)
    requires ToNumber(t) == Some(v)
    ensures FieldIndex(t, count) == Pick(v - 1, count)
  {
  }

  lemma {:induction false} YearIndexOf(t: string, v: int, maxYear: int, count: nat)
    requires ToNumber(t) == Some(v)
    ensures YearIndex(t, maxYear, count) == Pick(maxYear - v, count)
  {
  }

  /** Item `k` of the year list shows year `maxYear - k`; a year has an item
      exactly when it lies in `minYear..maxYear`. */
  lemma {:induction false} YearListIndex(minYear: int, maxYear: int, y: int)
    ensures var r := Pick(maxYear - y, YearCount(minYear, maxYear));
      (r.Some? <==> minYear <= y <= maxYear) &&
      (r.Some? ==> YearItems(minYear, maxYear)[r.value] == y)
  {
  }

  /** A clicked day or month item writes a padded two-digit numeral of its own
      number, which passes the field check and reads back as that number. */
  lemma {:induction false} ItemTextReading(v: nat)
    requires 1 <= v <= 31
    ensures |ItemText(v)| == 2 && AllDigits(ItemText(v))
    ensures IsValidDay(ItemText(v)) && (v <= 12 ==> IsValidMonth(ItemText(v)))
    ensures ParseInt(ItemText(v)) == Some(v) && ToNumber(ItemText(v)) == Some(v)
    ensures Pad(ItemText(v)) == ItemText(v)
  {
    var t := ItemText(v);
    ValueOfDecimal(v);
    if v < 10 {
      ValueLeadingZero(Decimal(v));
    }
    assert AllDigits(t);
    TrimNumeral(t);
    ParseIntOfNumeral(t);
  }

  /** `set_date({d: 5, m: 10, y: 2013})`: whatever the current fields, the
      merged entry passes the four checks, so the call commits "05", "10" and
      "2013". */
  lemma {:induction false} SetDateExample(current: Entry)
    ensures Acceptable(MergeEntry(Number(5), Number(10), Number(2013), current))
    ensures Padded(MergeEntry(Number(5), Number(10), Number(2013), current))
         == Entry(ItemText(5), ItemText(10), IntText(2013))
  {
    var e := MergeEntry(Number(5), Number(10), Number(2013), current);
    assert e == Entry(Decimal(5), Decimal(10), Decimal(2013));
    NumeralReading(5);
    NumeralReading(10);
    NumeralReading(2013);
    CheckDateIff(e.d, e.m, e.y);
  }

  /** The numeral of `n`, trimmed, is itself, and parses back to `n`. */
  lemma {:induction false} NumeralReading(n: nat)
    ensures Trim(Decimal(n)) == Decimal(n) && Value(Decimal(n)) == n
    ensures ParseInt(Decimal(n)) == Some(n)
  {
    ValueOfDecimal(n);
    TrimNumeral(Decimal(n));
    ParseIntOfNumeral(Decimal(n));
  }

  /** Falsy arguments keep the current text; truthy ones replace it. */
  lemma {:induction false} MergeFallsBack(a: Arg, current: string)
    ensures !Truthy(a) ==> Merge(a, current) == current
    ensures a.Text? && a.s != "" ==> Merge(a, current) == a.s
    ensures a.Number? && a.n != 0 ==> Merge(a, current) == IntText(a.n) && ParseInt(Merge(a, current)) == Some(a.n)
  {
    if a.Number? {
      ParseIntOfIntText(a.n);
    }
  }

  /** Item `v` of a day or month list is labelled with its number, so a click
      on it writes `ItemText(v)`. */
  lemma {:induction false} ClickTextOfItem(v: nat)
    ensures ClickText(IntText(v)) == ItemText(v)
  {
    ParseIntOfIntText(v);
  }

  /** A click on a year item writes the item's year. */
  lemma {:induction false} YearClickTextOfItem(n: int)
    ensures YearClickText(IntText(n)) == IntText(n)
  {
    ParseIntOfIntText(n);
  }
}
