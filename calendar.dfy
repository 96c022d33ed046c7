/**
 * Gregorian calendar arithmetic on dates without a time of day. Within the
 * range of a JavaScript `Date`, `Normalize` is what a `Date` does with a
 * (year, month, day) whose month or day is out of range: the month rolls over
 * into the neighbouring years, then the day rolls over into the neighbouring
 * months. Years here are unbounded.
 */
module Calendar {

  datatype Date = Date(year: int, month: int, day: int)

  /** Divisible by 4, except centuries not divisible by 400. */
  predicate IsLeapYear(y: int) {
    y % 4 == 0 && (y % 100 != 0 || y % 400 == 0)
  }

  function DaysInMonth(y: int, m: int): (n: int)
    requires 1 <= m <= 12
    ensures 28 <= n <= 31
    ensures m == 2 ==> n == (if IsLeapYear(y) then 29 else 28)
    ensures m in {4, 6, 9, 11} ==> n == 30
    ensures m !in {2, 4, 6, 9, 11} ==> n == 31
  {
    if m == 2 then (if IsLeapYear(y) then 29 else 28)
    else if m == 4 || m == 6 || m == 9 || m == 11 then 30
    else 31
  }

  /** A date that exists in the calendar. */
  predicate IsValid(dt: Date) {
    1 <= dt.month <= 12 && 1 <= dt.day <= DaysInMonth(dt.year, dt.month)
  }

  function NextMonth(y: int, m: int): (r: (int, int))
    requires 1 <= m <= 12
    ensures 1 <= r.1 <= 12
  {
    if m == 12 then (y + 1, 1) else (y, m + 1)
  }

  function PrevMonth(y: int, m: int): (r: (int, int))
    requires 1 <= m <= 12
    ensures 1 <= r.1 <= 12 && NextMonth(r.0, r.1) == (y, m)
  {
    if m == 1 then (y - 1, 12) else (y, m - 1)
  }

  /** Day `d >= 1` counted from the first of month (y, m). */
  function RollForward(y: int, m: int, d: int): (r: Date)
    requires 1 <= m <= 12 && d >= 1
    ensures IsValid(r)
    decreases d
  {
    if d <= DaysInMonth(y, m) then Date(y, m, d)
    else
      var (ny, nm) := NextMonth(y, m);
      RollForward(ny, nm, d - DaysInMonth(y, m))
  }

  /** Day `d <= 0` of month (y, m): day 0 is the last day of the month before. */
  function RollBack(y: int, m: int, d: int): (r: Date)
    requires 1 <= m <= 12 && d <= 0
    ensures IsValid(r)
    decreases -d
  {
    var (py, pm) := PrevMonth(y, m);
    var e := d + DaysInMonth(py, pm);
    if e >= 1 then Date(py, pm, e) else RollBack(py, pm, e)
  }

  /** The date a JavaScript `Date` set to year `y`, month index `m - 1` and day
      `d` reports back, within the range of a `Date`. */
  function Normalize(y: int, m: int, d: int): (r: Date)
    ensures IsValid(r)
  {
    var y1 := y + (m - 1) / 12;
    var m1 := (m - 1) % 12 + 1;
    if d >= 1 then RollForward(y1, m1, d) else RollBack(y1, m1, d)
  }

  /** The normalise-and-compare test: normalisation changes nothing. */
  predicate IsRealDate(y: int, m: int, d: int) {
    Normalize(y, m, d) == Date(y, m, d)
  }

  /** The day after a valid date. */
  function Successor(dt: Date): (r: Date)
    requires IsValid(dt)
    ensures IsValid(r)
  {
    if dt.day < DaysInMonth(dt.year, dt.month) then dt.(day := dt.day + 1)
    else
      var (ny, nm) := NextMonth(dt.year, dt.month);
      Date(ny, nm, 1)
  }

  // ---------------------------------------------------------------------------
  // Properties
  // ---------------------------------------------------------------------------

  /** The normalise-and-compare test accepts exactly the dates that exist. */
  lemma RealDateIff(y: int, m: int, d: int)
    ensures IsRealDate(y, m, d) <==> 1 <= m <= 12 && 1 <= d <= DaysInMonth(y, m)
  {
    if 1 <= m <= 12 {
      assert (m - 1) / 12 == 0 && (m - 1) % 12 == m - 1;
    }
  }

  /** Normalising twice is normalising once. */
  lemma NormalizeIdempotent(y: int, m: int, d: int)
    ensures var r := Normalize(y, m, d); Normalize(r.year, r.month, r.day) == r
  {
    var r := Normalize(y, m, d);
    RealDateIff(r.year, r.month, r.day);
  }

  /** Twelve months more is one year more. */
  lemma NormalizeMonthCarry(y: int, m: int, d: int)
    ensures Normalize(y, m + 12, d) == Normalize(y + 1, m, d)
  {
    assert (m + 11) / 12 == (m - 1) / 12 + 1;
    assert (m + 11) % 12 == (m - 1) % 12;
  }

  lemma {:induction false} RollForwardStep(y: int, m: int, d: int)
    requires 1 <= m <= 12 && d >= 1
    ensures RollForward(y, m, d + 1) == Successor(RollForward(y, m, d))
    decreases d
  {
    var n := DaysInMonth(y, m);
    if d > n {
      var (ny, nm) := NextMonth(y, m);
      RollForwardStep(ny, nm, d - n);
    }
  }

  lemma {:induction false} RollBackStep(y: int, m: int, d: int)
    requires 1 <= m <= 12 && d <= -1
    ensures RollBack(y, m, d + 1) == Successor(RollBack(y, m, d))
    decreases -d
  {
    var (py, pm) := PrevMonth(y, m);
    var e := d + DaysInMonth(py, pm);
    if e <= -1 {
      RollBackStep(py, pm, e);
    }
  }

  /** One more day in the day field is exactly one calendar day later: the
      normalisation counts days uniformly across month and year ends. */
  lemma NormalizeStep(y: int, m: int, d: int)
    ensures Normalize(y, m, d + 1) == Successor(Normalize(y, m, d))
  {
    var y1 := y + (m - 1) / 12;
    var m1 := (m - 1) % 12 + 1;
    if d >= 1 {
      RollForwardStep(y1, m1, d);
    } else if d <= -1 {
      RollBackStep(y1, m1, d);
    }
  }

  /** The leap day exists in a leap year and not in a common one. */
  lemma LeapDayExamples()
    ensures IsRealDate(2024, 2, 29) && !IsRealDate(2023, 2, 29)
  {
    RealDateIff(2024, 2, 29);
    RealDateIff(2023, 2, 29);
  }

  /** A century year is a leap year only when divisible by 400. */
  lemma CenturyExamples()
    ensures IsRealDate(2000, 2, 29) && !IsRealDate(1900, 2, 29)
  {
    RealDateIff(2000, 2, 29);
    RealDateIff(1900, 2, 29);
  }

  /** April has 30 days. */
  lemma MonthLengthExamples()
    ensures !IsRealDate(2021, 4, 31) && IsRealDate(2021, 4, 30)
  {
    RealDateIff(2021, 4, 31);
    RealDateIff(2021, 4, 30);
  }

  /** What normalisation makes of an out-of-range day or month. */
  lemma NormalizeExamples()
    ensures Normalize(2023, 2, 29) == Date(2023, 3, 1)
    ensures Normalize(2021, 13, 1) == Date(2022, 1, 1)
    ensures Normalize(2021, 3, 0) == Date(2021, 2, 28)
  {
    assert (13 - 1) / 12 == 1 && (13 - 1) % 12 == 0;
  }
}
