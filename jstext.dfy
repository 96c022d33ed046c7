/**
 * The JavaScript and jQuery string conversions the date form relies on:
 * `$.trim`, `$.isNumeric`, `parseInt(s, 10)`, `Number(s)` and `String(n)` for
 * integers. Strings are `seq<char>`; only ASCII digits count as digits, as in
 * `parseInt`.
 */
module JsText {
  import opened Wrappers

  predicate IsDigit(c: char) {
    '0' <= c <= '9'
  }

  /** The characters `$.trim` strips and `parseInt` skips: the ECMAScript 5 white
      space and line terminator characters (other Unicode space separators are
      not modelled). */
  predicate IsSpace(c: char) {
    c == ' ' || c == '\t' || c == '\n' || c == '\r' || c == '\U{B}' || c == '\U{C}'
    || c == '\U{A0}' || c == '\U{FEFF}' || c == '\U{2028}' || c == '\U{2029}'
  }

  predicate AllDigits(s: string) {
    forall i :: 0 <= i < |s| ==> IsDigit(s[i])
  }

  /** `$.isNumeric` on field text, restricted to plain numerals: a non-empty
      run of ASCII digits. */
  predicate IsNumeric(s: string) {
    |s| > 0 && AllDigits(s)
  }

  /** The end of the run of white space that starts at `i`. */
  function SpaceEnd(s: string, i: nat): (k: nat)
    requires i <= |s|
    ensures i <= k <= |s|
    ensures forall j :: i <= j < k ==> IsSpace(s[j])
    ensures k < |s| ==> !IsSpace(s[k])
    decreases |s| - i
  {
    if i < |s| && IsSpace(s[i]) then SpaceEnd(s, i + 1) else i
  }

  /** The start of the run of white space that ends at `j`. */
  function SpaceStart(s: string, j: nat): (k: nat)
    requires j <= |s|
    ensures k <= j
    ensures forall i :: k <= i < j ==> IsSpace(s[i])
    ensures k > 0 ==> !IsSpace(s[k - 1])
  {
    if j > 0 && IsSpace(s[j - 1]) then SpaceStart(s, j - 1) else j
  }

  /** Drops the leading white space. */
  function TrimStart(s: string): string {
    s[SpaceEnd(s, 0)..]
  }

  /** Drops the trailing white space. */
  function TrimEnd(s: string): string {
    s[..SpaceStart(s, |s|)]
  }

  /** `$.trim(s)`. */
  function Trim(s: string): string {
    TrimEnd(TrimStart(s))
  }

  function DigitValue(c: char): (n: nat)
    ensures n < 10
    ensures IsDigit(c) ==> n == c as int - '0' as int
  {
    if IsDigit(c) then c as int - '0' as int else 0
  }

  function DigitChar(n: nat): (c: char)
    requires n < 10
    ensures IsDigit(c) && DigitValue(c) == n
  {
    ('0' as int + n) as char
  }

  /** The value of a numeral, most significant digit first. */
  function Value(s: string): nat {
    if s == [] then 0 else 10 * Value(s[..|s| - 1]) + DigitValue(s[|s| - 1])
  }

  function Pow10(k: nat): (r: nat)
    ensures r >= 1
  {
    if k == 0 then 1 else 10 * Pow10(k - 1)
  }

  /** The decimal numeral of `n` without leading zeros: `String(n)`. */
  function Decimal(n: nat): (r: string)
    ensures IsNumeric(r)
    ensures n < 10 <==> |r| == 1
    ensures 10 <= n < 100 ==> |r| == 2
  {
    if n < 10 then [DigitChar(n)] else Decimal(n / 10) + [DigitChar(n % 10)]
  }

  /** `String(n)` for an integer, with a minus sign when negative. */
  function IntText(n: int): (r: string)
    ensures |r| > 0 && (IsDigit(r[0]) || r[0] == '-')
    ensures n >= 0 ==> IsNumeric(r)
  {
    if n < 0 then "-" + Decimal(-n) else Decimal(n)
  }

  /** The end of the run of digits that starts at `i`. */
  function DigitEnd(s: string, i: nat): (k: nat)
    requires i <= |s|
    ensures i <= k <= |s|
    ensures forall j :: i <= j < k ==> IsDigit(s[j])
    ensures k < |s| ==> !IsDigit(s[k])
    decreases |s| - i
  {
    if i < |s| && IsDigit(s[i]) then DigitEnd(s, i + 1) else i
  }

  /** The longest run of digits at the front of `s`. */
  function DigitPrefix(s: string): string {
    s[..DigitEnd(s, 0)]
  }

  /** The leading digits of `u` as a number; `None` (NaN) when there are none. */
  function ParseDigits(u: string): Option<int> {
    var p := DigitPrefix(u);
    if p == [] then None else Some(Value(p))
  }

  /** `parseInt(s, 10)`: skips leading white space, reads an optional sign and the
      digits after it, and ignores whatever follows them; `None` stands for NaN. */
  function ParseInt(s: string): Option<int> {
    var u := TrimStart(s);
    if u != [] && (u[0] == '-' || u[0] == '+') then
      match ParseDigits(u[1..])
      case None => None
      case Some(n) => Some(if u[0] == '-' then -n else n)
    else
      ParseDigits(u)
  }

  /** `Number(s)` (and so `s - 1`) for field text: the empty or blank string is 0,
      a trimmed numeral its value; anything else is NaN here. */
  function ToNumber(s: string): Option<int> {
    var u := Trim(s);
    if u == "" then Some(0) else if IsNumeric(u) then Some(Value(u)) else None
  }

  // ---------------------------------------------------------------------------
  // Properties
  // ---------------------------------------------------------------------------

  /** Reading back the numeral of `n` gives `n`. */
  lemma {:induction false} ValueOfDecimal(n: nat)
    ensures Value(Decimal(n)) == n
  {
    if n >= 10 {
      ValueOfDecimal(n / 10);
      var s := Decimal(n);
      assert s[..|s| - 1] == Decimal(n / 10);
    }
  }

  /** A numeral of `k` digits is below `10^k`. */
  lemma {:induction false} ValueBelowPow10(s: string)
    ensures Value(s) < Pow10(|s|)
  {
    if s != [] {
      ValueBelowPow10(s[..|s| - 1]);
    }
  }

  /** The value of a numeral of one, two or four digits, spelled out. */
  lemma ValueOfShort(s: string)
    requires 1 <= |s| <= 4
    ensures |s| == 1 ==> Value(s) == DigitValue(s[0])
    ensures |s| == 2 ==> Value(s) == 10 * DigitValue(s[0]) + DigitValue(s[1])
    ensures |s| == 4 ==> Value(s) == 1000 * DigitValue(s[0]) + 100 * DigitValue(s[1])
                                     + 10 * DigitValue(s[2]) + DigitValue(s[3])
  {
    if |s| >= 2 {
      assert s[..|s| - 1][..|s| - 2] == s[..|s| - 2];
    }
    if |s| == 4 {
      assert s[..2][..1] == s[..1];
      assert s[..3][..2] == s[..2];
    }
  }

  /** A leading zero does not change a numeral's value: `"0" + i` reads as `i`. */
  lemma {:induction false} ValueLeadingZero(s: string)
    ensures Value("0" + s) == Value(s)
  {
    if s != [] {
      var t := "0" + s;
      assert t[..|t| - 1] == "0" + s[..|s| - 1];
      ValueLeadingZero(s[..|s| - 1]);
    }
  }

  /** Text without leading or trailing spaces is left alone by `$.trim`. */
  lemma TrimNumeral(s: string)
    requires AllDigits(s)
    ensures Trim(s) == s
  {
    if s != [] {
      assert !IsSpace(s[0]) && !IsSpace(s[|s| - 1]);
    }
  }

  /** A maximal run of leading digits is the digit prefix. */
  lemma DigitPrefixIs(w: string, p: string)
    requires AllDigits(p) && |p| <= |w| && p == w[..|p|]
    requires |p| < |w| ==> !IsDigit(w[|p|])
    ensures DigitPrefix(w) == p
  {
    var r := DigitPrefix(w);
    assert |r| == |p|;
  }

  /** On text whose trimmed form is a numeral, `parseInt` reads exactly that numeral. */
  lemma ParseIntOfNumeral(s: string)
    requires IsNumeric(Trim(s))
    ensures ParseInt(s) == Some(Value(Trim(s)))
  {
    var w := TrimStart(s);
    var u := TrimEnd(w);
    assert w[0] == u[0];
    if |u| < |w| {
      assert IsSpace(w[|u|]);
    }
    DigitPrefixIs(w, u);
  }

  /** `parseInt(String(n), 10) == n`: the year-list items read back as their years. */
  lemma ParseIntOfIntText(n: int)
    ensures ParseInt(IntText(n)) == Some(n)
  {
    var k: nat := if n < 0 then -n else n;
    var d := Decimal(k);
    ValueOfDecimal(k);
    ParseIntOfSignedNumeral(d);
    assert IntText(n) == if n < 0 then "-" + d else d;
  }

  /** `parseInt` of a numeral, with or without a minus sign in front. */
  lemma ParseIntOfSignedNumeral(d: string)
    requires IsNumeric(d)
    ensures ParseInt(d) == Some(Value(d))
    ensures ParseInt("-" + d) == Some(-(Value(d) as int))
  {
    DigitPrefixIs(d, d);
    assert !IsSpace(d[0]);
    var t := "-" + d;
    assert !IsSpace(t[0]);
    assert t[1..] == d;
  }

  /** `Number` and `parseInt` agree on trimmed numerals (they differ on blank
      text, which `Number` reads as 0 and `parseInt` as NaN). */
  lemma ToNumberAgreesWithParseInt(s: string)
    requires IsNumeric(Trim(s))
    ensures ToNumber(s) == ParseInt(s)
    ensures ToNumber("") == Some(0) && ParseInt("") == None
  {
    ParseIntOfNumeral(s);
  }
}
