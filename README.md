# jquery-dateForm: a verified model of the date form's core

`js/jquery.dateForm.js` is a jQuery plugin that draws a three-input date form. It has a day, a month and a year input, each with a pick-list under it. This project models the part with behaviour worth stating in Dafny and proves what that code promises:

- **The field validators.** These are `checkDay`, `checkMonth`, `checkYear` and `checkDate`.
- **The per-widget state.** This is the `dateForm_options` record, modelled as a class. It holds:
  - the text of the three inputs;
  - their error flags;
  - the display arrangement of the three field containers;
  - the selected item of each pick-list;
  - the number of `onError` calls.
- **The operations that change that state.** These are:
  - `checkFields`;
  - `setOrder` and `set_order`;
  - `setDate`;
  - `clear`;
  - `selectItem`;
  - the error marking of `doErrorField`;
  - the click handlers of the generated day, month and year items.

## Modules

| file | module | role |
|---|---|---|
| `wrappers.dfy` | `Wrappers` | `Option` |
| `jstext.dfy` | `JsText` | The string conversions the code relies on: `$.trim`, `$.isNumeric` (on plain numerals), `parseInt(s, 10)`, `Number(s)` (as in `val() - 1`) and `String(n)` for integers. NaN is `None`. |
| `calendar.dfy` | `Calendar` | Gregorian arithmetic: the leap rule, month lengths, and `Normalize`. Within the range of a JavaScript `Date`, `Normalize` is what a `Date` makes of a (year, month, day) whose month or day is out of range. `IsRealDate` is the normalise-and-compare test. |
| `validators.dfy` | `Validators` | `checkDay` and `checkMonth` as the loops they are, proved equal to closed-form predicates. `checkYear` as a function. `checkDate` as `parseInt` of each field followed by `IsRealDate`. |
| `arrangement.dfy` | `Arrangement` | The `setOrder` loop over the order codes, as a method proved equal to the function `ApplyCodes`; the permutation and ordering lemmas. |
| `form.dfy` | `Form` | The rules behind the widget's operations. It holds `CheckFieldsSpec`, the outcome of `checkFields` on an entry, and `CheckEntry`, the same steps in the order the source takes them. It also holds the argument merge and the four clone checks of `setDate`, list-index selection, the descending year list, and the texts the list items write when clicked. |
| `widget.dfy` | `Widget` | `class DateForm`, with one method per operation. Each method states its whole new state in terms of the `Form` functions. |

## Modelling decisions

- **Field text.** Field text is any `string`. `$.isNumeric` is modelled on plain numerals only: a non-empty run of ASCII digits (see Left out).
- **White space.** `$.trim` and the leading-space skip of `parseInt` use the ECMAScript 5 white-space and line-terminator characters.
- **The loose `==` of the day and month loops.** The test `d == i` (text against a number, lines 140 and 159) is `Value(t) == i` on a numeral.
  - This is why `"07"` and `"007"` both match 7.
  - The text `"0"` is accepted by the third test and nothing else is.
- **`checkFields` (lines 85-131).**
  - It reads the untrimmed text: lengths, the padding of a one-character day or month, and the year length of exactly 4.
  - The checks themselves trim.
  - The `onError` callback counts one call for a failed field check. For a complete entry that is not a date, it counts three calls, one per `doErrorField`.
- **`doErrorField` on `find('input').eq(0..2)`.** This flags the inputs at the first three positions of the widget.
  - Those are the inputs of the field containers in the arrangement. `Present(arr)` is exactly the set of fields arranged, proved by `FlagFirstThree`.
  - A container that was never attached has no input to flag.
  - `onError` is still called three times.
  - The model assumes the host element holds no input of its own, so that positions 0..2 are the widget's own inputs.
- **Clearing the flags.** `$this.find('.error').removeClass('error')` (lines 89 and 270) reaches only the inputs of attached containers. The model clears every flag, including that of a field the `order` left out. The field check can still flag such a detached input, because lines 100-106 address it directly. The source then never clears that flag, while the model does. No operation of the plugin reads that flag back.
- **The starting arrangement.** `init` builds the three containers detached and then runs `setOrder`. The model therefore starts from the empty arrangement.
  - An `order` option naming each field once attaches all three.
  - One that omits a field leaves it out.
  - `Valid()` keeps "no container twice". A permutation, once reached, is kept.
- **`setDate` (lines 267-314).**
  - It merges each truthy argument over the current text. `Arg` covers a missing argument, a number and a string; `0` and `""` are falsy.
  - It runs the four checks on the clones in the source's short-circuit order.
  - Only when all four pass does it commit: day and month padded, the year as given, and the three list selections.
  - Otherwise the source raises. The method returns `ok == false` with fields and selections untouched.
  - `attr('value', …)` is modelled as setting the input's value, which is what it does under the plugin's jQuery 1.7.
- **`selectItem` (lines 237-246).** It clears the list's selection and selects the item at `index` only when `0 <= index < count`. A NaN index (`None`, e.g. `val() - 1` of non-numeric text) selects nothing.
- **The year list (lines 489-498).** Every year `min_year..max_year` is prepended. Item `k` therefore shows `max_year - k`, and `setDate` selects index `max_year - y`.
- **`set_order` (lines 555-560).** It stores the new order before running `setOrder`, so an order holding an unknown code stays stored. Only the moves up to that code are made.
- **Order codes.** `o.order[i]` reads an array element or, for a string order such as `"ymd"` (the plugin's own usage example), a character. A string order is modelled as the sequence of its one-character strings, e.g. `["y", "m", "d"]`.
- **Fields that pass but do not settle.** The day or month text `"0"` passes `checkDay`/`checkMonth`. `checkFields` then pads it to `"00"`, which the next check rejects (`ZeroDayQuirk`). `CheckFieldsIdempotent` therefore holds for every entry whose day and month are not `"0"`.

## Model

| member | source | states |
|---|---|---|
| Validators.ScanCandidates | js/jquery.dateForm.js:139-144 | The candidate loop over 1..hi finds a match exactly when the numeral is `"0"` or its value lies in 1..hi. |
| Validators.CheckDay | js/jquery.dateForm.js:132-150 | Accepts exactly the entries whose trimmed text is empty, `"0"`, or a numeral (padded or not) of value 1..31. |
| Validators.CheckMonth | js/jquery.dateForm.js:151-169 | Accepts exactly the entries whose trimmed text is empty, `"0"`, or a numeral of value 1..12. |
| Validators.CheckYear | js/jquery.dateForm.js:171-185 | Accepts exactly the entries whose trimmed text is empty or four digits. |
| Validators.CheckDate | js/jquery.dateForm.js:187-201 | definition: `checkDate` reads each field with `parseInt` and applies the normalise-and-compare test; a NaN field makes it false. |
| Validators.CheckDateIff | js/jquery.dateForm.js:187-201 | `checkDate` holds iff all three fields parse, and the month is in 1..12 and the day in 1..DaysInMonth(year, month). |
| Validators.BlankIsNaN | js/jquery.dateForm.js:188-190 | A blank field parses to NaN. |
| Validators.BlankFieldIsNoDate | js/jquery.dateForm.js:187-201 | An entry with a blank field is never a date. |
| Validators.ValidDayReading | js/jquery.dateForm.js:132-150 | A non-blank day accepted by `checkDay` parses to 0..31, and to 0 only when it is `"0"`. |
| Validators.ValidMonthReading | js/jquery.dateForm.js:151-169 | A non-blank month accepted by `checkMonth` parses to 0..12, and to 0 only when it is `"0"`. |
| Validators.ValidYearReading | js/jquery.dateForm.js:171-185 | A non-blank year accepted by `checkYear` parses to 0..9999. |
| Validators.ZeroPassesFieldCheckOnly | js/jquery.dateForm.js:140 | A day or month of `"0"` passes its field check but never `checkDate`. |
| Validators.DayAccepted | js/jquery.dateForm.js:132-150 | `""`, `"7"`, `"07"` and `"31"` are days. |
| Validators.DayRejected | js/jquery.dateForm.js:132-150 | `"00"` and `"32"` are not days. |
| Validators.NonNumericRejected | js/jquery.dateForm.js:136-138 | Non-numeric text such as `"7a"` is not a day. |
| Validators.PaddedEntryExample | js/jquery.dateForm.js:133 | The day is trimmed before it is checked: `" 7 "` is a day. |
| Validators.MonthExamples | js/jquery.dateForm.js:151-169 | `"12"` and `"09"` are months; `"13"` is not. |
| Validators.YearAccepted | js/jquery.dateForm.js:171-185 | `""` and `"2013"` are years. |
| Validators.YearRejected | js/jquery.dateForm.js:177-182 | A three-digit year is rejected. |
| Validators.LeapDayExamples | js/jquery.dateForm.js:187-201 | 29/2/2024 is a date and 29/2/2023 is not, however the fields are written. |
| Validators.MonthLengthExample | js/jquery.dateForm.js:187-201 | 31/4/2021 is not a date. |
| Calendar.DaysInMonth | js/jquery.dateForm.js:192-195 | February has 29 days in a leap year and 28 otherwise; April, June, September and November have 30; every other month has 31. |
| Calendar.Normalize | js/jquery.dateForm.js:192-194 | The date a `Date` reports after its month and day are set is always a valid date. |
| Calendar.IsRealDate | js/jquery.dateForm.js:192-195 | definition: setting year, month and day on a `Date` and reading them back gives the same three numbers. |
| Calendar.RealDateIff | js/jquery.dateForm.js:195 | The normalise-and-compare test accepts exactly the months 1..12 with a day 1..DaysInMonth. |
| Calendar.NormalizeIdempotent | js/jquery.dateForm.js:192-195 | Normalising a normalised date changes nothing. |
| Calendar.NormalizeMonthCarry | js/jquery.dateForm.js:192 | Month m + 12 of year y is month m of year y + 1. |
| Calendar.RollForwardStep | js/jquery.dateForm.js:194 | Rolling a positive day count forward by one more day gives the successor date. |
| Calendar.RollBackStep | js/jquery.dateForm.js:194 | Rolling a non-positive day count back by one less day gives the successor date. |
| Calendar.NormalizeStep | js/jquery.dateForm.js:194 | One more in the day field is exactly one calendar day later, across month and year ends. |
| Calendar.LeapDayExamples | js/jquery.dateForm.js:195 | 29/2/2024 is real; 29/2/2023 is not. |
| Calendar.CenturyExamples | js/jquery.dateForm.js:195 | 29/2/2000 is real; 29/2/1900 is not. |
| Calendar.MonthLengthExamples | js/jquery.dateForm.js:195 | 30/4/2021 is real; 31/4/2021 is not. |
| Calendar.NormalizeExamples | js/jquery.dateForm.js:192-194 | 29/2/2023 becomes 1/3/2023, month 13 of 2021 becomes January 2022, and day 0 of March 2021 becomes 28/2/2021. |
| JsText.Decimal | js/jquery.dateForm.js:384 | The numeral of a number is non-empty, all digits, one character exactly below 10 and two for 10..99. |
| JsText.ValueOfDecimal | js/jquery.dateForm.js:384-386 | Reading back the numeral of `n` gives `n`. |
| JsText.ValueLeadingZero | js/jquery.dateForm.js:140 | `"0" + i` has the value of `i`. |
| JsText.TrimNumeral | js/jquery.dateForm.js:133 | `$.trim` leaves a numeral alone. |
| JsText.ParseIntOfNumeral | js/jquery.dateForm.js:188-190 | `parseInt` of text that trims to a numeral is that numeral's value. |
| JsText.ParseIntOfIntText | js/jquery.dateForm.js:493 | `parseInt(String(n), 10) == n` for every integer. |
| JsText.ToNumberAgreesWithParseInt | js/jquery.dateForm.js:307-309 | `Number` and `parseInt` agree on text that trims to a numeral; on blank text they differ (0 against NaN). |
| Arrangement.Remove | js/jquery.dateForm.js:251 | Taking a container out leaves the others, with that field's count at zero. |
| Arrangement.MoveToEnd | js/jquery.dateForm.js:251-257 | `appendTo` leaves each other field's count alone, counts the moved field once and puts it last. |
| Arrangement.FieldsOf | js/jquery.dateForm.js:249-258 | An all-recognised order names its fields position by position. |
| Arrangement.CodeField | js/jquery.dateForm.js:250-259 | definition: the codes `"d"`, `"m"` and `"y"` name the day, month and year containers; any other code is unrecognised. |
| Arrangement.ApplyCodes | js/jquery.dateForm.js:249-262 | definition: each recognised code in turn moves its container to the end, and the first unrecognised code ends the loop. |
| Arrangement.RunOrder | js/jquery.dateForm.js:248-262 | The loop leaves the arrangement `ApplyCodes` describes; no error is raised iff every code is recognised. |
| Arrangement.ApplyCodesKeepsPermutation | js/jquery.dateForm.js:249-262 | A permutation of the three containers stays a permutation after any order. |
| Arrangement.ApplyCodesAtMostOnce | js/jquery.dateForm.js:249-262 | No container ever appears twice. |
| Arrangement.ApplyCodesFollowsOrder | js/jquery.dateForm.js:248-262 | An order naming each of "d", "m", "y" once is all recognised, and leaves the fields in exactly that order from any start. |
| Arrangement.ApplyCodesStopsAtBadCode | js/jquery.dateForm.js:259-261 | At the first unrecognised code the loop ends: the moves before it stay made and the codes after it are ignored. |
| Arrangement.AtMostOnceLength | js/jquery.dateForm.js:122-124 | An arrangement without repeats holds one container per field present, at most three. |
| Arrangement.DefaultOrderLayout | js/jquery.dateForm.js:67 | The default order lays the fields out day, month, year. |
| Arrangement.UnrecognisedOrderExample | js/jquery.dateForm.js:259-261 | An order starting with an unknown code moves nothing and raises. |
| Form.CheckFieldsSpec | js/jquery.dateForm.js:85-131 | definition: a blank entry is left alone; otherwise the failing field checks are flagged with one `onError` call, and if none fails the date step follows. |
| Form.DateStep | js/jquery.dateForm.js:113-128 | definition: day and month are padded; on a complete entry whose padded text is not a date, the arranged inputs are flagged with three `onError` calls. |
| Form.CheckEntry | js/jquery.dateForm.js:85-131 | The steps of `checkFields` give exactly the verdict `CheckFieldsSpec` describes. |
| Form.CheckFieldsErrors | js/jquery.dateForm.js:89-112 | A blank entry: no flag, no call. Otherwise, when a check fails: text unchanged, one call, each flag iff its field fails (the year only at 4 characters). A year of another length is never flagged by the field check (the date step may still flag it through `doErrorField`). |
| Form.CheckFieldsOnCompleteEntry | js/jquery.dateForm.js:113-128 | On a complete entry that passes, day and month are padded; the arranged inputs are flagged with three calls iff the entry is not a date. |
| Form.FlagFirstThree | js/jquery.dateForm.js:122-124 | Flagging inputs 0, 1 and 2 flags exactly the fields in the arrangement. |
| Form.Pad | js/jquery.dateForm.js:114-119 | definition: a one-character day or month gets a leading `"0"`; other text is kept. `setDate` pads in the same way (lines 298-303). |
| Form.PadIdempotent | js/jquery.dateForm.js:114-119 | Padding never leaves one character, so padding twice is padding once; it keeps empty text empty. |
| Form.PadDigit | js/jquery.dateForm.js:114-119 | A padded digit parses as the digit. |
| Form.PadNonDigit | js/jquery.dateForm.js:114-119 | A padded non-digit parses as 0, where the character alone is NaN. |
| Form.PadReading | js/jquery.dateForm.js:114-121 | Padding keeps the `parseInt` reading, except that NaN may become 0. |
| Form.PadKeepsDate | js/jquery.dateForm.js:114-121 | Padding day and month never changes the `checkDate` verdict. |
| Form.PadSpace | js/jquery.dateForm.js:114-119 | A single space trims to `""` and padded trims to `"0"`. |
| Form.PadKeepsValid | js/jquery.dateForm.js:114-119 | A field other than `"0"` that passes its check still passes once padded. |
| Form.ZeroAccepted | js/jquery.dateForm.js:140 | The loops' third test accepts `"0"`. |
| Form.ZeroDayQuirk | js/jquery.dateForm.js:114-116 | Day `"0"` passes and is padded to `"00"`, which the next `checkFields` flags. |
| Form.CheckFieldsIdempotent | js/jquery.dateForm.js:85-131 | Running `checkFields` on its own result again gives the same verdict, unless the day or month is `"0"`. |
| Form.PaddedSettles | js/jquery.dateForm.js:85-131 | On a passing entry whose padding still passes, the second run takes the same branch as the first. |
| Form.DateStepSettles | js/jquery.dateForm.js:113-128 | The date step on its own padded result decides the same. |
| Form.Merge | js/jquery.dateForm.js:272-289 | definition: a truthy argument, as text, replaces the field's current text; a falsy one keeps it. |
| Form.MergeEntry | js/jquery.dateForm.js:272-294 | definition: the three merged values the clones are given. |
| Form.Acceptable | js/jquery.dateForm.js:295 | definition: the four checks `setDate` requires of the clones: day, month, year and date. |
| Form.CheckClones | js/jquery.dateForm.js:290-295 | The short-circuit chain on the clones passes iff all four checks hold. |
| Form.MergeFallsBack | js/jquery.dateForm.js:272-289 | A falsy argument keeps the current text; a non-empty string replaces it; a non-zero number is written as its numeral, which parses back to it. |
| Form.SetDateExample | js/jquery.dateForm.js:57 | Whatever the current fields, the entry `set_date({d: 5, m: 10, y: 2013})` merges passes all four clone checks, so the call commits "05", "10", "2013". |
| Form.PadSameReading | js/jquery.dateForm.js:296-309 | On text trimming to a numeral, padding keeps the `parseInt` reading and `Number` of the padded text agrees. |
| Form.AcceptedReadings | js/jquery.dateForm.js:295-309 | What passes the four checks parses as a real date with day 1..31, month 1..12 and year 0..9999; `Number` and `parseInt` agree on the stored text. |
| Form.CommittedPassesCheckFields | js/jquery.dateForm.js:295-306 | What `setDate` stores passes a later `checkFields` with no flag, no call and no change. |
| Form.SetDateSelections | js/jquery.dateForm.js:307-309 | `setDate` selects day - 1 and month - 1. The year selection exists iff the year is in `min_year..max_year`, and is then `max_year - y`, the item showing that year. |
| Form.Pick | js/jquery.dateForm.js:237-246 | An item is selected iff `0 <= index < count`, and it is the item at `index`. |
| Form.PickAt | js/jquery.dateForm.js:237-246 | As `Pick`; a NaN index selects nothing. |
| Form.YearItems | js/jquery.dateForm.js:489-498 | The year list has one item per year from `min_year` to `max_year`. |
| Form.BuildYearList | js/jquery.dateForm.js:489-498 | Prepending each year in turn builds the descending list `max_year, max_year - 1, …, min_year`. |
| Form.YearListIndex | js/jquery.dateForm.js:309 | Index `max_year - y` exists iff `y` is in range, and the item there shows `y`. |
| Form.ItemTextReading | js/jquery.dateForm.js:384-392 | A clicked day or month item writes a two-digit numeral that passes its check, parses back to its number and needs no padding. |
| Form.ClickText | js/jquery.dateForm.js:386-392 | definition: the click handler reads the item's label with `parseInt` and writes it with a `"0"` in front below 10. |
| Form.YearClickText | js/jquery.dateForm.js:493 | definition: the year click handler writes the label's `parseInt` reading back into the field. |
| Form.ClickTextOfItem | js/jquery.dateForm.js:386-392 | The click handler of item `v` writes `v` zero-padded below 10. |
| Form.YearClickTextOfItem | js/jquery.dateForm.js:493 | The click handler of a year item writes that year. |
| Widget.DateForm.constructor | js/jquery.dateForm.js:411-553 | `init`: the year list is descending over `min_year..max_year`; fields blank, no flags, no calls, nothing selected; the containers placed by `setOrder` from none attached; `initOk` (init did not raise) holds iff every code of the order option is recognised. |
| Widget.DateForm.SelectItem | js/jquery.dateForm.js:237-246 | The list's selection becomes `PickAt(index, count)`; nothing else changes. |
| Widget.DateForm.ArrangeFields | js/jquery.dateForm.js:248-265 | `setOrder`: the arrangement becomes `ApplyCodes` of the stored order and stays a permutation once it is one; no error iff every code is recognised; nothing else changes. |
| Widget.DateForm.SetOrder | js/jquery.dateForm.js:555-560 | `set_order`: the order is stored even when a code is bad. An order naming each field once leaves the containers in that order. |
| Widget.DateForm.CheckFields | js/jquery.dateForm.js:85-131 | Fields, flags and the call count become what `CheckFieldsSpec` gives; arrangement and selections are untouched. |
| Widget.DateForm.CheckDateNow | js/jquery.dateForm.js:562-566 | `check_date` holds iff the current fields parse as a real date. |
| Widget.DateForm.SetDate | js/jquery.dateForm.js:267-314 | Flags cleared. It succeeds iff the merged entry passes all four checks. On success: day and month padded, year stored, and the day, month and year items selected. On failure: fields and selections unchanged. |
| Widget.DateForm.StoreDate | js/jquery.dateForm.js:304-309 | The commit step writes the entry and selects the items for day - 1, month - 1 and `max_year - y`. |
| Widget.DateForm.Clear | js/jquery.dateForm.js:351-359 | All fields empty and no item selected; flags and calls unchanged. |
| Widget.DateForm.ClearTwice | js/jquery.dateForm.js:351-359 | Clearing twice leaves the state one `clear` leaves. |
| Widget.DateForm.ClickListItem | js/jquery.dateForm.js:382-399 | A click on day or month item `k` writes `k + 1` zero-padded, selects item `k` and leaves the state `checkFields` gives on that entry. |
| Widget.DateForm.ClickYearItem | js/jquery.dateForm.js:489-498 | A click on year item `k` writes its year, selects item `k` and leaves the state `checkFields` gives on that entry. |

## Left out

- DOM and UI code is not modelled. The bulk of `init` (HTML, CSS classes other than the error and selected flags), `openList`, `closeList`, `nextFocus`, the scroll animations and the event wiring have no behaviour to state. The event wiring covers `delegate`, focus, focusin and focusout, and the keyup handlers `onKeyUp` and the year input's handler (lines 367-381 and 500-530).
- The `last` CSS class `setOrder` moves onto the last input is not modelled.
- Validators.CheckDate: clock and time-zone drift is left out. The source starts from today's `Date`, sets the month before the year and the day, and compares with UTC getters (lines 191-195). The model states the intended date-only normalise-and-compare test.
- Validators.CheckDate / Calendar.Normalize: the range of a JavaScript `Date` is not modelled. A `Date` holds only times within ±8.64e15 ms of 1970, which is years −271821 to 275760. Outside that range `setFullYear` (line 193) gives an Invalid Date, and the getters at line 195 return NaN. So the source's `checkDate` returns false there, while the model's years are unbounded. A year such as 300000 reaches `checkDate` through `checkFields` (its six characters skip `checkYear`, line 96) or `check_date`. There the source flags the arranged inputs and calls `onError` three times; the model reads a real date, raises no flag and makes no call.
- JsText.IsNumeric: `$.isNumeric` and the loose `==` of the loops are modelled on plain digit strings only, so on other numeric text the model's verdict is the opposite of the source's. Under jQuery 1.7, `$.isNumeric` holds for text such as `"1.0"`, `"+5"`, `"0x1F"`, `"1e1"`, `"-123"` and `"12.5"`, and the loose `==` compares their numeric values. So `checkDay` accepts `"1.0"`, `"+5"` and `"0x1F"` as days 1, 5 and 31, and `checkYear` accepts four-character `"-123"` and `"12.5"`. The model rejects all of these, and its `Number` gives NaN on signed, decimal or hexadecimal text.
- JsText.IsSpace: the Unicode space separators beyond the ECMAScript 5 white space and line terminators are not modelled.
- `setPlaceholder` is not modelled: it cannot run as written. Its intended limits are 2 characters for the day and month placeholders and 4 for the year.
- The method dispatcher `$.fn.dateForm` and the `$.extend` option merging are plugin glue.
- `onError` is a foreign callback. Only its calls are counted; its effect on `$error_cont` and the `i18n` message are not modelled.
- Widget.DateForm.CheckFields (with the item clicks that run it) and Widget.DateForm.SetDate assume the `$error_cont` option is given. It defaults to `undefined` (line 79), and `$.extend` does not copy undefined values. Without it, `checkFields` (line 90) and `setDate` (line 271) throw a TypeError right after clearing the error classes. In that case nothing is padded, flagged, selected or committed, and `onError` is not called. The model does not capture that outcome.
- The source's `$(this).each` over several matched elements is not modelled. The model holds one widget.
- Widget.DateForm.SetDate: the source raises on failure. The model returns `ok == false` with the state a raise leaves: flags cleared, nothing else changed.
- Form.CheckFieldsIdempotent: it is stated only for a day and month other than `"0"`. For `"0"` the idempotence does not hold (`ZeroDayQuirk`).
