/**
 * The per-widget state of the date form (the `dateForm_options` record of
 * js/jquery.dateForm.js) and the operations that update it: `checkFields`,
 * `setOrder`/`set_order`, `setDate`, `clear`, `selectItem`, `doErrorField`
 * and the click handlers of the generated pick-list items.
 */
module Widget {
  import opened Wrappers
  import opened JsText
  import Calendar
  import opened Validators
  import opened Arrangement
  import opened Form

  /** The three pick-lists under the inputs. */
  datatype PickList = DayList | MonthList | YearList

  class DateForm {
    const minYear: int
    const maxYear: int
    /** Whether an `onError` callback was given. */
    const hasOnError: bool
    /** The years of the year list, top to bottom. */
    const yearItems: seq<int>
    /** Whether `init` got through `setOrder` without raising: false when the
        order option holds a code other than "d", "m" or "y". */
    const initOk: bool

    /** The `order` option, as last stored. */
    var order: seq<string>
    /** The field containers in display order. */
    var arrangement: seq<Field>
    var d: string
    var m: string
    var y: string
    var errors: Flags
    var daySel: Option<nat>
    var monthSel: Option<nat>
    var yearSel: Option<nat>
    /** The number of `onError` calls so far. */
    var errorCalls: nat

    function Fields(): Entry
      reads this
    {
      Entry(d, m, y)
    }

    function ListCount(list: PickList): nat
      reads this
    {
      match list
      case DayList => 31
      case MonthList => 12
      case YearList => |yearItems|
    }

    function Selection(list: PickList): Option<nat>
      reads this
    {
      match list
      case DayList => daySel
      case MonthList => monthSel
      case YearList => yearSel
    }

    /** The year list is the descending listing, no field container appears
        twice, and a selected item exists in its list. */
    predicate Valid()
      reads this
    {
      yearItems == YearItems(minYear, maxYear) &&
      AtMostOnce(arrangement) &&
      (daySel.Some? ==> daySel.value < 31) &&
      (monthSel.Some? ==> monthSel.value < 12) &&
      (yearSel.Some? ==> yearSel.value < |yearItems|)
    }

    /** `init`: builds the lists, leaves every field blank and nothing selected,
        then runs `setOrder` on the order option, starting from no container
        attached; `initOk` is false when that raised on an unrecognised code. */
    constructor (minYear: int, maxYear: int, order: seq<string>, hasOnError: bool)
      ensures Valid()
      ensures this.minYear == minYear && this.maxYear == maxYear && this.hasOnError == hasOnError
      ensures this.order == order && arrangement == ApplyCodes([], order)
      ensures initOk == AllRecognised(order)
      ensures Fields() == Entry("", "", "") && errors == NoErrors && errorCalls == 0
      ensures daySel == None && monthSel == None && yearSel == None
    {
      this.minYear := minYear;
      this.maxYear := maxYear;
      this.hasOnError := hasOnError;
      var items := BuildYearList(minYear, maxYear);
      yearItems := items;
      this.order := order;
      var arr, ok := RunOrder([], order);
      ApplyCodesAtMostOnce([], order);
      arrangement := arr;
      initOk := ok;
      d, m, y := "", "", "";
      errors := NoErrors;
      daySel, monthSel, yearSel := None, None, None;
      errorCalls := 0;
    }

    /** `selectItem`: clears the list's selection, then selects the item at
        `index` when the list has one there (`None` stands for a NaN index). */
    method SelectItem(list: PickList, index: Option<int>)
      requires Valid()
      modifies this
      ensures Valid()
      ensures Selection(list) == PickAt(index, ListCount(list))
      ensures list != DayList ==> daySel == old(daySel)
      ensures list != MonthList ==> monthSel == old(monthSel)
      ensures list != YearList ==> yearSel == old(yearSel)
      ensures Fields() == old(Fields()) && errors == old(errors) && errorCalls == old(errorCalls)
      ensures arrangement == old(arrangement) && order == old(order)
    {
      var pick := PickAt(index, ListCount(list));
      match list
      case DayList => daySel := pick;
      case MonthList => monthSel := pick;
      case YearList => yearSel := pick;
    }

    /** `setOrder`: for each code of `order`, moves that field's container to
        the end; an unrecognised code raises an error (`ok` false) and ends the
        loop with the earlier moves applied. */
    method ArrangeFields() returns (ok: bool)
      requires Valid()
      modifies this
      ensures Valid()
      ensures ok == AllRecognised(order)
      ensures arrangement == ApplyCodes(old(arrangement), order)
      ensures old(IsPermutation(arrangement)) ==> IsPermutation(arrangement)
      ensures Fields() == old(Fields()) && errors == old(errors) && errorCalls == old(errorCalls)
      ensures order == old(order) && daySel == old(daySel) && monthSel == old(monthSel)
      ensures yearSel == old(yearSel)
    {
      var arr;
      arr, ok := RunOrder(arrangement, order);
      ApplyCodesAtMostOnce(arrangement, order);
      if IsPermutation(arrangement) {
        ApplyCodesKeepsPermutation(arrangement, order);
      }
      arrangement := arr;
    }

    /** `set_order`: stores the new order first, then runs `setOrder`, so an
        order with a bad code stays stored. */
    method SetOrder(codes: seq<string>) returns (ok: bool)
      requires Valid()
      modifies this
      ensures Valid()
      ensures order == codes && ok == AllRecognised(codes)
      ensures arrangement == ApplyCodes(old(arrangement), codes)
      ensures old(IsPermutation(arrangement)) ==> IsPermutation(arrangement)
      ensures multiset(codes) == multiset{"d", "m", "y"} ==> AllRecognised(codes) && arrangement == FieldsOf(codes)
      ensures Fields() == old(Fields()) && errors == old(errors) && errorCalls == old(errorCalls)
      ensures daySel == old(daySel) && monthSel == old(monthSel) && yearSel == old(yearSel)
    {
      order := codes;
      ok := ArrangeFields();
      if multiset(codes) == multiset{"d", "m", "y"} {
        ApplyCodesFollowsOrder(old(arrangement), codes);
      }
    }

    /** `checkFields`: clears the flags; unless every field is empty, flags the
        fields that fail their check and calls `onError` once; when none fails,
        pads day and month and, on a complete entry that is not a date, flags
        the first three inputs, calling `onError` for each. */
    method CheckFields()
      requires Valid()
      modifies this
      ensures Valid()
      ensures var v := CheckFieldsSpec(old(Fields()), arrangement, hasOnError);
        Fields() == v.entry && errors == v.errors && errorCalls == old(errorCalls) + v.calls
      ensures arrangement == old(arrangement) && order == old(order)
      ensures daySel == old(daySel) && monthSel == old(monthSel) && yearSel == old(yearSel)
    {
      var v := CheckEntry(Fields(), arrangement, hasOnError);
      d, m, y := v.entry.d, v.entry.m, v.entry.y;
      errors, errorCalls := v.errors, errorCalls + v.calls;
    }

    /** `check_date`: the current fields read as a real date. */
    method CheckDateNow() returns (ok: bool)
      ensures ok <==> (ParseInt(d).Some? && ParseInt(m).Some? && ParseInt(y).Some? &&
                       Calendar.IsRealDate(ParseInt(y).value, ParseInt(m).value, ParseInt(d).value))
    {
      ok := CheckDate(d, m, y);
    }

    /** `setDate`: clears the flags; merges each truthy argument over the
        current field; validates the merged values on clones and, only if all
        four checks pass, stores day and month padded, the year as given, and
        selects the matching list items. Otherwise (`ok` false: the source
        raises) the fields and selections stay as they were. */
    method SetDate(ad: Arg, am: Arg, ay: Arg) returns (ok: bool)
      requires Valid()
      modifies this
      ensures Valid()
      ensures errors == NoErrors
      ensures var e := MergeEntry(ad, am, ay, old(Fields()));
        ok == Acceptable(e) &&
        (ok ==> Fields() == Padded(e) && daySel == FieldIndex(Pad(e.d), 31) &&
                monthSel == FieldIndex(Pad(e.m), 12) &&
                yearSel == YearIndex(e.y, maxYear, |yearItems|)) &&
        (!ok ==> Fields() == old(Fields()) && daySel == old(daySel) &&
                 monthSel == old(monthSel) && yearSel == old(yearSel))
      ensures arrangement == old(arrangement) && order == old(order) && errorCalls == old(errorCalls)
    {
      errors := NoErrors;
      var e := MergeEntry(ad, am, ay, Fields());
      ok := CheckClones(e);
      if ok {
        // one-character day and month text gets a leading "0"
        StoreDate(Padded(e));
      }
    }

    /** The commit step of `setDate`: writes the entry into the fields and
        selects the items for day - 1, month - 1 and `max_year - year`. */
    method StoreDate(p: Entry)
      requires Valid()
      modifies this
      ensures Valid()
      ensures Fields() == p && daySel == FieldIndex(p.d, 31) && monthSel == FieldIndex(p.m, 12)
      ensures yearSel == YearIndex(p.y, maxYear, |yearItems|)
      ensures errors == old(errors) && errorCalls == old(errorCalls)
      ensures arrangement == old(arrangement) && order == old(order)
    {
      d, m, y := p.d, p.m, p.y;
      SelectItem(DayList, NumberLessOne(d));
      SelectItem(MonthList, NumberLessOne(m));
      SelectItem(YearList, MaxYearLess(maxYear, y));
    }

    /** `clear`: empties the three fields and leaves no item selected. */
    method Clear()
      requires Valid()
      modifies this
      ensures Valid()
      ensures Fields() == Entry("", "", "")
      ensures daySel == None && monthSel == None && yearSel == None
      ensures errors == old(errors) && errorCalls == old(errorCalls)
      ensures arrangement == old(arrangement) && order == old(order)
    {
      d, m, y := "", "", "";
      SelectItem(DayList, Some(-1));
      SelectItem(MonthList, Some(-1));
      SelectItem(YearList, Some(-1));
    }

    /** Clearing twice leaves the state one `clear` leaves. */
    method ClearTwice()
      requires Valid()
      modifies this
      ensures Valid()
      ensures Fields() == Entry("", "", "")
      ensures daySel == None && monthSel == None && yearSel == None
      ensures errors == old(errors) && errorCalls == old(errorCalls)
      ensures arrangement == old(arrangement) && order == old(order)
    {
      Clear();
      Clear();
    }

    /** A click on item `k` of the day or month list (`generateList`): reads the
        item's number `k + 1`, writes it zero-padded into the field, selects the
        item and runs `checkFields`. */
    method ClickListItem(list: PickList, k: nat)
      requires Valid() && list != YearList && k < ListCount(list)
      modifies this
      ensures Valid()
      ensures var t := ItemText(k + 1);
        var e := if list == DayList then old(Fields()).(d := t) else old(Fields()).(m := t);
        var v := CheckFieldsSpec(e, arrangement, hasOnError);
        Fields() == v.entry && errors == v.errors && errorCalls == old(errorCalls) + v.calls
      ensures Selection(list) == Some(k)
      ensures list != DayList ==> daySel == old(daySel)
      ensures list != MonthList ==> monthSel == old(monthSel)
      ensures list != YearList ==> yearSel == old(yearSel)
      ensures arrangement == old(arrangement) && order == old(order)
    {
      var text := ClickText(IntText(k + 1));
      ClickTextOfItem(k + 1);
      if list == DayList {
        d := text;
      } else {
        m := text;
      }
      SelectItem(list, Some(k));
      CheckFields();
    }

    /** A click on item `k` of the year list: writes the item's year into the
        field, selects the item and runs `checkFields`. */
    method ClickYearItem(k: nat)
      requires Valid() && k < |yearItems|
      modifies this
      ensures Valid()
      ensures var e := old(Fields()).(y := IntText(yearItems[k]));
        var v := CheckFieldsSpec(e, arrangement, hasOnError);
        Fields() == v.entry && errors == v.errors && errorCalls == old(errorCalls) + v.calls
      ensures yearSel == Some(k) && daySel == old(daySel) && monthSel == old(monthSel)
      ensures arrangement == old(arrangement) && order == old(order)
    {
      y := YearClickText(IntText(yearItems[k]));
      YearClickTextOfItem(yearItems[k]);
      SelectItem(YearList, Some(k));
      CheckFields();
    }
  }
}
