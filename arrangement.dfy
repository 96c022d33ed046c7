/**
 * The display arrangement of the three field containers and the `setOrder`
 * loop over order codes (js/jquery.dateForm.js). Each recognised code moves
 * its field's container to the end of the widget; the first unrecognised code
 * raises an error and stops the loop.
 */
module Arrangement {
  import opened Wrappers

  datatype Field = Day | Month | Year

  /** The order codes the setOrder loop recognises: the one-character strings
      "d", "m" and "y". */
  function CodeField(code: string): Option<Field> {
    if |code| != 1 then None
    else if code[0] == 'd' then Some(Day)
    else if code[0] == 'm' then Some(Month)
    else if code[0] == 'y' then Some(Year)
    else None
  }

  /** The default `order` option, ["d", "m", "y"]. */
  const DefaultOrder: seq<string> := ["d", "m", "y"]

  /** The arrangement without `f`, the others keeping their relative order. */
  function Remove(arr: seq<Field>, f: Field): (r: seq<Field>)
    ensures f !in r
    ensures multiset(r) == multiset(arr)[f := 0]
  {
    if arr == [] then []
    else
      assert arr == [arr[0]] + arr[1..];
      if arr[0] == f then Remove(arr[1..], f) else [arr[0]] + Remove(arr[1..], f)
  }

  /** `$container.appendTo($elem)`: the container leaves its place and goes last. */
  function MoveToEnd(arr: seq<Field>, f: Field): (r: seq<Field>)
    ensures multiset(r) == multiset(arr)[f := 1]
    ensures |r| > 0 && r[|r| - 1] == f
  {
    Remove(arr, f) + [f]
  }

  predicate AllRecognised(codes: seq<string>) {
    forall i :: 0 <= i < |codes| ==> CodeField(codes[i]).Some?
  }

  /** The fields an all-recognised order names, in its order. */
  function FieldsOf(codes: seq<string>): (r: seq<Field>)
    requires AllRecognised(codes)
    ensures |r| == |codes| && forall i :: 0 <= i < |codes| ==> Some(r[i]) == CodeField(codes[i])
  {
    if codes == [] then [] else [CodeField(codes[0]).value] + FieldsOf(codes[1..])
  }

  /** The arrangement after the setOrder loop has run over `codes`, stopping at
      the first code that is not "d", "m" or "y". */
  function ApplyCodes(arr: seq<Field>, codes: seq<string>): seq<Field>
    decreases |codes|
  {
    if codes == [] then arr
    else
      match CodeField(codes[0])
      case None => arr
      case Some(f) => ApplyCodes(MoveToEnd(arr, f), codes[1..])
  }

  /** Each of the three fields exactly once. */
  predicate IsPermutation(arr: seq<Field>) {
    multiset(arr) == multiset{Day, Month, Year}
  }

  /** No field twice. */
  predicate AtMostOnce(arr: seq<Field>) {
    forall f: Field :: multiset(arr)[f] <= 1
  }

  /** The setOrder loop: for each code in turn, moves that field's container to
      the end; an unrecognised code raises an error (`ok` false) and ends the
      loop with the earlier moves applied. */
  method RunOrder(arr: seq<Field>, codes: seq<string>) returns (res: seq<Field>, ok: bool)
    ensures res == ApplyCodes(arr, codes)
    ensures ok == AllRecognised(codes)
  {
    res := arr;
    ok := true;
    var i := 0;
    while i < |codes|
      invariant 0 <= i <= |codes|
      invariant ApplyCodes(arr, codes) == ApplyCodes(res, codes[i..])
      invariant forall j :: 0 <= j < i ==> CodeField(codes[j]).Some?
    {
      match CodeField(codes[i])
      case None =>
        ok := false;
        ApplyCodesStopsAtBadCode(arr, codes, i);
        ApplyCodesStopsAtBadCode(res, codes[i..], 0);
        break;
      case Some(f) =>
        assert codes[i..][1..] == codes[i + 1..];
        res := MoveToEnd(res, f);
        i := i + 1;
    }
  }

  // ---------------------------------------------------------------------------
  // Properties
  // ---------------------------------------------------------------------------

  /** Moving containers never adds or loses one: a permutation stays a permutation. */
  lemma {:induction false} ApplyCodesKeepsPermutation(arr: seq<Field>, codes: seq<string>)
    requires IsPermutation(arr)
    ensures IsPermutation(ApplyCodes(arr, codes))
    decreases |codes|
  {
    if codes != [] && CodeField(codes[0]).Some? {
      var f := CodeField(codes[0]).value;
      assert multiset(arr)[f] == 1;
      assert multiset(MoveToEnd(arr, f)) == multiset(arr);
      ApplyCodesKeepsPermutation(MoveToEnd(arr, f), codes[1..]);
    }
  }

  /** No field ever appears twice, whatever the codes. */
  lemma {:induction false} ApplyCodesAtMostOnce(arr: seq<Field>, codes: seq<string>)
    requires AtMostOnce(arr)
    ensures AtMostOnce(ApplyCodes(arr, codes))
    decreases |codes|
  {
    if codes != [] && CodeField(codes[0]).Some? {
      var f := CodeField(codes[0]).value;
      var next := MoveToEnd(arr, f);
      assert forall g: Field :: multiset(next)[g] <= 1 by {
        forall g: Field ensures multiset(next)[g] <= 1 {
          if g != f {
            assert multiset(next)[g] == multiset(arr)[g];
          }
        }
      }
      ApplyCodesAtMostOnce(next, codes[1..]);
    }
  }

  /** Removing `f` distributes over concatenation. */
  lemma {:induction false} RemoveAppend(a: seq<Field>, b: seq<Field>, f: Field)
    ensures Remove(a + b, f) == Remove(a, f) + Remove(b, f)
  {
    if a == [] {
      assert a + b == b;
    } else {
      assert (a + b)[0] == a[0];
      assert (a + b)[1..] == a[1..] + b;
      RemoveAppend(a[1..], b, f);
    }
  }

  /** Moving `f` to the end of an arrangement already ending in other fields `tail`. */
  lemma {:induction false} MoveAfter(a: seq<Field>, tail: seq<Field>, f: Field)
    requires f !in tail
    ensures MoveToEnd(a + tail, f) == Remove(a, f) + tail + [f]
  {
    RemoveAppend(a, tail, f);
    assert Remove(tail, f) == tail by {
      RemoveAbsent(tail, f);
    }
  }

  lemma {:induction false} RemoveAbsent(a: seq<Field>, f: Field)
    requires f !in a
    ensures Remove(a, f) == a
  {
    if a != [] {
      assert a == [a[0]] + a[1..];
      RemoveAbsent(a[1..], f);
    }
  }

  /** An arrangement holding none of three different fields is empty. */
  lemma {:induction false} NoneLeft(a: seq<Field>, f0: Field, f1: Field, f2: Field)
    requires f0 != f1 && f0 != f2 && f1 != f2
    requires multiset(a)[f0] == 0 && multiset(a)[f1] == 0 && multiset(a)[f2] == 0
    ensures a == []
  {
    forall g: Field ensures multiset(a)[g] == 0 {
      assert g == f0 || g == f1 || g == f2;
    }
    assert multiset(a) == multiset{};
  }

  lemma {:induction false} TwoMoves(arr: seq<Field>, f0: Field, f1: Field)
    requires f0 != f1
    ensures MoveToEnd(MoveToEnd(arr, f0), f1) == Remove(Remove(arr, f0), f1) + [f0, f1]
  {
    MoveAfter(Remove(arr, f0), [f0], f1);
  }

  lemma {:induction false} ThirdMove(a1: seq<Field>, f0: Field, f1: Field, f2: Field)
    requires f0 != f1 && f0 != f2 && f1 != f2
    requires multiset(a1)[f0] == 0 && multiset(a1)[f1] == 0
    ensures MoveToEnd(a1 + [f0, f1], f2) == [f0, f1, f2]
  {
    MoveAfter(a1, [f0, f1], f2);
    NoneLeft(Remove(a1, f2), f0, f1, f2);
  }

  /** Three moves of three different fields empty the old arrangement. */
  lemma {:induction false} ThreeMoves(arr: seq<Field>, f0: Field, f1: Field, f2: Field)
    requires f0 != f1 && f0 != f2 && f1 != f2
    ensures MoveToEnd(MoveToEnd(MoveToEnd(arr, f0), f1), f2) == [f0, f1, f2]
  {
    TwoMoves(arr, f0, f1);
    ThirdMove(Remove(Remove(arr, f0), f1), f0, f1, f2);
  }

  /** An order naming each field once names three different recognised codes. */
  lemma {:induction false} OrderCodes(codes: seq<string>)
    requires multiset(codes) == multiset{"d", "m", "y"}
    ensures |codes| == 3 && AllRecognised(codes)
    ensures codes[0] != codes[1] && codes[0] != codes[2] && codes[1] != codes[2]
  {
    assert |codes| == |multiset(codes)| == 3;
    assert codes == [codes[0], codes[1], codes[2]];
    assert multiset(codes) == multiset{codes[0], codes[1], codes[2]};
    assert codes[0] in multiset(codes) && codes[1] in multiset(codes) && codes[2] in multiset(codes);
  }

  /** Three recognised codes make three moves. */
  lemma {:induction false} ApplyThree(arr: seq<Field>, codes: seq<string>)
    requires |codes| == 3 && AllRecognised(codes)
    ensures ApplyCodes(arr, codes)
         == MoveToEnd(MoveToEnd(MoveToEnd(arr, CodeField(codes[0]).value),
                                CodeField(codes[1]).value), CodeField(codes[2]).value)
  {
    var m0 := MoveToEnd(arr, CodeField(codes[0]).value);
    var m1 := MoveToEnd(m0, CodeField(codes[1]).value);
    var m2 := MoveToEnd(m1, CodeField(codes[2]).value);
    assert ApplyCodes(m1, codes[2..]) == m2 by {
      assert codes[2..][0] == codes[2] && codes[2..][1..] == [];
    }
    assert ApplyCodes(m0, codes[1..]) == ApplyCodes(m1, codes[2..]) by {
      assert codes[1..][0] == codes[1] && codes[1..][1..] == codes[2..];
    }
  }

  /** Different recognised codes name different fields. */
  lemma CodeFieldInjective(a: string, b: string)
    requires CodeField(a).Some? && CodeField(b).Some? && a != b
    ensures CodeField(a) != CodeField(b)
  {
  }

  /** Whatever the starting arrangement, an order naming each field once leaves
      the fields exactly in that order. */
  lemma {:induction false} ApplyCodesFollowsOrder(arr: seq<Field>, codes: seq<string>)
    requires multiset(codes) == multiset{"d", "m", "y"}
    ensures AllRecognised(codes)
    ensures ApplyCodes(arr, codes) == FieldsOf(codes)
  {
    OrderCodes(codes);
    ApplyDistinctThree(arr, codes);
  }

  /** Three different recognised codes leave the fields in their order. */
  lemma {:induction false} ApplyDistinctThree(arr: seq<Field>, codes: seq<string>)
    requires |codes| == 3 && AllRecognised(codes)
    requires codes[0] != codes[1] && codes[0] != codes[2] && codes[1] != codes[2]
    ensures ApplyCodes(arr, codes) == FieldsOf(codes)
  {
    CodeFieldInjective(codes[0], codes[1]);
    CodeFieldInjective(codes[0], codes[2]);
    CodeFieldInjective(codes[1], codes[2]);
    var f0, f1, f2 := CodeField(codes[0]).value, CodeField(codes[1]).value, CodeField(codes[2]).value;
    ApplyThree(arr, codes);
    ThreeMoves(arr, f0, f1, f2);
    assert FieldsOf(codes) == [f0, f1, f2];
  }

  /** The loop stops at the first unrecognised code: what follows it is never
      applied, what precedes it stays applied. */
  lemma {:induction false} ApplyCodesStopsAtBadCode(arr: seq<Field>, codes: seq<string>, k: nat)
    requires k < |codes| && CodeField(codes[k]).None?
    requires forall j :: 0 <= j < k ==> CodeField(codes[j]).Some?
    ensures ApplyCodes(arr, codes) == ApplyCodes(arr, codes[..k])
    ensures !AllRecognised(codes)
    decreases k
  {
    if k > 0 {
      var f := CodeField(codes[0]).value;
      assert codes[1..][..k - 1] == codes[..k][1..];
      ApplyCodesStopsAtBadCode(MoveToEnd(arr, f), codes[1..], k - 1);
    }
  }

  /** An arrangement without repeats holds one entry per field present, so at
      most three. */
  lemma {:induction false} AtMostOnceLength(arr: seq<Field>)
    requires AtMostOnce(arr)
    ensures |arr| == (if Day in arr then 1 else 0) + (if Month in arr then 1 else 0)
                     + (if Year in arr then 1 else 0)
    ensures |arr| <= 3
  {
    if arr != [] {
      var x, rest := arr[0], arr[1..];
      assert arr == [x] + rest;
      assert multiset(arr) == multiset{x} + multiset(rest);
      assert multiset(arr)[x] <= 1;
      assert multiset(arr)[x] == 1 + multiset(rest)[x];
      assert x !in rest;
      assert (Day in arr <==> x == Day || Day in rest) && (Month in arr <==> x == Month || Month in rest)
          && (Year in arr <==> x == Year || Year in rest);
      assert AtMostOnce(rest) by {
        forall g: Field ensures multiset(rest)[g] <= 1 {
          assert multiset(rest)[g] <= multiset(arr)[g];
        }
      }
      AtMostOnceLength(rest);
    }
  }

  /** The default order lays the fields out day, month, year. */
  lemma DefaultOrderLayout(arr: seq<Field>)
    ensures ApplyCodes(arr, DefaultOrder) == [Day, Month, Year]
  {
    assert multiset(DefaultOrder) == multiset{"d", "m", "y"};
    ApplyCodesFollowsOrder(arr, DefaultOrder);
  }

  /** "xyz": the first code is unrecognised, so nothing moves. */
  lemma UnrecognisedOrderExample(arr: seq<Field>)
    ensures ApplyCodes(arr, ["x", "y", "z"]) == arr
    ensures !AllRecognised(["x", "y", "z"])
  {
    assert CodeField(["x", "y", "z"][0]).None?;
  }
}
