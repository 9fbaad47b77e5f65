/** Value resolution for the three choice-set inputs of InputValue.cpp:
    compact (a combo box with a selected index), expanded (a panel of check
    boxes or radio buttons, one per choice) and filtered (an auto-suggest box
    whose text is matched against the choice titles). */
module Choices {
  import opened Wrappers
  import opened Strings

  datatype Choice = Choice(title: string, value: string)

  /** `IVector::GetAt` throws for an index past the end of the choices. */
  datatype ChoiceError = IndexOutOfRange(index: int)

  /** The selected index a selector reports when nothing is selected. */
  const NoSelection: int := -1

  /** `GetChoiceValue`: the value of the choice at `index`, or "" for no
      selection; any other index is out of range and fails. */
  function GetChoiceValue(choices: seq<Choice>, index: int): (r: Result<string, ChoiceError>)
    ensures r.Success? <==> index == NoSelection || 0 <= index < |choices|
    ensures index == NoSelection ==> r.value == ""
    ensures 0 <= index < |choices| ==> r.value == choices[index].value
    ensures r.Failure? ==> r.error == IndexOutOfRange(index)
  {
    if index != NoSelection then
      if 0 <= index < |choices| then Success(choices[index].value)
      else Failure(IndexOutOfRange(index))
    else Success("")
  }

  // ---------------------------------------------------------------------
  // Expanded, single-select: the first checked child wins.

  /** Index of the first checked child at or after `from`, or `NoSelection`. */
  function FirstChecked(checked: seq<bool>, from: nat): (r: int)
    requires from <= |checked|
    decreases |checked| - from
    ensures r == NoSelection <==> forall j :: from <= j < |checked| ==> !checked[j]
    ensures r != NoSelection ==> from <= r < |checked| && checked[r]
                                 && forall j :: from <= j < r ==> !checked[j]
  {
    if from == |checked| then NoSelection
    else if checked[from] then from
    else FirstChecked(checked, from + 1)
  }

  /** Expanded single-select: "" when no child is checked; otherwise it can
      fail only for a checked child that has no choice. */
  function ExpandedSingleValue(choices: seq<Choice>, checked: seq<bool>): (r: Result<string, ChoiceError>)
    ensures (forall j :: 0 <= j < |checked| ==> !checked[j]) ==> r == Success("")
    ensures r.Failure? ==> exists k :: 0 <= k < |checked| && checked[k] && k >= |choices|
  {
    GetChoiceValue(choices, FirstChecked(checked, 0))
  }

  /** Expanded single-select reads the value of the first checked child, and
      fails when that child has no choice. */
  lemma ExpandedSingleValueSpec(choices: seq<Choice>, checked: seq<bool>, k: nat)
    requires k < |checked| && checked[k] && forall j :: 0 <= j < k ==> !checked[j]
    ensures k < |choices| ==> ExpandedSingleValue(choices, checked) == Success(choices[k].value)
    ensures k >= |choices| ==> ExpandedSingleValue(choices, checked).Failure?
  {
  }

  // ---------------------------------------------------------------------
  // Expanded, multi-select: every checked child's value, comma-separated.

  /** The loop of `ExpandedChoiceSetInputValue::CurrentValue` from child
      `index` on: each checked child appends its value and a comma. */
  function Accumulate(choices: seq<Choice>, checked: seq<bool>, index: nat, acc: string): (r: Result<string, ChoiceError>)
    requires index <= |checked|
    decreases |checked| - index
    ensures r.Success? ==> acc <= r.value
    ensures r.Failure? ==> exists k :: index <= k < |checked| && checked[k] && k >= |choices|
  {
    if index == |checked| then Success(acc)
    else if checked[index] then
      var v :- GetChoiceValue(choices, index);
      Accumulate(choices, checked, index + 1, acc + v + ",")
    else Accumulate(choices, checked, index + 1, acc)
  }

  /** Multi-select value as the source computes it: accumulate, then drop
      the trailing comma when anything was accumulated. */
  function ExpandedMultiValue(choices: seq<Choice>, checked: seq<bool>): (r: Result<string, ChoiceError>)
    ensures r.Failure? <==> !CheckedInRange(choices, checked)
  {
    AccumulateSpec(choices, checked, 0, "");
    var s :- Accumulate(choices, checked, 0, "");
    Success(if |s| > 0 then s[..|s| - 1] else s)
  }

  /** Positions of the checked children at or after `from`, in child order. */
  function CheckedIndices(checked: seq<bool>, from: nat): (r: seq<nat>)
    requires from <= |checked|
    decreases |checked| - from
    ensures forall k :: 0 <= k < |r| ==> from <= r[k] < |checked| && checked[r[k]]
  {
    if from == |checked| then []
    else if checked[from] then [from] + CheckedIndices(checked, from + 1)
    else CheckedIndices(checked, from + 1)
  }

  /** The values of the choices at `indices`. */
  function ValuesAt(choices: seq<Choice>, indices: seq<nat>): (r: seq<string>)
    requires forall k :: 0 <= k < |indices| ==> indices[k] < |choices|
    ensures |r| == |indices|
    ensures forall k :: 0 <= k < |r| ==> r[k] == choices[indices[k]].value
  {
    if indices == [] then [] else [choices[indices[0]].value] + ValuesAt(choices, indices[1..])
  }

  /** Each string followed by a comma, concatenated. */
  function Terminated(xs: seq<string>): string {
    if xs == [] then "" else xs[0] + "," + Terminated(xs[1..])
  }

  /** Every checked child has a choice to read. */
  predicate CheckedInRange(choices: seq<Choice>, checked: seq<bool>) {
    forall j :: 0 <= j < |checked| && checked[j] ==> j < |choices|
  }

  lemma {:induction false} AccumulateSpec(choices: seq<Choice>, checked: seq<bool>, index: nat, acc: string)
    requires index <= |checked|
    ensures CheckedInRange(choices, checked) ==>
      Accumulate(choices, checked, index, acc) == Success(acc + Terminated(ValuesAt(choices, CheckedIndices(checked, index))))
    ensures Accumulate(choices, checked, index, acc).Failure? <==>
      exists j :: index <= j < |checked| && checked[j] && j >= |choices|
    decreases |checked| - index
  {
    if index == |checked| {
      assert acc + Terminated([]) == acc;
    } else if checked[index] {
      if index < |choices| {
        var v := choices[index].value;
        AccumulateSpec(choices, checked, index + 1, acc + v + ",");
        if CheckedInRange(choices, checked) {
          var rest := CheckedIndices(checked, index + 1);
          assert CheckedIndices(checked, index) == [index] + rest;
          assert ValuesAt(choices, [index] + rest) == [v] + ValuesAt(choices, rest);
          assert ([index] + rest)[1..] == rest;
          var vs := ValuesAt(choices, rest);
          assert ([v] + vs)[1..] == vs;
          assert Terminated([v] + vs) == v + "," + Terminated(vs);
          assert acc + v + "," + Terminated(vs) == acc + (v + "," + Terminated(vs));
        }
      }
    } else {
      AccumulateSpec(choices, checked, index + 1, acc);
    }
  }

  lemma {:induction false} DropTrailingComma(xs: seq<string>)
    ensures |Terminated(xs)| > 0 <==> xs != []
    ensures xs != [] ==> Terminated(xs)[..|Terminated(xs)| - 1] == Join(xs, ",")
  {
    if xs != [] {
      if |xs| == 1 {
        assert Terminated(xs[1..]) == "";
        assert Terminated(xs) == xs[0] + ",";
      } else {
        DropTrailingComma(xs[1..]);
        var t := Terminated(xs[1..]);
        assert Terminated(xs) == xs[0] + "," + t;
        assert (xs[0] + "," + t)[..|xs[0] + "," + t| - 1] == xs[0] + "," + t[..|t| - 1];
      }
    }
  }

  /** The multi-select value is the checked children's values joined by
      commas, in child order ("" when none is checked); it fails exactly when
      a checked child has no choice to read. */
  lemma ExpandedMultiValueSpec(choices: seq<Choice>, checked: seq<bool>)
    ensures CheckedInRange(choices, checked) ==>
      ExpandedMultiValue(choices, checked) == Success(Join(ValuesAt(choices, CheckedIndices(checked, 0)), ","))
    ensures ExpandedMultiValue(choices, checked).Failure? <==> !CheckedInRange(choices, checked)
  {
    AccumulateSpec(choices, checked, 0, "");
    if CheckedInRange(choices, checked) {
      var xs := ValuesAt(choices, CheckedIndices(checked, 0));
      DropTrailingComma(xs);
      assert "" + Terminated(xs) == Terminated(xs);
      if xs == [] {
        assert Terminated(xs) == "";
      }
    }
  }

  // ---------------------------------------------------------------------
  // Filtered: the typed text selects a choice by case-insensitive title.

  predicate TitleMatches(c: Choice, text: string) {
    ToLower(text) == ToLower(c.title)
  }

  /** The loop of `GetSelectedChoice` from choice `i` on: every matching
      choice replaces the one selected so far, so the last match wins. */
  function SelectFrom(choices: seq<Choice>, text: string, i: nat, selected: Option<nat>): (r: Option<nat>)
    requires i <= |choices|
    requires selected.Some? ==> selected.value < i && TitleMatches(choices[selected.value], text)
    decreases |choices| - i
    ensures r.Some? ==> r.value < |choices| && TitleMatches(choices[r.value], text)
    ensures r.Some? ==> forall j :: r.value < j < |choices| && i <= j ==> !TitleMatches(choices[j], text)
    ensures r.None? <==> selected.None? && forall j :: i <= j < |choices| ==> !TitleMatches(choices[j], text)
    ensures selected.Some? ==> r.Some? && r.value >= selected.value
  {
    if i == |choices| then selected
    else if TitleMatches(choices[i], text) then SelectFrom(choices, text, i + 1, Some(i))
    else SelectFrom(choices, text, i + 1, selected)
  }

  /** `GetSelectedChoice`: the index of the last choice whose lower-cased
      title equals the lower-cased text, if any. */
  function SelectedChoice(choices: seq<Choice>, text: string): (r: Option<nat>)
    ensures r.None? <==> forall j :: 0 <= j < |choices| ==> !TitleMatches(choices[j], text)
    ensures r.Some? ==> r.value < |choices| && TitleMatches(choices[r.value], text)
                        && forall j :: r.value < j < |choices| ==> !TitleMatches(choices[j], text)
  {
    SelectFrom(choices, text, 0, None)
  }

  /** `FilteredChoiceSetInputValue::CurrentValue`. */
  function FilteredValue(choices: seq<Choice>, text: string): (r: string)
    ensures (forall j :: 0 <= j < |choices| ==> !TitleMatches(choices[j], text)) ==> r == ""
  {
    match SelectedChoice(choices, text)
    case Some(k) => choices[k].value
    case None => ""
  }

  /** `FilteredChoiceSetInputValue::IsValueValid`: empty text is acceptable
      only when the input is optional; other text must name a choice. */
  function FilteredValid(isRequired: bool, choices: seq<Choice>, text: string): (ok: bool)
    ensures text == "" ==> (ok <==> !isRequired)
    ensures text != "" ==> (ok <==> exists j :: 0 <= j < |choices| && TitleMatches(choices[j], text))
  {
    if text == "" then !isRequired
    else SelectedChoice(choices, text).Some?
  }

  /** Typing the title of a choice in any letter case selects that choice's
      value, provided no later choice has a title equal to it up to case. */
  lemma FilteredValueOfTitle(choices: seq<Choice>, k: nat, text: string)
    requires k < |choices| && ToLower(text) == ToLower(choices[k].title)
    requires forall j :: k < j < |choices| ==> ToLower(choices[j].title) != ToLower(text)
    ensures FilteredValue(choices, text) == choices[k].value
  {
  }
}

/** Worked examples of the choice-set rules. */
module ChoiceExamples {
  import opened Wrappers
  import opened Choices
  import Strings

  /** Children [off, on, on] over values [A, B, C] read as "B,C". */
  lemma MultiSelectExample()
    ensures ExpandedMultiValue([Choice("a", "A"), Choice("b", "B"), Choice("c", "C")], [false, true, true]) == Success("B,C")
  {
    var choices := [Choice("a", "A"), Choice("b", "B"), Choice("c", "C")];
    var checked := [false, true, true];
    ExpandedMultiValueSpec(choices, checked);
    assert CheckedIndices(checked, 3) == [];
    assert CheckedIndices(checked, 2) == [2];
    assert CheckedIndices(checked, 1) == [1, 2];
    assert CheckedIndices(checked, 0) == [1, 2];
    assert ValuesAt(choices, [1, 2]) == ["B", "C"];
    assert CheckedInRange(choices, checked);
    assert ["B", "C"][1..] == ["C"];
    assert Strings.Join(["C"], ",") == "C";
    assert Strings.Join(["B", "C"], ",") == "B" + "," + "C";
    assert "B" + "," + "C" == "B,C";
  }

  /** Typing "red" selects the choice titled "Red"; "Green" names no choice. */
  lemma FilteredExample()
    ensures FilteredValue([Choice("Red", "r"), Choice("Blue", "b")], "red") == "r"
    ensures FilteredValid(true, [Choice("Red", "r"), Choice("Blue", "b")], "red")
    ensures !FilteredValid(false, [Choice("Red", "r"), Choice("Blue", "b")], "Green")
  {
    var choices := [Choice("Red", "r"), Choice("Blue", "b")];
    assert Strings.ToLower("red") == "red";
    assert Strings.ToLower("Red") == "red";
    assert Strings.ToLower("Blue") == "blue";
    FilteredValueOfTitle(choices, 0, "red");
    assert Strings.ToLower("Green") == "green";
    assert !TitleMatches(choices[0], "Green") && !TitleMatches(choices[1], "Green");
  }
}
