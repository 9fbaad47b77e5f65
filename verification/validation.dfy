/** The shared part of every input value (`InputValue` in InputValue.cpp):
    the "required" base rule and the visible/accessible validation feedback
    that `Validate` applies after computing validity. */
module Validation {
  import opened Wrappers

  /** Identity of a UI element that can describe an input to assistive
      technology (an entry of the `DescribedBy` list). */
  type ElementId = nat

  /** Uniform thickness of the validation border: 0 hides it, 1 shows it. */
  const HiddenBorder: nat := 0
  const ShownBorder: nat := 1

  /** The error message element shown under an invalid input. */
  datatype ErrorMessage = ErrorMessage(id: ElementId, visible: bool)

  /** Snapshot of the UI pieces `SetValidation` touches. `border` is None when
      the input has no validation border and otherwise holds its thickness;
      `error` is None when there is no error message element. */
  datatype Feedback = Feedback(
    border: Option<nat>,
    error: Option<ErrorMessage>,
    describedBy: seq<ElementId>,
    isDataValidForForm: Option<bool>)

  /** The base rule: a required input must have a non-empty current value;
      an optional input is always acceptable. */
  function RequiredRule(isRequired: bool, currentValue: string): (ok: bool)
    ensures isRequired ==> (ok <==> currentValue != "")
    ensures !isRequired ==> ok
  {
    !isRequired || |currentValue| > 0
  }

  /** Number of times `x` occurs in `xs`. */
  function Count(xs: seq<ElementId>, x: ElementId): nat {
    if xs == [] then 0 else (if xs[0] == x then 1 else 0) + Count(xs[1..], x)
  }

  /** `IVector::IndexOf`: the first position of `x` in `xs`, if any. */
  function IndexOf(xs: seq<ElementId>, x: ElementId): (r: Option<nat>)
    ensures r.Some? ==> r.value < |xs| && xs[r.value] == x
                        && forall j :: 0 <= j < r.value ==> xs[j] != x
    ensures r.None? <==> x !in xs
  {
    if xs == [] then None
    else if xs[0] == x then Some(0)
    else match IndexOf(xs[1..], x)
      case None => None
      case Some(k) => Some(k + 1)
  }

  /** `IVector::RemoveAt`. */
  function RemoveAt(xs: seq<ElementId>, i: nat): seq<ElementId>
    requires i < |xs|
  {
    xs[..i] + xs[i + 1..]
  }

  /** The describers-list part of `SetAccessibilityProperties`: an invalid
      input must be described by its error message, so the message is
      appended when absent; a valid input drops the first occurrence of it. */
  function UpdateDescribers(describers: seq<ElementId>, error: ElementId, isValid: bool): (r: seq<ElementId>)
    ensures !isValid ==> error in r
    ensures !isValid ==> Count(r, error) == (if error in describers then Count(describers, error) else 1)
    ensures isValid ==> Count(r, error) == (if error in describers then Count(describers, error) - 1 else 0)
    ensures forall y :: y != error ==> Count(r, y) == Count(describers, y)
    // Positions: appended at the end, removed at the first occurrence, otherwise untouched.
    ensures !isValid && error !in describers ==> r == describers + [error]
    ensures isValid && error in describers ==>
      exists i :: 0 <= i < |describers| && describers[i] == error && error !in describers[..i]
                  && r == describers[..i] + describers[i + 1..]
    ensures (!isValid && error in describers) || (isValid && error !in describers) ==> r == describers
  {
    var found := IndexOf(describers, error);
    if !isValid && found.None? then
      CountAppend(describers, [error], error);
      CountPositive(describers, error);
      assert [error][1..] == [];
      forall y | y != error ensures Count(describers + [error], y) == Count(describers, y) {
        CountAppend(describers, [error], y);
        assert [error][1..] == [];
      }
      describers + [error]
    else if isValid && found.Some? then
      CountRemoveAt(describers, found.value);
      describers[..found.value] + describers[found.value + 1..]
    else
      CountPositive(describers, error);
      describers
  }

  lemma CountAppend(xs: seq<ElementId>, ys: seq<ElementId>, x: ElementId)
    ensures Count(xs + ys, x) == Count(xs, x) + Count(ys, x)
  {
    if xs == [] {
      assert xs + ys == ys;
    } else {
      assert (xs + ys)[1..] == xs[1..] + ys;
      CountAppend(xs[1..], ys, x);
    }
  }

  lemma CountPositive(xs: seq<ElementId>, x: ElementId)
    ensures x in xs <==> Count(xs, x) > 0
  {
    if xs != [] {
      CountPositive(xs[1..], x);
    }
  }

  lemma CountRemoveAt(xs: seq<ElementId>, i: nat)
    requires i < |xs|
    ensures forall y :: Count(RemoveAt(xs, i), y) == Count(xs, y) - (if y == xs[i] then 1 else 0)
  {
    forall y ensures Count(RemoveAt(xs, i), y) == Count(xs, y) - (if y == xs[i] then 1 else 0) {
      assert xs == xs[..i] + [xs[i]] + xs[i + 1..];
      CountAppend(xs[..i] + [xs[i]], xs[i + 1..], y);
      CountAppend(xs[..i], [xs[i]], y);
      CountAppend(xs[..i], xs[i + 1..], y);
    }
  }

  /** `SetAccessibilityProperties`: the describers-list update plus the
      `IsDataValidForForm` flag. */
  function SetAccessibilityProperties(f: Feedback, error: ElementId, isValid: bool): (r: Feedback)
    ensures r.isDataValidForForm == Some(isValid)
    ensures r.border == f.border && r.error == f.error
    ensures r.describedBy == UpdateDescribers(f.describedBy, error, isValid)
  {
    f.(describedBy := UpdateDescribers(f.describedBy, error, isValid), isDataValidForForm := Some(isValid))
  }

  /** `SetValidation`: shows or hides the border and the error message; the
      accessibility properties are only touched when an error message
      element exists. */
  function SetValidation(f: Feedback, isValid: bool): (r: Feedback)
    ensures r.border.Some? <==> f.border.Some?
    ensures r.border.Some? ==> r.border.value == (if isValid then HiddenBorder else ShownBorder)
    ensures r.error.Some? <==> f.error.Some?
    ensures r.error.Some? ==> r.error.value.id == f.error.value.id && (r.error.value.visible <==> !isValid)
    ensures f.error.None? ==> r.describedBy == f.describedBy && r.isDataValidForForm == f.isDataValidForForm
    ensures f.error.Some? ==> r.isDataValidForForm == Some(isValid)
    ensures f.error.Some? ==> r.describedBy == UpdateDescribers(f.describedBy, f.error.value.id, isValid)
  {
    var withBorder := match f.border
      case None => f
      case Some(_) => f.(border := Some(if isValid then HiddenBorder else ShownBorder));
    match f.error
    case None => withBorder
    case Some(e) =>
      var shown := withBorder.(error := Some(e.(visible := !isValid)));
      SetAccessibilityProperties(shown, e.id, isValid)
  }

  /** The feedback a user sees agrees with `isValid`: the border, the error
      message, and the list of describers all say the same thing. */
  predicate Shows(f: Feedback, isValid: bool) {
    && (f.border.Some? ==> f.border.value == (if isValid then HiddenBorder else ShownBorder))
    && (f.error.Some? ==> f.error.value.visible == !isValid
                          && f.isDataValidForForm == Some(isValid)
                          && (f.error.value.id in f.describedBy <==> !isValid)
                          && Count(f.describedBy, f.error.value.id) <= 1)
  }

  /** The error message is listed among the describers at most once. Every
      update keeps this true, since it only appends when the message is absent. */
  predicate WellFormed(f: Feedback) {
    f.error.Some? ==> Count(f.describedBy, f.error.value.id) <= 1
  }

  /** After `SetValidation(isValid)` on well-formed feedback, every indicator
      shows `isValid`, and the feedback stays well-formed. */
  lemma SetValidationShows(f: Feedback, isValid: bool)
    requires WellFormed(f)
    ensures Shows(SetValidation(f, isValid), isValid)
    ensures WellFormed(SetValidation(f, isValid))
  {
    if f.error.Some? {
      var e := f.error.value.id;
      var r := SetValidation(f, isValid);
      CountPositive(f.describedBy, e);
      CountPositive(r.describedBy, e);
    }
  }

  /** Applying the same validity twice changes nothing the second time. */
  lemma {:induction false} SetValidationIdempotent(f: Feedback, isValid: bool)
    requires WellFormed(f)
    ensures SetValidation(SetValidation(f, isValid), isValid) == SetValidation(f, isValid)
  {
    var once := SetValidation(f, isValid);
    if f.error.Some? {
      var e := f.error.value.id;
      SetValidationShows(f, isValid);
      UpdateDescribersIdempotent(f.describedBy, e, isValid);
    }
  }

  /** The describers update is idempotent once the error message occurs at
      most once in the list. */
  lemma UpdateDescribersIdempotent(xs: seq<ElementId>, error: ElementId, isValid: bool)
    requires Count(xs, error) <= 1
    ensures UpdateDescribers(UpdateDescribers(xs, error, isValid), error, isValid) == UpdateDescribers(xs, error, isValid)
  {
    var once := UpdateDescribers(xs, error, isValid);
    CountPositive(xs, error);
    CountPositive(once, error);
  }
}
