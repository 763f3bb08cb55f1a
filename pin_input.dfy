/**
 * The six-box PIN entry. Each box holds one digit or nothing; the digit
 * just typed shows for a moment and every other filled box shows a bullet.
 * Typing moves focus to the next box, pasting fills the boxes from the
 * left, and `onComplete` receives the PIN once all six boxes are filled.
 *
 * `onComplete` is modelled by the `completed` result of the handlers, and
 * `focus()` on an input element by the `focused` field.
 */
module PinInput {
  import opened JsValues

  const PinLength := 6
  const Bullet := "•"

  /** `value.replace(/\D/g, "")`: the ASCII digits, in order. */
  function OnlyDigits(s: string): (d: string)
    ensures |d| <= |s|
    ensures forall i :: 0 <= i < |d| ==> IsAsciiDigit(d[i])
  {
    if s == [] then [] else (if IsAsciiDigit(s[0]) then [s[0]] else []) + OnlyDigits(s[1..])
  }

  /** `.slice(-1)` of the digits: the last digit typed, or "" when there is none. */
  function LastDigit(value: string): (d: string)
    ensures OnlyDigits(value) == [] <==> d == ""
    ensures d != "" ==> |d| == 1 && d[0] == OnlyDigits(value)[|OnlyDigits(value)| - 1]
  {
    var digits := OnlyDigits(value);
    if digits == [] then "" else [digits[|digits| - 1]]
  }

  /** What one box may hold: nothing, or one digit. */
  predicate IsBox(v: string)
  {
    v == "" || (|v| == 1 && IsAsciiDigit(v[0]))
  }

  /** `values.join("")`. */
  function Concat(values: seq<string>): string
  {
    if values == [] then "" else values[0] + Concat(values[1..])
  }

  /** The boxes after a paste of `digits`: box `i` takes `digits[i]` where there is one. */
  function Pasted(values: seq<string>, digits: string): (r: seq<string>)
    requires |values| == PinLength && |digits| <= PinLength
    ensures |r| == PinLength
  {
    seq(PinLength, i requires 0 <= i < PinLength => if i < |digits| then [digits[i]] else values[i])
  }

  /** The keys `handleKeyDown` reacts to; any other key does nothing. */
  datatype Key = Backspace | ArrowLeft | ArrowRight | OtherKey

  /**
   * The box `handleKeyDown` asks to focus: the one to the left on Backspace
   * in an empty box or on ArrowLeft, the one to the right on ArrowRight.
   */
  function KeyDownTarget(values: seq<string>, index: int, key: Key): (target: Option<int>)
    requires |values| == PinLength && 0 <= index < PinLength
    ensures target.Some? ==> 0 <= target.value < PinLength
    ensures key == Backspace ==> target == if values[index] == "" && index > 0 then Some(index - 1) else None
    ensures key == ArrowLeft ==> target == if index > 0 then Some(index - 1) else None
    ensures key == ArrowRight ==> target == if index < PinLength - 1 then Some(index + 1) else None
    ensures key == OtherKey ==> target == None
  {
    match key
    case Backspace => if values[index] == "" && index > 0 then Some(index - 1) else None
    case ArrowLeft => if index > 0 then Some(index - 1) else None
    case ArrowRight => if index < PinLength - 1 then Some(index + 1) else None
    case OtherKey => None
  }

  class PinInput {
    /** The `values` state: one entry per box. */
    var values: seq<string>
    /** The `visibleIndex` state: the box whose digit is shown unmasked. */
    var visibleIndex: Option<int>
    /** The box that last received focus. */
    var focused: Option<int>

    predicate Valid()
      reads this
    {
      |values| == PinLength && (forall i :: 0 <= i < PinLength ==> IsBox(values[i]))
      && (visibleIndex.Some? ==> 0 <= visibleIndex.value < PinLength)
      && (focused.Some? ==> 0 <= focused.value < PinLength)
    }

    /** Mounted: six empty boxes, nothing shown, nothing focused yet. */
    constructor()
      ensures Valid()
      ensures values == seq(PinLength, _ => "") && visibleIndex == None && focused == None
    {
      values := seq(PinLength, _ => "");
      visibleIndex := None;
      focused := None;
    }

    /** `focusInput(index)`: indices outside the six boxes are ignored. */
    method FocusInput(index: int)
      modifies this
      ensures focused == if 0 <= index < PinLength then Some(index) else old(focused)
      ensures values == old(values) && visibleIndex == old(visibleIndex)
    {
      if 0 <= index < PinLength {
        focused := Some(index);
      }
    }

    /** `clear()` of the imperative handle: every box emptied, nothing shown, the first box focused. */
    method Clear()
      modifies this
      ensures Valid()
      ensures values == seq(PinLength, _ => "") && visibleIndex == None && focused == Some(0)
    {
      values := seq(PinLength, _ => "");
      visibleIndex := None;
      FocusInput(0);
    }

    /** The mask timer firing: the digit just typed is hidden again. */
    method MaskTimeout()
      modifies this
      ensures visibleIndex == None && values == old(values) && focused == old(focused)
    {
      visibleIndex := None;
    }

    /**
     * `handleChange(index, value)`: box `index` takes the last digit of the
     * text (or nothing), the others keep theirs. A digit is shown, and
     * focus moves to the next box if there is one. The PIN is completed
     * when no box is empty.
     */
    method HandleChange(index: int, value: string) returns (completed: Option<string>)
      requires Valid() && 0 <= index < PinLength
      modifies this
      ensures Valid()
      ensures values == old(values)[index := LastDigit(value)]
      ensures LastDigit(value) == "" ==> visibleIndex == old(visibleIndex) && focused == old(focused)
      ensures LastDigit(value) != "" ==> visibleIndex == Some(index)
      ensures LastDigit(value) != "" ==> focused == if index < PinLength - 1 then Some(index + 1) else old(focused)
      ensures completed.Some? <==> forall i :: 0 <= i < PinLength ==> values[i] != ""
      ensures completed.Some? ==> completed.value == Concat(values) && |completed.value| == PinLength
    {
      var digit := LastDigit(value);
      var newValues := values[index := digit];
      values := newValues;
      if digit != "" {
        visibleIndex := Some(index);
        if index < PinLength - 1 {
          FocusInput(index + 1);
        }
      }
      var pin := Concat(newValues);
      BoxesConcat(newValues);
      if |pin| == PinLength && "" !in newValues {
        completed := Some(pin);
      } else {
        completed := None;
      }
    }

    /** `handleKeyDown(index, e)`: moves focus as `KeyDownTarget` says; the boxes do not change. */
    method HandleKeyDown(index: int, key: Key)
      requires Valid() && 0 <= index < PinLength
      modifies this
      ensures Valid()
      ensures var target := KeyDownTarget(old(values), index, key);
        focused == if target.Some? then target else old(focused)
      ensures values == old(values) && visibleIndex == old(visibleIndex)
    {
      match key
      case Backspace =>
        if values[index] == "" && index > 0 {
          FocusInput(index - 1);
        }
      case ArrowLeft =>
        if index > 0 {
          FocusInput(index - 1);
        }
      case ArrowRight =>
        if index < PinLength - 1 {
          FocusInput(index + 1);
        }
      case OtherKey =>
    }

    /**
     * `handlePaste(e)`: the first six digits of the clipboard text fill
     * boxes 0, 1, … in turn and focus goes to the last box filled. The PIN
     * is completed only when six digits were pasted.
     */
    method HandlePaste(pastedData: string) returns (completed: Option<string>)
      requires Valid()
      modifies this
      ensures Valid()
      ensures var digits := OnlyDigits(pastedData);
        var n := if |digits| < PinLength then |digits| else PinLength;
        (n == 0 ==> values == old(values) && focused == old(focused))
        && (n > 0 ==> values == Pasted(old(values), digits[..n]) && focused == Some(n - 1))
        && (completed.Some? <==> n == PinLength)
        && (completed.Some? ==> completed.value == digits[..PinLength] && completed.value == Concat(values))
      ensures visibleIndex == old(visibleIndex)
    {
      var all := OnlyDigits(pastedData);
      var digits := if |all| < PinLength then all else all[..PinLength];
      completed := None;
      if |digits| > 0 {
        var newValues := values;
        var i := 0;
        while i < |digits|
          invariant 0 <= i <= |digits| && |newValues| == PinLength
          invariant forall j :: 0 <= j < i ==> newValues[j] == [digits[j]]
          invariant forall j :: i <= j < PinLength ==> newValues[j] == values[j]
        {
          newValues := newValues[i := [digits[i]]];
          i := i + 1;
        }
        assert newValues == Pasted(values, digits);
        values := newValues;
        FocusInput(|digits| - 1);
        if |digits| == PinLength {
          PastedSixConcat(newValues, digits);
          completed := Some(digits);
        }
      }
    }

    /** `getDisplayValue(index)`: nothing for an empty box, the digit in the visible box, a bullet elsewhere. */
    function DisplayValue(index: int): (shown: string)
      requires Valid() && 0 <= index < PinLength
      reads this
      ensures values[index] == "" ==> shown == ""
      ensures values[index] != "" && visibleIndex == Some(index) ==> shown == values[index]
      ensures values[index] != "" && visibleIndex != Some(index) ==> shown == Bullet
      ensures shown != "" ==> |shown| == 1
    {
      if values[index] == "" then "" else if visibleIndex == Some(index) then values[index] else Bullet
    }
  }

  /** Boxes each of one character join to a string of one character per box. */
  lemma {:induction false} ConcatOfSingles(values: seq<string>)
    requires forall i :: 0 <= i < |values| ==> |values[i]| == 1
    ensures |Concat(values)| == |values|
    ensures forall i :: 0 <= i < |values| ==> Concat(values)[i] == values[i][0]
  {
    if values != [] {
      ConcatOfSingles(values[1..]);
    }
  }

  /** Joined boxes are six long and hold no empty box exactly when every box holds a digit. */
  lemma {:induction false} BoxesConcat(values: seq<string>)
    requires |values| == PinLength && forall i :: 0 <= i < PinLength ==> IsBox(values[i])
    ensures (|Concat(values)| == PinLength && "" !in values) <==> forall i :: 0 <= i < PinLength ==> values[i] != ""
  {
    if forall i :: 0 <= i < PinLength ==> values[i] != "" {
      ConcatOfSingles(values);
    }
  }

  /** Six pasted digits fill every box, and the boxes join back to the pasted digits. */
  lemma PastedSixConcat(values: seq<string>, digits: string)
    requires |values| == PinLength && |digits| == PinLength
    requires forall j :: 0 <= j < PinLength ==> values[j] == [digits[j]]
    ensures Concat(values) == digits
  {
    ConcatOfSingles(values);
  }
}
