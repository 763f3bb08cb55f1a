/**
 * The PIN change form: the new PIN is entered, then entered again to
 * confirm. A mismatch clears the confirmation boxes and asks again; a
 * failed change starts over from the first entry with the error shown.
 *
 * The confirmation `PinInput` is mounted anew each time the form enters
 * its confirmation step. `onSubmit` is the caller's, so its outcome is a
 * parameter: `None` when it resolves, the caught value when it rejects.
 */
module ChangePinForm {
  import opened JsValues
  import PinInput

  const MismatchMessage := "PIN이 일치하지 않습니다"
  const ChangeFailedMessage := "PIN 변경에 실패했습니다"

  datatype Step = New | Confirm

  class ChangePinForm {
    var step: Step
    var newPin: string
    var error: Option<string>
    /** The confirmation boxes, behind `confirmPinRef`. */
    var confirmInput: PinInput.PinInput

    /** Outside the confirmation step no first entry is kept. */
    predicate Valid()
      reads this
    {
      step == New ==> newPin == ""
    }

    constructor()
      ensures Valid()
      ensures step == New && newPin == "" && error == None
    {
      step := New;
      newPin := "";
      error := None;
      confirmInput := new PinInput.PinInput();
    }

    /** `handleNewPinComplete(pin)`: keeps the PIN and moves to a freshly mounted confirmation step. */
    method NewPinComplete(pin: string)
      modifies this
      ensures Valid()
      ensures step == Confirm && newPin == pin && error == None
      ensures fresh(confirmInput) && confirmInput.Valid()
      ensures confirmInput.values == seq(PinInput.PinLength, _ => "")
    {
      newPin := pin;
      step := Confirm;
      error := None;
      confirmInput := new PinInput.PinInput();
    }

    /**
     * `handleConfirmPinComplete(confirmedPin)`: on a mismatch shows the
     * error and clears the confirmation boxes; on a match submits the kept
     * PIN, and if that rejects goes back to the first entry with the
     * rejection's message.
     */
    method ConfirmPinComplete(confirmedPin: string, rejection: Option<Caught>) returns (submitted: Option<string>)
      requires Valid()
      modifies this, confirmInput
      ensures Valid()
      ensures confirmInput == old(confirmInput)
      ensures confirmedPin != old(newPin) ==>
                submitted == None && error == Some(MismatchMessage) && step == old(step) && newPin == old(newPin)
                && confirmInput.values == seq(PinInput.PinLength, _ => "") && confirmInput.visibleIndex == None
      ensures confirmedPin == old(newPin) ==> submitted == Some(old(newPin))
      ensures confirmedPin == old(newPin) && rejection.None? ==>
                step == old(step) && newPin == old(newPin) && error == old(error)
      ensures confirmedPin == old(newPin) && rejection.Some? ==>
                step == New && newPin == "" && error == Some(MessageOr(rejection.value, ChangeFailedMessage))
    {
      if confirmedPin != newPin {
        error := Some(MismatchMessage);
        confirmInput.Clear();
        return None;
      }
      submitted := Some(newPin);
      if rejection.Some? {
        error := Some(MessageOr(rejection.value, ChangeFailedMessage));
        step := New;
        newPin := "";
      }
    }

    /** `handleBack()`: back to the first entry, with nothing kept and no error. */
    method Back()
      modifies this
      ensures Valid()
      ensures step == New && newPin == "" && error == None
      ensures confirmInput == old(confirmInput)
    {
      step := New;
      newPin := "";
      error := None;
    }
  }

  /**
   * The only way to submit: the PIN entered first, confirmed by an equal
   * second entry. A form fresh from its first entry submits `pin` when the
   * same PIN is confirmed and nothing when another is.
   */
  method SubmitsOnlyConfirmedPin(pin: string, confirmedPin: string, rejection: Option<Caught>) returns (submitted: Option<string>)
    ensures submitted == if confirmedPin == pin then Some(pin) else None
  {
    var form := new ChangePinForm();
    form.NewPinComplete(pin);
    submitted := form.ConfirmPinComplete(confirmedPin, rejection);
  }
}
