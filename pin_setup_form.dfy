/**
 * The PIN set-up form shown after signup: the PIN is entered, then entered
 * again to confirm. Unlike the change form, a mismatch does not clear the
 * confirmation boxes and a failed set-up stays on the confirmation step
 * with the PIN kept.
 *
 * `onSubmit` is the caller's, so its outcome is a parameter: `None` when
 * it resolves, the caught value when it rejects.
 */
module PinSetupForm {
  import opened JsValues

  const MismatchMessage := "PIN이 일치하지 않습니다"
  const SetupFailedMessage := "PIN 설정에 실패했습니다"

  datatype Step = Enter | Confirm

  class PinSetupForm {
    var step: Step
    var pin: string
    var error: Option<string>

    /** Outside the confirmation step no first entry is kept. */
    predicate Valid()
      reads this
    {
      step == Enter ==> pin == ""
    }

    constructor()
      ensures Valid()
      ensures step == Enter && pin == "" && error == None
    {
      step := Enter;
      pin := "";
      error := None;
    }

    /** `handlePinEnter(enteredPin)`: keeps the PIN and moves to the confirmation step. */
    method PinEnter(enteredPin: string)
      modifies this
      ensures Valid()
      ensures step == Confirm && pin == enteredPin && error == None
    {
      pin := enteredPin;
      step := Confirm;
      error := None;
    }

    /**
     * `handlePinConfirm(confirmedPin)`: on a mismatch shows the error; on a
     * match submits the kept PIN and, if that rejects, shows the
     * rejection's message without leaving the step or dropping the PIN.
     */
    method PinConfirm(confirmedPin: string, rejection: Option<Caught>) returns (submitted: Option<string>)
      requires Valid()
      modifies this
      ensures Valid()
      ensures step == old(step) && pin == old(pin)
      ensures confirmedPin != old(pin) ==> submitted == None && error == Some(MismatchMessage)
      ensures confirmedPin == old(pin) ==> submitted == Some(old(pin))
      ensures confirmedPin == old(pin) && rejection.None? ==> error == old(error)
      ensures confirmedPin == old(pin) && rejection.Some? ==> error == Some(MessageOr(rejection.value, SetupFailedMessage))
    {
      if confirmedPin != pin {
        error := Some(MismatchMessage);
        return None;
      }
      submitted := Some(pin);
      if rejection.Some? {
        error := Some(MessageOr(rejection.value, SetupFailedMessage));
      }
    }

    /** `handleBack()`: back to the first entry, with nothing kept and no error. */
    method Back()
      modifies this
      ensures Valid()
      ensures step == Enter && pin == "" && error == None
    {
      step := Enter;
      pin := "";
      error := None;
    }
  }

  /**
   * After a failed set-up the same confirmation can be retried at once: the
   * form is still on its confirmation step with the PIN, so the second
   * attempt submits the same PIN again.
   */
  method RetryAfterFailure(pin: string, e: Caught) returns (first: Option<string>, second: Option<string>)
    ensures first == Some(pin) && second == Some(pin)
  {
    var form := new PinSetupForm();
    form.PinEnter(pin);
    first := form.PinConfirm(pin, Some(e));
    second := form.PinConfirm(pin, None);
  }
}
