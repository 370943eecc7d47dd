/** The PIN setup and change screen (client/screens/AuthSetupScreen.tsx): in
    change mode the current PIN is checked first, then a new PIN is entered and
    confirmed; only a matching confirmation is written to the store.
    The alert shown on a mismatch is taken as acknowledged at once, and the
    100 ms and 500 ms delays are folded into the key press that starts them. */
module AuthSetup {
  import opened Common
  import opened AppTypes
  import Storage

  const PIN_LENGTH: nat := 6

  datatype Mode = SetupMode | ChangeMode
  datatype Step = Current | Enter | Confirm

  /** The first step: the current PIN is asked for only when changing it. */
  function InitialStep(mode: Mode): (step: Step)
    ensures step.Current? <==> mode.ChangeMode?
    ensures step.Enter? <==> mode.SetupMode?
  {
    if mode == ChangeMode then Current else Enter
  }

  /** The moves the step machine can make: current -> enter -> confirm -> enter. */
  predicate Advances(from: Step, to: Step)
  {
    from == to || (from == Current && to == Enter) || (from == Enter && to == Confirm) || (from == Confirm && to == Enter)
  }

  /** The navigator shows the setup screen instead of the lock screen exactly when
      no completed setup is stored (client/navigation/RootStackNavigator.tsx). */
  function NeedsSetup(config: Option<AuthConfig>): (r: bool)
    ensures r <==> config.None? || !config.value.isSetupComplete
  {
    !(config.Some? && config.value.isSetupComplete)
  }

  /** Once setupPin has run, the app no longer asks for setup. */
  lemma SetupCompletes(m: Storage.Entries, p: string)
    ensures !NeedsSetup(Storage.ReadAuthConfig(m[Storage.AuthConfigKey := Storage.AuthRecord(Storage.SetupRecord(p))]))
  {
  }

  class SetupScreen {
    const store: Storage.Store
    const mode: Mode
    var step: Step
    var pin: string
    var confirmPin: string
    var error: bool

    /** The buffer the keypad currently writes to. */
    function ActiveBuffer(): string
      reads this
    {
      if step == Confirm then confirmPin else pin
    }

    /** Both buffers hold at most six digits; the confirm step is entered only
        with a full first entry; the confirmation buffer is empty outside it;
        and the current-PIN step exists only in change mode. */
    ghost predicate Valid()
      reads this
    {
      && |pin| <= PIN_LENGTH && |confirmPin| <= PIN_LENGTH
      && AllDigits(pin) && AllDigits(confirmPin)
      && (step == Confirm ==> |pin| == PIN_LENGTH)
      && (step != Confirm ==> confirmPin == [])
      && (step == Current ==> mode == ChangeMode)
    }

    constructor (store: Storage.Store, mode: Mode)
      ensures Valid()
      ensures this.store == store && this.mode == mode
      ensures step == InitialStep(mode) && pin == [] && confirmPin == [] && !error
    {
      this.store := store;
      this.mode := mode;
      step := if mode == ChangeMode then Current else Enter;
      pin, confirmPin, error := "", "", false;
    }

    /** handleKeyPress; the result says whether the new PIN was committed. */
    method KeyPress(key: char) returns (committed: bool)
      requires Valid() && IsDigit(key)
      modifies this, store
      ensures Valid()
      ensures Advances(old(step), step)
      // a full active buffer ignores the key; any other key clears the error flag
      ensures |old(ActiveBuffer())| >= PIN_LENGTH ==>
        step == old(step) && pin == old(pin) && confirmPin == old(confirmPin) && error == old(error) && !committed
      ensures |old(ActiveBuffer())| < PIN_LENGTH ==> !error
      // a key that does not complete the buffer goes to the active buffer only
      ensures |old(ActiveBuffer())| + 1 < PIN_LENGTH ==>
        step == old(step) && !committed &&
        (if step == Confirm then confirmPin == old(confirmPin) + [key] && pin == old(pin)
         else pin == old(pin) + [key] && confirmPin == old(confirmPin))
      // the sixth digit of the current PIN: verified, with no attempt limit
      ensures old(step) == Current && |old(pin)| + 1 == PIN_LENGTH ==>
        pin == [] && !committed &&
        (step == Enter <==> Storage.PinAccepted(Storage.ReadAuthConfig(old(store.entries)), old(pin) + [key]))
      // the sixth digit of the new PIN: on to confirmation, keeping it
      ensures old(step) == Enter && |old(pin)| + 1 == PIN_LENGTH ==>
        step == Confirm && pin == old(pin) + [key] && confirmPin == [] && !committed
      // the sixth digit of the confirmation: commit iff it equals the new PIN
      ensures old(step) == Confirm && |old(confirmPin)| + 1 == PIN_LENGTH ==>
        (committed <==> old(confirmPin) + [key] == old(pin)) &&
        (committed ==> step == Confirm && pin == old(pin) && confirmPin == old(pin)) &&
        (!committed ==> step == Enter && pin == [] && confirmPin == [])
      // only a commit writes to the store, and it writes the confirmed PIN
      ensures committed ==> store.entries == old(store.entries)[Storage.AuthConfigKey := Storage.AuthRecord(Storage.SetupRecord(old(pin)))]
      ensures !committed ==> store.entries == old(store.entries)
    {
      var currentPin := if step == Confirm then confirmPin else pin;
      if |currentPin| >= PIN_LENGTH {
        return false;
      }
      var newPin := currentPin + [key];
      error := false;
      if step == Confirm {
        confirmPin := newPin;
      } else {
        pin := newPin;
      }
      committed := false;
      if |newPin| == PIN_LENGTH {
        if step == Current {
          var isValid := store.VerifyPin(newPin);
          if isValid {
            pin := "";
            step := Enter;
          } else {
            error := true;
            pin := "";
            error := false;
          }
        } else if step == Enter {
          step := Confirm;
        } else {
          if newPin == pin {
            store.SetupPin(newPin);
            committed := true;
          } else {
            error := true;
            confirmPin := "";
            step := Enter;
            pin := "";
            error := false;
          }
        }
      }
    }

    /** handleDelete: shortens the active buffer only. */
    method Delete()
      requires Valid()
      modifies this
      ensures Valid()
      ensures step == old(step) && !error
      ensures old(step) == Confirm ==>
        confirmPin == (if old(confirmPin) == [] then [] else old(confirmPin)[..|old(confirmPin)| - 1]) && pin == old(pin)
      ensures old(step) != Confirm ==>
        pin == (if old(pin) == [] then [] else old(pin)[..|old(pin)| - 1]) && confirmPin == old(confirmPin)
    {
      if step == Confirm {
        confirmPin := if confirmPin == [] then [] else confirmPin[..|confirmPin| - 1];
      } else {
        pin := if pin == [] then [] else pin[..|pin| - 1];
      }
      error := false;
    }

    /** The "Go back" link, rendered only in the confirm step: back to entering
        the new PIN, which is kept, with the confirmation discarded. */
    method GoBack()
      requires Valid() && step == Confirm
      modifies this
      ensures Valid()
      ensures Advances(old(step), step)
      ensures step == Enter && confirmPin == [] && pin == old(pin) && error == old(error)
    {
      step := Enter;
      confirmPin := "";
    }
  }
}
