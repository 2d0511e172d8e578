/**
 * The PIN dialog of ui/pin_dialog.py: its OK check (non-empty, at least
 * four characters, and in confirm mode a matching confirmation), and the
 * value it hands back: the PIN when accepted, `None` on cancel or close.
 */
module PinDialogs {
  import opened Wrappers
  import AppLock

  const EmptyPinMessage := "PIN cannot be empty."
  const ShortPinMessage := "PIN must be at least 4 characters."
  const ConfirmPinMessage := "Please confirm your PIN."
  const MismatchMessage := "PINs do not match."

  /** What the OK button decides about the two entries. */
  datatype PinVerdict =
    | Accept
    | Reject(message: string, clearConfirm: bool)

  /** The guards of `_ok_event`, in their order. */
  function CheckPin(pin1: string, confirmMode: bool, pin2: string): PinVerdict {
    if pin1 == "" then Reject(EmptyPinMessage, false)
    else if |pin1| < AppLock.MinPinLength then Reject(ShortPinMessage, false)
    else if confirmMode && pin2 == "" then Reject(ConfirmPinMessage, false)
    else if confirmMode && pin1 != pin2 then Reject(MismatchMessage, true)
    else Accept
  }

  /**
   * A PIN is accepted exactly when it has at least four characters and, in
   * confirm mode, equals its confirmation; so every accepted PIN meets the
   * length `set_app_pin` demands.  Only a mismatch clears the confirmation.
   */
  lemma CheckPinAccepts(pin1: string, confirmMode: bool, pin2: string)
    ensures CheckPin(pin1, confirmMode, pin2) == Accept <==>
      |pin1| >= AppLock.MinPinLength && (confirmMode ==> pin2 == pin1)
    ensures CheckPin(pin1, confirmMode, pin2).Reject? && CheckPin(pin1, confirmMode, pin2).clearConfirm <==>
      |pin1| >= AppLock.MinPinLength && confirmMode && pin2 != "" && pin2 != pin1
  {
  }

  /** Which complaint comes first: the PIN itself before its confirmation. */
  lemma CheckPinOrder(pin1: string, confirmMode: bool, pin2: string)
    ensures pin1 == "" ==> CheckPin(pin1, confirmMode, pin2) == Reject(EmptyPinMessage, false)
    ensures 0 < |pin1| < AppLock.MinPinLength ==> CheckPin(pin1, confirmMode, pin2) == Reject(ShortPinMessage, false)
    ensures |pin1| >= AppLock.MinPinLength && confirmMode && pin2 == "" ==>
      CheckPin(pin1, confirmMode, pin2) == Reject(ConfirmPinMessage, false)
  {
  }

  class PinDialog {
    var pinEntry: string
    /** The confirmation entry, which only a confirm-mode dialog shows. */
    var confirmPinEntry: string
    var errorText: string
    var userPin: Option<string>
    var closed: bool
    /** Set when closing a dialog without Cancel asks the application to quit. */
    var quitRequested: bool
    const confirmPinMode: bool
    const showCancel: bool

    constructor (confirmPinMode: bool, showCancel: bool)
      ensures this.confirmPinMode == confirmPinMode && this.showCancel == showCancel
      ensures pinEntry == "" && confirmPinEntry == "" && errorText == ""
      ensures userPin.None? && !closed && !quitRequested
    {
      this.confirmPinMode := confirmPinMode;
      this.showCancel := showCancel;
      pinEntry, confirmPinEntry, errorText := "", "", "";
      userPin, closed, quitRequested := None, false, false;
    }

    /**
     * `_ok_event()`: an accepted PIN becomes the result and closes the
     * dialog; a rejected one shows its message, keeps the dialog open and
     * the result as it was, and a mismatch empties the confirmation.
     */
    method OkEvent()
      modifies this`errorText, this`userPin, this`closed, this`confirmPinEntry
      ensures var v := CheckPin(old(pinEntry), confirmPinMode, old(confirmPinEntry));
        && (v == Accept ==> userPin == Some(pinEntry) && closed && errorText == old(errorText)
                            && confirmPinEntry == old(confirmPinEntry))
        && (v.Reject? ==> errorText == v.message && userPin == old(userPin) && closed == old(closed)
                          && confirmPinEntry == if v.clearConfirm then "" else old(confirmPinEntry))
    {
      var pin1 := pinEntry;
      if pin1 == "" {
        errorText := EmptyPinMessage;
        return;
      }
      if |pin1| < AppLock.MinPinLength {
        errorText := ShortPinMessage;
        return;
      }
      if confirmPinMode {
        var pin2 := confirmPinEntry;
        if pin2 == "" {
          errorText := ConfirmPinMessage;
          return;
        }
        if pin1 != pin2 {
          errorText := MismatchMessage;
          confirmPinEntry := "";
          return;
        }
      }
      userPin := Some(pin1);
      closed := true;
    }

    /** `_cancel_event()` */
    method CancelEvent()
      modifies this`userPin, this`closed
      ensures userPin.None? && closed
    {
      userPin := None;
      closed := true;
    }

    /**
     * `_handle_close_button()`: the result is None either way; a dialog
     * without Cancel also asks the application to quit.
     */
    method HandleCloseButton()
      modifies this`userPin, this`closed, this`quitRequested
      ensures userPin.None? && closed
      ensures quitRequested == (old(quitRequested) || !showCancel)
    {
      if showCancel {
        CancelEvent();
      } else {
        userPin := None;
        quitRequested := true;
        closed := true;
      }
    }
  }
}
