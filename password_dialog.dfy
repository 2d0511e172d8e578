/**
 * The backup password dialog of ui/password_dialog.py: its OK check
 * (non-empty, at least eight characters, confirmed, matching) and the value
 * it hands back: the password when accepted, `None` on cancel or close.
 */
module PasswordDialogs {
  import opened Wrappers

  const MinPasswordLength := 8

  const EmptyPasswordMessage := "Password cannot be empty."
  const ShortPasswordMessage := "Password should be at least 8 characters."
  const ConfirmPasswordMessage := "Please confirm your password."
  const MismatchMessage := "Passwords do not match."

  datatype PasswordVerdict =
    | Accept
    | Reject(message: string, clearConfirm: bool)

  /** The guards of `_ok_event`, in their order. */
  function CheckPassword(pass1: string, pass2: string): PasswordVerdict {
    if pass1 == "" then Reject(EmptyPasswordMessage, false)
    else if |pass1| < MinPasswordLength then Reject(ShortPasswordMessage, false)
    else if pass2 == "" then Reject(ConfirmPasswordMessage, false)
    else if pass1 != pass2 then Reject(MismatchMessage, true)
    else Accept
  }

  /**
   * A password is accepted exactly when it has at least eight characters
   * and equals its confirmation; only a mismatch clears the confirmation.
   */
  lemma CheckPasswordAccepts(pass1: string, pass2: string)
    ensures CheckPassword(pass1, pass2) == Accept <==> |pass1| >= MinPasswordLength && pass2 == pass1
    ensures CheckPassword(pass1, pass2).Reject? && CheckPassword(pass1, pass2).clearConfirm <==>
      |pass1| >= MinPasswordLength && pass2 != "" && pass2 != pass1
  {
  }

  /** Which complaint comes first: the password itself before its confirmation. */
  lemma CheckPasswordOrder(pass1: string, pass2: string)
    ensures pass1 == "" ==> CheckPassword(pass1, pass2) == Reject(EmptyPasswordMessage, false)
    ensures 0 < |pass1| < MinPasswordLength ==> CheckPassword(pass1, pass2) == Reject(ShortPasswordMessage, false)
    ensures |pass1| >= MinPasswordLength && pass2 == "" ==> CheckPassword(pass1, pass2) == Reject(ConfirmPasswordMessage, false)
  {
  }

  class PasswordDialog {
    var passwordEntry: string
    var confirmPasswordEntry: string
    var errorText: string
    var userPassword: Option<string>
    var closed: bool
    const showCancel: bool

    constructor (showCancel: bool)
      ensures this.showCancel == showCancel
      ensures passwordEntry == "" && confirmPasswordEntry == "" && errorText == ""
      ensures userPassword.None? && !closed
    {
      this.showCancel := showCancel;
      passwordEntry, confirmPasswordEntry, errorText := "", "", "";
      userPassword, closed := None, false;
    }

    /**
     * `_ok_event()`: an accepted password becomes the result and closes the
     * dialog; a rejected one shows its message and keeps the dialog open
     * and the result as it was, and a mismatch empties the confirmation.
     */
    method OkEvent()
      modifies this`errorText, this`userPassword, this`closed, this`confirmPasswordEntry
      ensures var v := CheckPassword(old(passwordEntry), old(confirmPasswordEntry));
        && (v == Accept ==> userPassword == Some(passwordEntry) && closed && errorText == old(errorText)
                            && confirmPasswordEntry == old(confirmPasswordEntry))
        && (v.Reject? ==> errorText == v.message && userPassword == old(userPassword) && closed == old(closed)
                          && confirmPasswordEntry == if v.clearConfirm then "" else old(confirmPasswordEntry))
    {
      var pass1 := passwordEntry;
      var pass2 := confirmPasswordEntry;
      if pass1 == "" {
        errorText := EmptyPasswordMessage;
        return;
      }
      if |pass1| < MinPasswordLength {
        errorText := ShortPasswordMessage;
        return;
      }
      if pass2 == "" {
        errorText := ConfirmPasswordMessage;
        return;
      }
      if pass1 != pass2 {
        errorText := MismatchMessage;
        confirmPasswordEntry := "";
        return;
      }
      userPassword := Some(pass1);
      closed := true;
    }

    /** `_cancel_event()` */
    method CancelEvent()
      modifies this`userPassword, this`closed
      ensures userPassword.None? && closed
    {
      userPassword := None;
      closed := true;
    }

    /** `_handle_close_button()`: with or without a Cancel button, closing gives None. */
    method HandleCloseButton()
      modifies this`userPassword, this`closed
      ensures userPassword.None? && closed
    {
      if showCancel {
        CancelEvent();
      } else {
        userPassword := None;
        closed := true;
      }
    }
  }
}
