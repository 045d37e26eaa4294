/**
 * frontend/src/Authentication/ForgotPasswordVerification.jsx: the reset dialog, where
 * the user types the mailed code and a new password twice. The email is the one the
 * request dialog holds.
 */
module ForgotPasswordVerification {
  import opened Common
  import Text
  import Login
  import ForgotPassword

  const PasswordsRequired := "All password fields are required"
  const PasswordMismatch := "Passwords do not match"
  const CodeRequired := "Verification code is required"

  /**
   * The checks of handleResetPassword followed by the one of handleVerifyCode, which it
   * then calls: both passwords present, equal, and only then a code present.
   */
  function ValidateReset(code: string, newPassword: string, confirmNewPassword: string): (r: Option<string>)
    ensures r == Some(PasswordsRequired) <==> newPassword == "" || confirmNewPassword == ""
    ensures r == Some(PasswordMismatch) <==>
              newPassword != "" && confirmNewPassword != "" && newPassword != confirmNewPassword
    ensures r == Some(CodeRequired) <==>
              newPassword != "" && newPassword == confirmNewPassword && code == ""
    ensures r.None? <==> code != "" && newPassword != "" && newPassword == confirmNewPassword
  {
    if newPassword == "" || confirmNewPassword == "" then Some(PasswordsRequired)
    else if newPassword != confirmNewPassword then Some(PasswordMismatch)
    else if code == "" then Some(CodeRequired)
    else None
  }

  /** The reset request: user name, mailed code and the new password. */
  datatype ResetRequest = ConfirmForgotPassword(username: string, code: string, password: string)

  class ResetDialog {
    var loading: bool
    var verificationCode: string
    var newPassword: string
    var confirmNewPassword: string
    var dialogError: string

    constructor ()
      ensures !loading && verificationCode == "" && newPassword == "" && confirmNewPassword == ""
      ensures dialogError == ""
    {
      loading, verificationCode, newPassword, confirmNewPassword, dialogError := false, "", "", "", "";
    }

    method SetFields(code: string, password: string, confirm: string)
      modifies this`verificationCode, this`newPassword, this`confirmNewPassword
      ensures verificationCode == code && newPassword == password && confirmNewPassword == confirm
    {
      verificationCode, newPassword, confirmNewPassword := code, password, confirm;
    }

    /** resetDialog */
    method Reset()
      modifies this`verificationCode, this`newPassword, this`confirmNewPassword, this`dialogError
      ensures verificationCode == "" && newPassword == "" && confirmNewPassword == "" && dialogError == ""
    {
      verificationCode, newPassword, confirmNewPassword, dialogError := "", "", "", "";
    }

    /**
     * handleVerifyCode. `email` is the request dialog's email; `outcome` is `None` when the
     * password was reset, else the thrown error's message. On success the request dialog's
     * `handleCloseVerificationDialog` runs, then the four fields are reset.
     */
    method HandleVerifyCode(parent: ForgotPassword.ForgotPasswordDialog, outcome: Option<string>)
      returns (request: Option<ResetRequest>)
      modifies this, parent`verificationDialogOpen, parent`email, parent`dialogError
      ensures old(verificationCode) == "" ==>
                && request.None? && dialogError == CodeRequired && loading == old(loading)
                && verificationCode == old(verificationCode) && newPassword == old(newPassword)
                && confirmNewPassword == old(confirmNewPassword)
                && parent.verificationDialogOpen == old(parent.verificationDialogOpen)
                && parent.email == old(parent.email) && parent.dialogError == old(parent.dialogError)
      ensures old(verificationCode) != "" ==>
                && request == Some(ConfirmForgotPassword(old(parent.email), old(verificationCode), old(newPassword)))
                && !loading
      ensures old(verificationCode) != "" && outcome.None? ==>
                && verificationCode == "" && newPassword == "" && confirmNewPassword == "" && dialogError == ""
                && !parent.verificationDialogOpen && parent.email == "" && parent.dialogError == ""
      ensures old(verificationCode) != "" && outcome.Some? ==>
                && dialogError == outcome.value
                && verificationCode == old(verificationCode) && newPassword == old(newPassword)
                && confirmNewPassword == old(confirmNewPassword)
                && parent.verificationDialogOpen == old(parent.verificationDialogOpen)
                && parent.email == old(parent.email) && parent.dialogError == old(parent.dialogError)
    {
      if verificationCode == "" {
        dialogError := CodeRequired;
        return None;
      }
      dialogError := "";
      loading := true;
      request := Some(ConfirmForgotPassword(parent.email, verificationCode, newPassword));
      if outcome.None? {
        parent.HandleCloseVerificationDialog();
        Reset();
      } else {
        dialogError := outcome.value;
      }
      loading := false;
    }

    /** handleResetPassword: the password checks, then handleVerifyCode. */
    method HandleResetPassword(parent: ForgotPassword.ForgotPasswordDialog, outcome: Option<string>)
      returns (request: Option<ResetRequest>)
      modifies this, parent`verificationDialogOpen, parent`email, parent`dialogError
      ensures var v := ValidateReset(old(verificationCode), old(newPassword), old(confirmNewPassword));
              v.Some? ==>
                && request.None? && dialogError == v.value && loading == old(loading)
                && verificationCode == old(verificationCode) && newPassword == old(newPassword)
                && confirmNewPassword == old(confirmNewPassword)
                && parent.verificationDialogOpen == old(parent.verificationDialogOpen)
                && parent.email == old(parent.email) && parent.dialogError == old(parent.dialogError)
      ensures var v := ValidateReset(old(verificationCode), old(newPassword), old(confirmNewPassword));
              v.None? ==>
                && request == Some(ConfirmForgotPassword(old(parent.email), old(verificationCode), old(newPassword)))
                && !loading
                && (outcome.None? ==>
                      && verificationCode == "" && newPassword == "" && confirmNewPassword == ""
                      && dialogError == "" && !parent.verificationDialogOpen && parent.email == ""
                      && parent.dialogError == "")
                && (outcome.Some? ==>
                      && dialogError == outcome.value && verificationCode == old(verificationCode)
                      && newPassword == old(newPassword) && confirmNewPassword == old(confirmNewPassword)
                      && parent.verificationDialogOpen == old(parent.verificationDialogOpen)
                      && parent.email == old(parent.email) && parent.dialogError == old(parent.dialogError))
    {
      if newPassword == "" || confirmNewPassword == "" {
        dialogError := PasswordsRequired;
        return None;
      }
      if newPassword != confirmNewPassword {
        dialogError := PasswordMismatch;
        return None;
      }
      dialogError := "";
      request := HandleVerifyCode(parent, outcome);
    }
  }

  /**
   * A user who asks for a reset code and then resets the password ends with both dialogs
   * closed, the request dialog's email cleared and the sign-in page back in front.
   */
  method ResetScenario(code: string, password: string)
    requires code != "" && password != ""
  {
    var login := new Login.LoginPage();
    login.HandleForgotPasswordClick();
    var request := new ForgotPassword.ForgotPasswordDialog();
    var reset := new ResetDialog();
    request.HandleEmailChange("user@mail.com");
    Text.EmailAccepted();
    var sent := request.HandleForgotPassword(login, None);
    assert sent == Some("user@mail.com") && request.verificationDialogOpen && !login.dialogOpen;
    reset.SetFields(code, password, password);
    var confirmed := reset.HandleResetPassword(request, None);
    assert confirmed == Some(ConfirmForgotPassword("user@mail.com", code, password));
    assert !request.verificationDialogOpen && request.email == "" && reset.newPassword == "";
  }
}
