/**
 * frontend/src/Authentication/ForgotPassword.jsx: the dialog, opened from the sign-in
 * page, that asks the identity provider to mail a reset code, and then opens the
 * reset dialog for the same email.
 */
module ForgotPassword {
  import opened Common
  import opened Text
  import Login

  const EmailRequired := "Email is required"
  const InvalidEmail := "Invalid email format"
  const NoSuchAccount := "Account with this email does not exist"

  /** The checks of handleForgotPassword, in order: email present, then its shape. */
  function ValidateEmail(email: string): (r: Option<string>)
    ensures r == Some(EmailRequired) <==> email == ""
    ensures r == Some(InvalidEmail) <==> email != "" && !EmailTest(email)
    ensures r.None? <==> email != "" && EmailTest(email)
  {
    if email == "" then Some(EmailRequired)
    else if !EmailTest(email) then Some(InvalidEmail)
    else None
  }

  /** The shown error for a rejected request: a message mentioning "User not found" is replaced. */
  function ResetRequestError(message: string): (r: string)
    ensures Contains(message, "User not found") ==> r == NoSuchAccount
    ensures !Contains(message, "User not found") ==> r == message
  {
    if Contains(message, "User not found") then NoSuchAccount else message
  }

  /** The match is on the exact, case-sensitive text, anywhere in the message. */
  lemma ResetRequestErrorExamples()
    ensures ResetRequestError("Error: User not found.") == NoSuchAccount
    ensures ResetRequestError("user not found") == "user not found"
  {
    assert PartAt("Error: User not found.", "User not found", 7);
    var lower := "user not found";
    forall i ensures !PartAt(lower, "User not found", i) {
      if 0 <= i <= |lower| - 14 {
        assert i == 0;
        assert lower[i..i + 14][0] != "User not found"[0];
      }
    }
  }

  class ForgotPasswordDialog {
    var loading: bool
    var email: string
    var dialogError: string
    var verificationDialogOpen: bool

    constructor ()
      ensures !loading && email == "" && dialogError == "" && !verificationDialogOpen
    {
      loading, email, dialogError, verificationDialogOpen := false, "", "", false;
    }

    method HandleEmailChange(value: string)
      modifies this`email
      ensures email == value
    {
      email := value;
    }

    /**
     * handleForgotPassword. `outcome` is `None` when the reset code was sent, else the
     * thrown error's message; `request` is the user name sent, if any. On success the
     * sign-in page's dialog closes and the reset dialog opens; the email is kept, as the
     * reset dialog sends it again.
     */
    method HandleForgotPassword(parent: Login.LoginPage, outcome: Option<string>)
      returns (request: Option<string>)
      modifies this, parent`dialogOpen
      ensures email == old(email)
      ensures ValidateEmail(old(email)).Some? ==>
                && request.None? && dialogError == ValidateEmail(old(email)).value
                && loading == old(loading) && verificationDialogOpen == old(verificationDialogOpen)
                && parent.dialogOpen == old(parent.dialogOpen)
      ensures ValidateEmail(old(email)).None? ==> request == Some(old(email)) && !loading
      ensures ValidateEmail(old(email)).None? && outcome.None? ==>
                && dialogError == "" && !parent.dialogOpen && verificationDialogOpen
      ensures ValidateEmail(old(email)).None? && outcome.Some? ==>
                && dialogError == ResetRequestError(outcome.value)
                && parent.dialogOpen == old(parent.dialogOpen)
                && verificationDialogOpen == old(verificationDialogOpen)
    {
      var v := ValidateEmail(email);
      if v.Some? {
        dialogError := v.value;
        return None;
      }
      loading := true;
      dialogError := "";
      request := Some(email);
      if outcome.None? {
        parent.HandleDialogClose();
        HandleOpenVerificationDialog();
      } else {
        dialogError := ResetRequestError(outcome.value);
      }
      loading := false;
    }

    method HandleOpenVerificationDialog()
      modifies this`verificationDialogOpen
      ensures verificationDialogOpen
    {
      verificationDialogOpen := true;
    }

    /** handleCloseVerificationDialog: close the reset dialog and run resetDialog. */
    method HandleCloseVerificationDialog()
      modifies this`verificationDialogOpen, this`email, this`dialogError
      ensures !verificationDialogOpen && email == "" && dialogError == ""
    {
      verificationDialogOpen := false;
      email := "";
      dialogError := "";
    }
  }
}
