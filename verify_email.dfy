/**
 * frontend/src/Authentication/VerifyEmail.jsx: confirming a new account with the code
 * the identity provider mailed. The provider's answer is a parameter.
 */
module VerifyEmail {
  import opened Common
  import opened Text

  const FieldsRequired := "Email and Verification Code are required"
  const InvalidEmail := "Invalid email format"
  const ExpiredMessage := "Verification code has expired. Please request a new one."
  const MismatchMessage := "Invalid verification code. Please try again."
  const AlreadyVerifiedMessage := "This email is already verified."

  /** The checks of handleVerifyEmail, in order: both fields present, then the email's shape. */
  function ValidateVerification(code: string, email: string): (r: Option<string>)
    ensures r == Some(FieldsRequired) <==> code == "" || email == ""
    ensures r == Some(InvalidEmail) <==> code != "" && email != "" && !EmailTest(email)
    ensures r.None? <==> code != "" && email != "" && EmailTest(email)
  {
    if code == "" || email == "" then Some(FieldsRequired)
    else if !EmailTest(email) then Some(InvalidEmail)
    else None
  }

  /** The shown error for a rejected confirmation, chosen by the error's name. */
  function VerificationError(e: ServiceError): (r: string)
    ensures e.name == "ExpiredCodeException" ==> r == ExpiredMessage
    ensures e.name == "CodeMismatchException" ==> r == MismatchMessage
    ensures e.name == "NotAuthorizedException" ==> r == AlreadyVerifiedMessage
    ensures e.name !in {"ExpiredCodeException", "CodeMismatchException", "NotAuthorizedException"} ==>
              r == e.message
  {
    if e.name == "ExpiredCodeException" then ExpiredMessage
    else if e.name == "CodeMismatchException" then MismatchMessage
    else if e.name == "NotAuthorizedException" then AlreadyVerifiedMessage
    else e.message
  }

  /** The mapping reads the name only: the message of a named error is never shown. */
  lemma NamedErrorsHideMessage(e1: ServiceError, e2: ServiceError)
    requires e1.name == e2.name
    requires e1.name in {"ExpiredCodeException", "CodeMismatchException", "NotAuthorizedException"}
    ensures VerificationError(e1) == VerificationError(e2)
  {
  }

  /** The confirmation request: the user name is the email. */
  datatype ConfirmRequest = ConfirmSignUp(username: string, code: string)

  class VerifyEmailPage {
    var loading: bool
    var error: string
    var verificationCode: string
    var emailForVerification: string

    constructor ()
      ensures !loading && error == "" && verificationCode == "" && emailForVerification == ""
    {
      loading, error, verificationCode, emailForVerification := false, "", "", "";
    }

    method HandleCodeChange(value: string)
      modifies this`verificationCode
      ensures verificationCode == value
    {
      verificationCode := value;
    }

    method HandleEmailChange(value: string)
      modifies this`emailForVerification
      ensures emailForVerification == value
    {
      emailForVerification := value;
    }

    /** handleVerifyEmail. `outcome` is `None` for a confirmed code, else the rejection. */
    method HandleVerifyEmail(outcome: Option<ServiceError>) returns (request: Option<ConfirmRequest>)
      modifies this
      ensures var v := ValidateVerification(old(verificationCode), old(emailForVerification));
              v.Some? ==>
                && request.None? && error == v.value && loading == old(loading)
                && verificationCode == old(verificationCode) && emailForVerification == old(emailForVerification)
      ensures var v := ValidateVerification(old(verificationCode), old(emailForVerification));
              v.None? ==>
                && request == Some(ConfirmSignUp(old(emailForVerification), old(verificationCode)))
                && !loading
                && (outcome.None? ==> error == "" && verificationCode == "" && emailForVerification == "")
                && (outcome.Some? ==>
                      && error == VerificationError(outcome.value)
                      && verificationCode == old(verificationCode)
                      && emailForVerification == old(emailForVerification))
    {
      var v := ValidateVerification(verificationCode, emailForVerification);
      if v.Some? {
        error := v.value;
        return None;
      }
      loading := true;
      error := "";
      request := Some(ConfirmSignUp(emailForVerification, verificationCode));
      if outcome.None? {
        verificationCode := "";
        emailForVerification := "";
      } else {
        error := VerificationError(outcome.value);
      }
      loading := false;
    }
  }
}
