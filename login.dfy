/**
 * frontend/src/Authentication/Login.jsx: the sign-in form. The identity provider's
 * answer is a parameter; a successful sign-in hands the returned token to the session.
 */
module Login {
  import opened Common
  import opened Text
  import AuthContext

  const CredentialsRequired := "Email and Password are required"
  const InvalidEmail := "Invalid email format"

  /** The checks of handleSignIn, in order: both fields present, then the email's shape. */
  function ValidateSignIn(email: string, password: string): (r: Option<string>)
    ensures r == Some(CredentialsRequired) <==> email == "" || password == ""
    ensures r == Some(InvalidEmail) <==> email != "" && password != "" && !EmailTest(email)
    ensures r.None? <==> email != "" && password != "" && EmailTest(email)
  {
    if email == "" || password == "" then Some(CredentialsRequired)
    else if !EmailTest(email) then Some(InvalidEmail)
    else None
  }

  /** An empty email is reported as missing even though it would also fail the format test. */
  lemma RequiredBeforeFormat(password: string)
    ensures ValidateSignIn("", password) == Some(CredentialsRequired)
    ensures !EmailTest("")
  {
    EmailRejected();
  }

  /** How the password sign-in settles: the `IdToken` it returned, or the thrown error's message. */
  datatype SignInOutcome = Authenticated(idToken: string) | Rejected(message: string)

  /** The `USER_PASSWORD_AUTH` request with its user name and password. */
  datatype SignInRequest = PasswordAuth(username: string, password: string)

  class LoginPage {
    var loading: bool
    var error: string
    var email: string
    var password: string
    /** Whether the forgot-password dialog is open. */
    var dialogOpen: bool

    constructor ()
      ensures !loading && error == "" && email == "" && password == "" && !dialogOpen
    {
      loading, error, email, password, dialogOpen := false, "", "", "", false;
    }

    method HandleEmailChange(value: string)
      modifies this`email
      ensures email == value
    {
      email := value;
    }

    method HandlePasswordChange(value: string)
      modifies this`password
      ensures password == value
    {
      password := value;
    }

    /**
     * handleSignIn. `request` is the sign-in request issued, if any. On success the form
     * is cleared and `auth.Login` stores the token and goes to the dashboard.
     */
    method HandleSignIn(auth: AuthContext.AuthProvider, outcome: SignInOutcome)
      returns (request: Option<SignInRequest>)
      modifies this, auth
      ensures dialogOpen == old(dialogOpen)
      ensures var v := ValidateSignIn(old(email), old(password));
              v.Some? ==>
                && request.None? && error == v.value && loading == old(loading)
                && email == old(email) && password == old(password)
                && auth.storage == old(auth.storage) && auth.isAuthenticated == old(auth.isAuthenticated)
                && auth.path == old(auth.path)
      ensures var v := ValidateSignIn(old(email), old(password));
              v.None? ==> request == Some(PasswordAuth(old(email), old(password))) && !loading
      ensures var v := ValidateSignIn(old(email), old(password));
              v.None? && outcome.Authenticated? ==>
                && error == "" && email == "" && password == ""
                && auth.storage == old(auth.storage)[AuthContext.TokenKey := outcome.idToken]
                && auth.isAuthenticated && auth.path == AuthContext.DashboardPath
      ensures var v := ValidateSignIn(old(email), old(password));
              v.None? && outcome.Rejected? ==>
                && error == outcome.message && email == old(email) && password == old(password)
                && auth.storage == old(auth.storage) && auth.isAuthenticated == old(auth.isAuthenticated)
                && auth.path == old(auth.path)
    {
      var v := ValidateSignIn(email, password);
      if v.Some? {
        error := v.value;
        return None;
      }
      loading := true;
      error := "";
      request := Some(PasswordAuth(email, password));
      match outcome {
        case Authenticated(token) =>
          email, password := "", "";
          auth.Login(token);
        case Rejected(message) =>
          error := message;
      }
      loading := false;
    }

    /** handleForgotPasswordClick */
    method HandleForgotPasswordClick()
      modifies this`dialogOpen
      ensures dialogOpen
    {
      dialogOpen := true;
    }

    /** handleDialogClose, also handed to the forgot-password dialog. */
    method HandleDialogClose()
      modifies this`dialogOpen
      ensures !dialogOpen
    {
      dialogOpen := false;
    }
  }
}
