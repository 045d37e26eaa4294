/**
 * frontend/src/Authentication/SignUp.jsx and AccessCode.jsx: the administrator sign-up
 * page and the access-code dialog that gates it. The page opens with the dialog shown;
 * a code the server accepts hides the dialog and shows the form; a completed sign-up
 * consumes the code and puts the page back behind the dialog.
 */
module SignUp {
  import opened Common
  import opened Text

  /** The six text fields of `formData`. */
  datatype Form = Form(firstName: string, lastName: string, email: string,
                       organization: string, password: string, confirmPassword: string)

  const EmptyForm := Form("", "", "", "", "", "")

  datatype Field = FirstName | LastName | EmailField | Organization | Password | ConfirmPassword

  /** handleChange: `{ ...formData, [name]: value }`. */
  function WithField(f: Form, field: Field, value: string): (r: Form)
    ensures field == FirstName ==> r == f.(firstName := value)
    ensures field == LastName ==> r == f.(lastName := value)
    ensures field == EmailField ==> r == f.(email := value)
    ensures field == Organization ==> r == f.(organization := value)
    ensures field == Password ==> r == f.(password := value)
    ensures field == ConfirmPassword ==> r == f.(confirmPassword := value)
  {
    match field
    case FirstName => f.(firstName := value)
    case LastName => f.(lastName := value)
    case EmailField => f.(email := value)
    case Organization => f.(organization := value)
    case Password => f.(password := value)
    case ConfirmPassword => f.(confirmPassword := value)
  }

  predicate AllFilled(f: Form)
  {
    f.firstName != "" && f.lastName != "" && f.email != "" &&
    f.organization != "" && f.password != "" && f.confirmPassword != ""
  }

  const AllRequired := "All fields are required"
  const InvalidEmail := "Invalid email format"
  const PasswordMismatch := "Passwords do not match"

  /** validateSignUp: the first failing check's message, or `None` when all pass. */
  function ValidateSignUp(f: Form): (r: Option<string>)
    ensures r == Some(AllRequired) <==> !AllFilled(f)
    ensures r == Some(InvalidEmail) <==> AllFilled(f) && !EmailTest(f.email)
    ensures r == Some(PasswordMismatch) <==>
              AllFilled(f) && EmailTest(f.email) && f.password != f.confirmPassword
    ensures r.None? <==> AllFilled(f) && EmailTest(f.email) && f.password == f.confirmPassword
  {
    if !AllFilled(f) then Some(AllRequired)
    else if !EmailTest(f.email) then Some(InvalidEmail)
    else if f.password != f.confirmPassword then Some(PasswordMismatch)
    else None
  }

  /** The requests the page sends: the identity-provider sign-up and the code consume. */
  datatype Request =
    | CreateAccount(username: string, password: string, organization: string,
                    givenName: string, familyName: string)
    | Consume(code: string)

  /** The identity-provider request the form describes; the email is also the user name. */
  function AccountRequest(f: Form): (r: Request)
    ensures r.CreateAccount? && r.username == f.email && r.password == f.password
    ensures r.organization == f.organization && r.givenName == f.firstName && r.familyName == f.lastName
  {
    CreateAccount(f.email, f.password, f.organization, f.firstName, f.lastName)
  }

  class SignUpPage {
    var loading: bool
    var error: string
    var snackbarOpen: bool
    var accessCode: string
    var accessCodeVerified: bool
    var popupOpen: bool
    var form: Form

    /** The form and the access-code dialog are never shown together. */
    predicate Valid()
      reads this
    {
      !(accessCodeVerified && popupOpen)
    }

    constructor ()
      ensures Valid()
      ensures !loading && error == "" && !snackbarOpen && accessCode == ""
      ensures !accessCodeVerified && popupOpen && form == EmptyForm
    {
      loading, error, snackbarOpen := false, "", false;
      accessCode, accessCodeVerified, popupOpen := "", false, true;
      form := EmptyForm;
    }

    /** The `onAccessCodeVerified` callback handed to the dialog. */
    method OnAccessCodeVerified(code: string)
      modifies this`accessCode, this`accessCodeVerified, this`popupOpen
      ensures Valid()
      ensures accessCode == code && accessCodeVerified && !popupOpen
    {
      accessCode := code;
      accessCodeVerified := true;
      popupOpen := false;
    }

    /** The `onClose` callback handed to the dialog. */
    method OnPopupClose()
      requires Valid()
      modifies this`popupOpen
      ensures Valid() && !popupOpen
    {
      popupOpen := false;
    }

    method HandleChange(field: Field, value: string)
      requires Valid()
      modifies this`form
      ensures Valid() && form == WithField(old(form), field, value)
    {
      form := WithField(form, field, value);
    }

    method HandleCloseSnackbar()
      requires Valid()
      modifies this`snackbarOpen
      ensures Valid() && !snackbarOpen
    {
      snackbarOpen := false;
    }

    /**
     * handleSignUp, offered only while the form is shown. `outcome` is how the
     * identity-provider request settles: `None` for success, or the thrown error's
     * message. The consume request's own outcome changes nothing, as it is caught and
     * logged. `calls` are the requests issued, in order.
     */
    method HandleSignUp(outcome: Option<string>) returns (calls: seq<Request>)
      requires Valid() && accessCodeVerified
      modifies this
      ensures Valid() && accessCode == old(accessCode)
      ensures var v := ValidateSignUp(old(form));
              v.Some? ==>
                && calls == [] && error == v.value && snackbarOpen
                && form == old(form) && accessCodeVerified && !popupOpen && loading == old(loading)
      ensures var v := ValidateSignUp(old(form));
              v.None? && outcome.None? ==>
                && calls == [AccountRequest(old(form)), Consume(old(accessCode))] && !loading
                && form == EmptyForm && !accessCodeVerified && popupOpen
                && error == "" && snackbarOpen == old(snackbarOpen)
      ensures var v := ValidateSignUp(old(form));
              v.None? && outcome.Some? ==>
                && calls == [AccountRequest(old(form))] && !loading
                && error == outcome.value && snackbarOpen
                && form == old(form) && accessCodeVerified && !popupOpen
    {
      var v := ValidateSignUp(form);
      if v.Some? {
        error := v.value;
        snackbarOpen := true;
        return [];
      }
      loading := true;
      error := "";
      calls := [AccountRequest(form)];
      if outcome.None? {
        calls := calls + [Consume(accessCode)];
        form := EmptyForm;
        accessCodeVerified := false;
        popupOpen := true;
      } else {
        error := outcome.value;
        snackbarOpen := true;
      }
      loading := false;
    }
  }

  const InvalidAccessCode := "Invalid access code"

  /** The dialog's answer: only a body carrying status 200 admits the code. */
  predicate Admits(reply: Option<int>)
  {
    reply == Some(200)
  }

  /** AccessCode.jsx: the dialog's own state. */
  class AccessCodeDialog {
    var accessCode: string
    var error: string

    constructor ()
      ensures accessCode == "" && error == ""
    {
      accessCode, error := "", "";
    }

    method HandleAccessCodeChange(value: string)
      modifies this`accessCode
      ensures accessCode == value
    {
      accessCode := value;
    }

    /**
     * handleVerifyAccessCode. The typed code is sent as it is, with no emptiness or
     * trimming check; `sent` is the code in the request body. `reply` is the
     * `statusCode` field of the response body, or `None` when the request throws.
     */
    method HandleVerify(parent: SignUpPage, reply: Option<int>) returns (sent: string)
      requires parent.Valid() && parent.popupOpen
      modifies this`error, parent
      ensures sent == old(accessCode)
      ensures parent.Valid() && accessCode == old(accessCode)
      ensures Admits(reply) ==>
                && parent.accessCode == accessCode && parent.accessCodeVerified && !parent.popupOpen
                && error == old(error)
      ensures !Admits(reply) ==>
                && error == InvalidAccessCode
                && parent.accessCode == old(parent.accessCode)
                && !parent.accessCodeVerified && parent.popupOpen
      ensures parent.form == old(parent.form) && parent.loading == old(parent.loading)
      ensures parent.error == old(parent.error) && parent.snackbarOpen == old(parent.snackbarOpen)
    {
      sent := accessCode;
      if Admits(reply) {
        parent.OnAccessCodeVerified(accessCode);
        parent.OnPopupClose();
      } else {
        error := InvalidAccessCode;
      }
    }

    /** handleClose: clear the error, then close. */
    method HandleClose(parent: SignUpPage)
      requires parent.Valid()
      modifies this`error, parent`popupOpen
      ensures parent.Valid() && error == "" && !parent.popupOpen
    {
      error := "";
      parent.OnPopupClose();
    }
  }
}
