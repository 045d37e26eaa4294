# FindItNow, modelled in Dafny

FindItNow is a lost-and-found service. Administrators sign up with a one-time access
code. They upload photos of found items into an object-store bucket, and they delete
items once they are claimed. Visitors upload a photo of what they lost. A label
detector tags that photo and every stored photo, and the service returns the stored
photos that share at least two label names with it.

This project models the decision logic and state changes of that system:

- the access-code verifier and consumer over a code table (`access_codes.dfy`);
- the found-item lister and deleter over an object store (`catalog.dfy`);
- the image search handler and its label comparison (`search.dfy`);
- the administrator dashboard with its upload checks (`dashboard.dfy`);
- the public search page (`main_page.dfy`);
- the sign-up page and its access-code dialog (`signup.dfy`), and the two together
  with the backend table (`gate.dfy`);
- the sign-in form, the email confirmation form and the two password-reset dialogs
  (`login.dfy`, `verify_email.dfy`, `forgot_password.dfy`,
  `forgot_password_verification.dfy`);
- the session flag and its stored token (`auth_context.dfy`).

`common.dfy` holds the shared values. It also holds JavaScript's `\s` and the email
test `/\S+@\S+\.\S+/`, which four forms apply.

How the model is built:

- Every external service is a parameter of the handler that calls it. That covers the
  code table's reads, the object store, the label detector, the identity provider and
  every HTTP request a page sends. The parameter is the outcome, as a value: a reply,
  `None` for success, the thrown error's message, or a function from key to reply.
- Handlers that update state in steps are methods of classes whose fields are that
  state. Their `ensures` give the whole new state. Pure decisions are functions with
  their own contracts, and lemmas relate them.
- One React component is one class. A callback handed down from a parent component is
  a method call on the parent object.
- Each handler runs to completion before the next one starts. `MainPage.handleSearch`
  is the exception: it is also split at its `await` into `BeginSearch` and
  `FinishSearch`. While the request is in flight only the Search button is disabled,
  so a drop or a pick can run between the two. `MainPage.DropDuringSearch` shows that
  the page can then show matches and the invalid-image error together.

Access codes are meant to be single-use. A strict single-use consumer would answer a
second consume of the same code with 409 Conflict. The code does not, and the model
follows the code. The consumer's only condition is that the record exists
(backend/updateAccessCodeStatus/index.js:28). So consuming a code that was already
used answers 200 again and leaves the table as it was. The only guard against reuse
is the `isUsed` check in the verifier.

## Model

| member | source | states |
|---|---|---|
| AccessCodes.VerifyCode | backend/verifyAccessCode/index.js:15-58 | a missing or empty code gives 400 "Code is required"; a store failure gives 500 "Internal Server Error"; an unknown code gives 400 "Invalid code"; a used code gives 400 "Code has already been used"; status is 200 ("Code is valid") exactly when the code is present, unused and the read succeeded |
| AccessCodes.VerifyMissingCodeIgnoresTable | backend/verifyAccessCode/index.js:15-21 | a missing code is answered the same way whatever the table holds and whether or not the store would fail |
| AccessCodes.MarkUsed | backend/updateAccessCodeStatus/index.js:21-30 | the update keeps the set of codes, marks the given code used if it exists, and changes no other record |
| AccessCodes.ConsumeTable | backend/updateAccessCodeStatus/index.js:13-33 | the table after a consume has the same codes; a missing code or a failed call leaves it unchanged |
| AccessCodes.ConsumeResponse | backend/updateAccessCodeStatus/index.js:13-53 | 400 "Code is required" for a missing code; 200 "Code updated successfully" exactly when the code exists and the call succeeds, used or not; 404 "Code not found" for an absent code; 500 "Could not update code" for other failures |
| AccessCodes.CodeTable.constructor | backend/updateAccessCodeStatus/index.js:21-23 | the table starts as given |
| AccessCodes.CodeTable.UpdateStatus | backend/updateAccessCodeStatus/index.js:10-55 | the table is updated in place to `ConsumeTable` of the old table, and the reply is `ConsumeResponse` of the old table |
| AccessCodes.ConsumeIdempotent | backend/updateAccessCodeStatus/index.js:24-28 | consuming twice leaves the table as consuming once, and the second consume of an existing code is answered 200 again |
| AccessCodes.ConsumeMonotone | backend/updateAccessCodeStatus/index.js:24-26 | no consume turns a used code back to unused or removes it |
| AccessCodes.Replay | backend/updateAccessCodeStatus/index.js:10-55 | a sequence of consumes, one at a time, keeps the set of codes |
| AccessCodes.SpentStaysSpent | backend/verifyAccessCode/index.js:39-45 | once a code is used, no sequence of later consumes lets the verifier answer 200 for it |
| AccessCodes.ConsumeThenVerify | backend/updateAccessCodeStatus/index.js:24-38 | after a successful consume of a code, the verifier answers 400 "Code has already been used" for it |
| Catalog.FoundItems | backend/foundItems/index.js:4-30 | 200 exactly when the listing call returned `Contents`, with the keys in listing order; any other outcome, including a reply without `Contents`, gives 500 "Failed to list items" |
| Catalog.KeysOf | backend/foundItems/index.js:8 | the keys of the listed objects, one per object, in order |
| Catalog.PageSize | backend/foundItems/index.js:7 | the single page never lists more keys than the bucket holds, and it lists the whole bucket when the bucket fits in one page |
| Catalog.PageListsAll | backend/foundItems/index.js:7-8 | every key of a bucket that fits in one page (at most 1000 objects) appears in the listing |
| Catalog.ObjectStore.constructor | backend/deleteItem/index.js:2 | the store starts as given |
| Catalog.ObjectStore.Put | frontend/src/AdminDashboard.jsx:96-102 | an accepted upload writes the object under its key and changes nothing else; a failed one changes nothing |
| Catalog.ObjectStore.DeleteItem | backend/deleteItem/index.js:4-24 | bucket and key are used as given; with no store error the key is removed whether or not it existed and the reply is 200 naming key and bucket; a store error leaves the store unchanged and gives 500 naming key, bucket and the error |
| Catalog.DeletedKeyNotListed | backend/deleteItem/index.js:14 | after a delete of a key, no listing of that bucket contains it |
| Catalog.UploadedKeyListed | backend/foundItems/index.js:7-8 | after an upload into a bucket of fewer than 1000 objects, every listing contains the new key |
| Catalog.CatalogRoundTrip | backend/foundItems/index.js:7-18 | on an empty bucket, uploading "lostcat.jpg" gives the listing ["lostcat.jpg"], and deleting it gives the empty listing |
| Search.LabelsMatchIff | backend/searchItems/lambda_function.py:131-140 | two label lists match exactly when there are two different names that both carry |
| Search.LabelsMatchByNames | backend/searchItems/lambda_function.py:133-134 | the match depends only on the sets of label names, not on confidences or repeated names |
| Search.LabelsMatchSymmetric | backend/searchItems/lambda_function.py:138 | the match is symmetric in its two arguments |
| Search.ScanSound | backend/searchItems/lambda_function.py:101-124 | every match names a listed key that does not end in '/', whose object was read and is not empty, whose labels are the match's labels and match the uploaded labels |
| Search.ScanKeepsOrder | backend/searchItems/lambda_function.py:101-124 | the matched keys are a subsequence of the listed keys |
| Search.ScanComplete | backend/searchItems/lambda_function.py:101-124 | when no read or detection throws, every listed key that passes the skips and whose labels match appears as a match |
| Search.ScanCompleteBeforeThrow | backend/searchItems/lambda_function.py:101-129 | a listed key that passes the skips and whose labels match is among the matches when nothing up to it throws, whatever happens after it |
| Search.ScanStopsAtThrow | backend/searchItems/lambda_function.py:101-129 | when the read or the detection of a key throws, the result is exactly the matches gathered from the keys before it |
| Search.CompareWithFoundItems | backend/searchItems/lambda_function.py:91-129 | the loop returns the scan of the listed keys; a thrown listing or one without `Contents` gives no matches; an exception inside the loop keeps the matches gathered so far |
| Search.LambdaHandler | backend/searchItems/lambda_function.py:19-59 | 400 "Received empty image data" for an empty decoded body; 400 "Processed image binary is empty" for an empty conversion; 400 exactly in those two cases; 200 exactly when decoding, conversion and detection of the upload succeed, and then the body is the scan of the listed keys in order (no matches when the listing has no `Contents` or throws), each match satisfying the label test; every other reply is 500 |
| Text.EmailTestIff | frontend/src/Authentication/SignUp.jsx:47 | the unanchored test holds exactly when some '@' has a non-space character before it and a later '.' with only non-space characters between them, at least one of them, and a non-space character after it |
| Text.EmailAccepted | frontend/src/Authentication/Login.jsx:29 | "user@mail.com" passes, and so does an address inside other text |
| Text.EmailRejected | frontend/src/Authentication/VerifyEmail.jsx:21 | "", "user@mail", "user@.com" and addresses broken by a space fail |
| Dashboard.BeforeFirstDot | frontend/src/AdminDashboard.jsx:64 | the default filename is a prefix of the file name with no '.', followed in the name by a '.' unless it is the whole name |
| Dashboard.AfterLastDot | frontend/src/AdminDashboard.jsx:77 | the extension is a suffix of the file name with no '.', preceded in the name by a '.' unless it is the whole name |
| Dashboard.BeforeFirstDotAt | frontend/src/AdminDashboard.jsx:64 | the default filename is exactly the text before any '.' that has no '.' before it |
| Dashboard.AfterLastDotAt | frontend/src/AdminDashboard.jsx:77 | the extension is exactly the text after any '.' that has no '.' after it |
| Dashboard.StoredWithoutDot | frontend/src/AdminDashboard.jsx:85 | a filename without '.' is stored as filename + "." + extension |
| Dashboard.CheckUpload | frontend/src/AdminDashboard.jsx:71-90 | the checks run in the order file, extension, collision: no file, then an extension outside jpg/jpeg/png (case-sensitive), then a stored name already in the last fetched list; otherwise the upload goes to the stored name, which is not in the list |
| Dashboard.SingleDotRoundTrip | frontend/src/AdminDashboard.jsx:64-85 | a file name with exactly one '.', uploaded without renaming, is stored under its own name |
| Dashboard.CheckLostCat | frontend/src/AdminDashboard.jsx:64-90 | "lostcat.jpg" uploaded without renaming is stored as "lostcat.jpg" unless that name is listed |
| Dashboard.CheckSeveralDots | frontend/src/AdminDashboard.jsx:64-85 | "my.cat.png" uploaded without renaming is stored as "my.png" |
| Dashboard.CheckBadExtensions | frontend/src/AdminDashboard.jsx:77-83 | "cat.JPG" and "cat" are refused for their extension |
| Dashboard.CheckEmptyFilename | frontend/src/AdminDashboard.jsx:64-85 | ".png" gives an empty default filename and is stored as ".png" |
| Dashboard.CheckDottedFilename | frontend/src/AdminDashboard.jsx:85 | a typed filename with a '.' is stored as typed, whatever the file's extension |
| Dashboard.AdminDashboard.constructor | frontend/src/AdminDashboard.jsx:32-41 | the dashboard starts loading, with no items, no error, no file and both dialogs closed |
| Dashboard.AdminDashboard.FetchItems | frontend/src/AdminDashboard.jsx:50-60 | a successful fetch replaces the items; a failed one keeps them and sets "Failed to load items"; loading ends either way; nothing else changes |
| Dashboard.AdminDashboard.FileChange | frontend/src/AdminDashboard.jsx:62-65 | the chosen file is kept and the filename becomes its default name, or empty without a file; nothing else changes |
| Dashboard.AdminDashboard.FilenameChange | frontend/src/AdminDashboard.jsx:237 | the filename field takes the typed value |
| Dashboard.AdminDashboard.UploadClick | frontend/src/AdminDashboard.jsx:67-69 | the upload dialog opens |
| Dashboard.AdminDashboard.ConfirmUpload | frontend/src/AdminDashboard.jsx:71-112 | a failed check sets its message, sends nothing and keeps the dialog open; otherwise the file is put under the stored name with its media type, uploading ends and the dialog closes; only a successful put clears file and filename and refetches; a failed put sets "Failed to upload file" |
| Dashboard.AdminDashboard.SendUpload | frontend/src/AdminDashboard.jsx:92-111 | the request half of the upload, with the state it leaves on success and on failure |
| Dashboard.AdminDashboard.CloseUploadDialog | frontend/src/AdminDashboard.jsx:244 | the upload dialog closes |
| Dashboard.AdminDashboard.DeleteClick | frontend/src/AdminDashboard.jsx:114-117 | the item is selected and the confirmation opens |
| Dashboard.AdminDashboard.CloseDeleteDialog | frontend/src/AdminDashboard.jsx:255 | the confirmation closes and the selection stays |
| Dashboard.AdminDashboard.ConfirmDelete | frontend/src/AdminDashboard.jsx:119-138 | the delete request names the configured bucket and the selected item; only success refetches; a failure sets "Failed to delete item"; the confirmation closes and the selection is cleared either way |
| MainPage.SearchPage.constructor | frontend/src/MainPage.jsx:70-74 | the page starts with no image, no error, no matches and not loading |
| MainPage.SearchPage.HandleImageUpload | frontend/src/MainPage.jsx:76-84 | a file whose type is exactly image/png or image/jpeg becomes the image and clears the error; anything else, including no file, clears the image and sets the PNG/JPEG message |
| MainPage.SearchPage.BeginSearch | frontend/src/MainPage.jsx:101-109 | with no image, "No image uploaded." is set and nothing else changes; otherwise the request is sent with loading on, the error cleared and the matches emptied |
| MainPage.SearchPage.FinishSearch | frontend/src/MainPage.jsx:111-136 | admits any error line and image a drop or pick left while the request was in flight; a non-empty answer becomes the matches and leaves the error line as it is; an empty or missing one sets "No such object found."; a failed request sets "An error occurred during the search."; then loading ends, the image is dropped and the file input is cleared |
| MainPage.SearchPage.HandleSearch | frontend/src/MainPage.jsx:101-137 | the whole handler: the request is sent exactly when there is an image, and the page then holds the answer's matches or the matching error |
| MainPage.SearchOutcomeMessage | frontend/src/MainPage.jsx:122-130 | a settled search leaves an empty error exactly when it shows matches, and one of the two messages otherwise |
| SignUp.WithField | frontend/src/Authentication/SignUp.jsx:103-105 | a form change replaces exactly the named field |
| SignUp.ValidateSignUp | frontend/src/Authentication/SignUp.jsx:40-58 | the first failing check wins: "All fields are required" when any of the six fields is empty, then "Invalid email format", then "Passwords do not match"; no message exactly when all three pass |
| SignUp.AccountRequest | frontend/src/Authentication/SignUp.jsx:77-87 | the sign-up request uses the email as user name, with the password, organization and both names |
| SignUp.SignUpPage.constructor | frontend/src/Authentication/SignUp.jsx:14-27 | the page starts behind the open dialog, not verified, with an empty form |
| SignUp.SignUpPage.OnAccessCodeVerified | frontend/src/Authentication/SignUp.jsx:116-120 | the verified callback stores the code, shows the form and hides the dialog |
| SignUp.SignUpPage.OnPopupClose | frontend/src/Authentication/SignUp.jsx:115 | the dialog's close callback hides the dialog |
| SignUp.SignUpPage.HandleChange | frontend/src/Authentication/SignUp.jsx:103-105 | a typed value replaces its field of the form |
| SignUp.SignUpPage.HandleCloseSnackbar | frontend/src/Authentication/SignUp.jsx:107-109 | the snackbar closes |
| SignUp.SignUpPage.HandleSignUp | frontend/src/Authentication/SignUp.jsx:70-101 | a failed validation shows its message and sends nothing; otherwise the account request is sent; only after it succeeds is the stored code consumed, whose outcome is ignored, and the form is cleared, the page goes back behind the dialog and the code is kept; a failed account request shows its message and sends no consume |
| SignUp.AccessCodeDialog.constructor | frontend/src/Authentication/AccessCode.jsx:8-9 | the dialog starts with an empty code and no error |
| SignUp.AccessCodeDialog.HandleAccessCodeChange | frontend/src/Authentication/AccessCode.jsx:11-13 | the code field takes the typed value |
| SignUp.AccessCodeDialog.HandleVerify | frontend/src/Authentication/AccessCode.jsx:15-28 | the typed code is sent as it is (the returned request body is the code before the call); only a reply whose status is 200 hands it to the page and closes the dialog; any other status or a failed request sets "Invalid access code" and leaves the page behind the dialog |
| SignUp.AccessCodeDialog.HandleClose | frontend/src/Authentication/AccessCode.jsx:30-33 | closing clears the error and closes the dialog |
| Gate.VerifierReply | backend/verifyAccessCode/index.js:47-51 | the status the dialog receives is the verifier's status for the typed code |
| Gate.AdmittedCodesAreLive | frontend/src/Authentication/AccessCode.jsx:19 | the dialog admits exactly the non-empty codes that are issued and unused, while the table can be read |
| Gate.ConsumedCodeNeverAdmitted | frontend/src/Authentication/SignUp.jsx:88-95 | once the sign-up consumed a code, the dialog never admits it again, whatever later consumes happen |
| Login.ValidateSignIn | frontend/src/Authentication/Login.jsx:24-32 | "Email and Password are required" when either is empty, then "Invalid email format"; no message exactly when both are present and the email passes |
| Login.RequiredBeforeFormat | frontend/src/Authentication/Login.jsx:25-32 | an empty email is reported as missing, although it would also fail the format test |
| Login.LoginPage.constructor | frontend/src/Authentication/Login.jsx:14-17 | the form starts empty, not loading, with its dialog closed |
| Login.LoginPage.HandleEmailChange | frontend/src/Authentication/Login.jsx:19-21 | the email field takes the typed value |
| Login.LoginPage.HandlePasswordChange | frontend/src/Authentication/Login.jsx:19-21 | the password field takes the typed value |
| Login.LoginPage.HandleSignIn | frontend/src/Authentication/Login.jsx:23-53 | a failed check sets its message and sends nothing; otherwise the password sign-in is sent; on success the form is cleared and the token is stored, the session flag is set and the dashboard is opened; on failure the error is the message and the form and the session stay; loading ends either way |
| Login.LoginPage.HandleForgotPasswordClick | frontend/src/Authentication/Login.jsx:55-57 | the forgot-password dialog opens |
| Login.LoginPage.HandleDialogClose | frontend/src/Authentication/Login.jsx:59-61 | the forgot-password dialog closes |
| VerifyEmail.ValidateVerification | frontend/src/Authentication/VerifyEmail.jsx:17-24 | "Email and Verification Code are required" when either is empty, then "Invalid email format"; no message exactly when both pass |
| VerifyEmail.VerificationError | frontend/src/Authentication/VerifyEmail.jsx:38-46 | the three named errors get their fixed messages; any other error shows its own message |
| VerifyEmail.NamedErrorsHideMessage | frontend/src/Authentication/VerifyEmail.jsx:38-43 | for the three named errors only the name decides what is shown |
| VerifyEmail.VerifyEmailPage.constructor | frontend/src/Authentication/VerifyEmail.jsx:11-14 | the form starts empty and not loading |
| VerifyEmail.VerifyEmailPage.HandleCodeChange | frontend/src/Authentication/VerifyEmail.jsx:71 | the code field takes the typed value |
| VerifyEmail.VerifyEmailPage.HandleEmailChange | frontend/src/Authentication/VerifyEmail.jsx:62 | the email field takes the typed value |
| VerifyEmail.VerifyEmailPage.HandleVerifyEmail | frontend/src/Authentication/VerifyEmail.jsx:16-49 | a failed check sets its message and sends nothing; otherwise the confirmation is sent; success clears both fields; a rejection shows its mapped message and keeps the fields; loading ends either way |
| ForgotPassword.ValidateEmail | frontend/src/Authentication/ForgotPassword.jsx:21-28 | "Email is required" for an empty email, then "Invalid email format"; no message exactly when the email passes |
| ForgotPassword.ResetRequestError | frontend/src/Authentication/ForgotPassword.jsx:41 | a message containing "User not found" becomes "Account with this email does not exist"; any other message is shown unchanged |
| ForgotPassword.ResetRequestErrorExamples | frontend/src/Authentication/ForgotPassword.jsx:41 | the match is case-sensitive and may sit anywhere in the message |
| ForgotPassword.ForgotPasswordDialog.constructor | frontend/src/Authentication/ForgotPassword.jsx:11-13 | the dialog starts with an empty email, no error and the reset dialog closed |
| ForgotPassword.ForgotPasswordDialog.HandleEmailChange | frontend/src/Authentication/ForgotPassword.jsx:68 | the email field takes the typed value |
| ForgotPassword.ForgotPasswordDialog.HandleForgotPassword | frontend/src/Authentication/ForgotPassword.jsx:20-44 | a failed check sets its message and sends nothing; otherwise the email is sent; success closes the request dialog and opens the reset dialog; a failure shows the mapped message and moves no dialog; the email is kept |
| ForgotPassword.ForgotPasswordDialog.HandleOpenVerificationDialog | frontend/src/Authentication/ForgotPassword.jsx:48-50 | the reset dialog opens |
| ForgotPassword.ForgotPasswordDialog.HandleCloseVerificationDialog | frontend/src/Authentication/ForgotPassword.jsx:52-55 | the reset dialog closes and the email and error are reset |
| ForgotPasswordVerification.ValidateReset | frontend/src/Authentication/ForgotPasswordVerification.jsx:48-58 | "All password fields are required", then "Passwords do not match", and only then "Verification code is required"; no message exactly when all pass |
| ForgotPasswordVerification.ResetDialog.constructor | frontend/src/Authentication/ForgotPasswordVerification.jsx:10-14 | the dialog starts with four empty fields |
| ForgotPasswordVerification.ResetDialog.SetFields | frontend/src/Authentication/ForgotPasswordVerification.jsx:71-91 | the three inputs take the typed values |
| ForgotPasswordVerification.ResetDialog.Reset | frontend/src/Authentication/ForgotPasswordVerification.jsx:16-21 | all four fields become empty |
| ForgotPasswordVerification.ResetDialog.HandleVerifyCode | frontend/src/Authentication/ForgotPasswordVerification.jsx:23-46 | an empty code sets "Verification code is required" and sends nothing; otherwise the reset is sent with the request dialog's email; success closes the dialog through the parent and resets all fields; a failure shows the message and keeps the fields |
| ForgotPasswordVerification.ResetDialog.HandleResetPassword | frontend/src/Authentication/ForgotPasswordVerification.jsx:48-59 | a failed check in the combined order sets its message, sends nothing and changes nothing else; otherwise the message is cleared and the outcome is that of the code step: success also clears the request dialog's message, a failure leaves it |
| AuthContext.GetItem | frontend/src/Authentication/AuthContext.jsx:11 | a stored entry is read back as it is; a missing one reads as null |
| AuthContext.AuthProvider.constructor | frontend/src/Authentication/AuthContext.jsx:7 | the session flag starts false |
| AuthContext.AuthProvider.Mount | frontend/src/Authentication/AuthContext.jsx:10-15 | after mounting, the flag is set exactly when it was already set or a non-empty token is stored; mounting never clears it |
| AuthContext.AuthProvider.Login | frontend/src/Authentication/AuthContext.jsx:17-21 | the token is stored under `authToken`, the flag is set and the dashboard path is opened |
| AuthContext.AuthProvider.Logout | frontend/src/Authentication/AuthContext.jsx:23-27 | `authToken` is removed, the flag is cleared and the authentication path is opened |
| AuthContext.ReloadKeepsSession | frontend/src/Authentication/AuthContext.jsx:10-27 | a reload after login keeps the session exactly when the token is non-empty; a reload after logout never does, and logout keeps every other stored entry |

## Left out

- Network, HTTP and SDK calls are outcomes passed in as parameters. This covers DynamoDB, the object store, Rekognition, Cognito and axios.
- CORS and content-type headers are left out, and so is the API gateway that wraps handler replies.
- JSON encoding and decoding of bodies is left out. Bodies are datatypes.
- Logging, `console` output, toasts and snackbar timing are left out.
- The search handler's base64 decoding is a parameter: the decoded bytes, or `None` when decoding throws. The image decoding, RGBA-to-RGB conversion and JPEG re-encoding together are one function that may fail.
- Rekognition's `MaxLabels` and `MinConfidence` are left out, because they live inside the detector. Label confidences are carried as reals and take part in no decision.
- Search.LambdaHandler: the 500 body is the fixed value `Failed`. The handler's `Failed because of: <exception>` text is not modelled, because exception texts come from the runtime.
- Catalog.ObjectStore.DeleteItem: an error's text is a parameter, except for the missing-bucket text, which is fixed.
- A record stored without an `isUsed` attribute is represented as `false`, which is how the verifier reads it.
- Only string codes are modelled. A non-string `code` in an event is not.
- The listing is one page of at most 1000 keys, as the handler makes one call without continuation. The store's choice of which keys fill a full page is not modelled.
- A listing that throws inside the search loop yields no matches. The model gives that case the same reply as a listing with no `Contents`.
- Requests from different users that run at the same time are not modelled. That includes the gap between verifying a code and consuming it. One handler runs at a time.
- The transient `loading` and `uploading` values seen while a request is in flight are not modelled, except on the search page. The other handlers are run to completion, and their `ensures` give the state after the request settles.
- The dashboard's refetch after an upload or a delete is not awaited in the source. The model returns `refetch` to say it was started; its result comes later through `FetchItems`.
- Dashboard.AdminDashboard.FetchItems: the API gateway is non-proxy, so a lister reply with status 500 still arrives as a successful request. Its body `{"error": "Failed to list items"}` parses and becomes `items`, with no "Failed to load items" (frontend/src/AdminDashboard.jsx:52-54). `reply` models only a parsed key list or a request that fails; the 500 reply, whose body is not a key list, is not modelled.
- Dashboard.AdminDashboard.ConfirmDelete: behind the same gateway a deleter reply with status 500 counts as success. It refetches and shows no error (frontend/src/AdminDashboard.jsx:121-131). `postFails` stands only for a request that itself fails.
- The dashboard's logout dialog and `handleLogout` are left out. They only call `AuthProvider.Logout` and navigate.
- The route guard, the route table, the tab switch between sign-in and sign-up, the logout page and all rendering and styling are left out.
- The login outcome is the returned `IdToken` or the thrown message. A missing `AuthenticationResult` throws in the source, which the model counts as a thrown message.
- The AccessCode dialog is offered only while the sign-up page shows it, and the sign-up form only while the code is verified. `HandleVerify` requires the first and `HandleSignUp` the second, as the rendering guarantees.
