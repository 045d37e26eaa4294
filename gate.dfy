/**
 * The sign-up gate end to end: the access-code dialog asks the verifier, and a finished
 * sign-up asks the consumer to mark the code as used. The code table is the same
 * throughout, one request at a time.
 */
module Gate {
  import opened Common
  import opened Text
  import AccessCodes
  import opened SignUp

  /** The `statusCode` the dialog sees when the verifier answers for `codes`. */
  function VerifierReply(codes: AccessCodes.CodeMap, code: string, fault: bool): (r: Option<int>)
    ensures r.Some?
  {
    Some(AccessCodes.VerifyCode(codes, Some(code), fault).statusCode)
  }

  /** The dialog admits exactly the issued codes that are not yet used. */
  lemma AdmittedCodesAreLive(codes: AccessCodes.CodeMap, code: string, fault: bool)
    ensures Admits(VerifierReply(codes, code, fault)) <==> code != "" && !fault && code in codes && !codes[code]
  {
  }

  /** Once the consumer marked a code as used, the dialog refuses it for good. */
  lemma {:induction false} ConsumedCodeNeverAdmitted(codes: AccessCodes.CodeMap, code: string,
                                                     later: seq<(Option<string>, bool)>, fault: bool)
    requires AccessCodes.ConsumeResponse(codes, Some(code), false).statusCode == 200
    ensures !Admits(VerifierReply(AccessCodes.Replay(AccessCodes.ConsumeTable(codes, Some(code), false), later),
                                  code, fault))
  {
    var spent := AccessCodes.ConsumeTable(codes, Some(code), false);
    AccessCodes.SpentStaysSpent(spent, later, code, fault);
  }

  /**
   * One administrator's way through: an unknown code is refused, a live one opens the
   * form, the sign-up consumes it, and the same code is refused from then on.
   */
  method Walkthrough()
  {
    var table := new AccessCodes.CodeTable(map["XYZ789" := false]);
    var page := new SignUpPage();
    var dialog := new AccessCodeDialog();

    dialog.HandleAccessCodeChange("ABC123");
    var sent := dialog.HandleVerify(page, VerifierReply(table.codes, dialog.accessCode, false));
    assert sent == "ABC123" && dialog.error == InvalidAccessCode && page.popupOpen;

    dialog.HandleAccessCodeChange("XYZ789");
    sent := dialog.HandleVerify(page, VerifierReply(table.codes, dialog.accessCode, false));
    assert page.accessCodeVerified && page.accessCode == "XYZ789";

    page.form := Form("Ann", "Lee", "user@mail.com", "Lost and Found", "secret", "secret");
    EmailAccepted();
    var calls := page.HandleSignUp(None);
    assert calls[1] == Consume("XYZ789");
    var consumed := table.UpdateStatus(Some(calls[1].code), false);
    assert consumed.statusCode == 200 && page.popupOpen;

    sent := dialog.HandleVerify(page, VerifierReply(table.codes, dialog.accessCode, false));
    assert !page.accessCodeVerified && dialog.error == InvalidAccessCode;
  }
}
