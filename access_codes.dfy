/**
 * The invitation-code table and its two handlers: the read-only verifier
 * (backend/verifyAccessCode) and the consumer (backend/updateAccessCodeStatus).
 *
 * The table maps each issued code to its `isUsed` flag; a record stored without
 * an `isUsed` attribute is represented by `false`, which is how the verifier reads it.
 * `fault` stands for a table call that throws for a reason other than a failed condition.
 */
module AccessCodes {
  import opened Common

  type CodeMap = map<string, bool>

  /** The two body shapes: `{ message: ... }` and `{ error: ... }`. */
  datatype Body = Message(text: string) | Error(text: string)

  const CodeRequired := "Code is required"

  /** The verifier: `get` by key, then classify the record. */
  function VerifyCode(codes: CodeMap, code: Option<string>, fault: bool): (r: Response<Body>)
    ensures !Truthy(code) ==> r == Response(400, Message(CodeRequired))
    ensures Truthy(code) && fault ==> r == Response(500, Message("Internal Server Error"))
    ensures Truthy(code) && !fault && code.value !in codes ==> r == Response(400, Message("Invalid code"))
    ensures Truthy(code) && !fault && code.value in codes && codes[code.value]
            ==> r == Response(400, Message("Code has already been used"))
    ensures r.statusCode == 200 <==> Truthy(code) && !fault && code.value in codes && !codes[code.value]
    ensures r.statusCode == 200 ==> r.body == Message("Code is valid")
  {
    if !Truthy(code) then Response(400, Message(CodeRequired))
    else if fault then Response(500, Message("Internal Server Error"))
    else if code.value !in codes then Response(400, Message("Invalid code"))
    else if codes[code.value] then Response(400, Message("Code has already been used"))
    else Response(200, Message("Code is valid"))
  }

  /** A missing code is answered without asking the table anything. */
  lemma VerifyMissingCodeIgnoresTable(c1: CodeMap, c2: CodeMap, code: Option<string>, f1: bool, f2: bool)
    requires !Truthy(code)
    ensures VerifyCode(c1, code, f1) == VerifyCode(c2, code, f2)
  {
  }

  /**
   * `SET isUsed = true` under `attribute_exists(code)`: the only condition is that the
   * record exists, so a code that is already used is set to used again.
   */
  function MarkUsed(codes: CodeMap, c: string): (r: CodeMap)
    ensures r.Keys == codes.Keys
    ensures c in codes ==> r[c]
    ensures forall k :: k in codes && k != c ==> r[k] == codes[k]
  {
    if c in codes then codes[c := true] else codes
  }

  /** The table after the consumer ran. */
  function ConsumeTable(codes: CodeMap, code: Option<string>, fault: bool): (r: CodeMap)
    ensures r.Keys == codes.Keys
    ensures !Truthy(code) || fault ==> r == codes
  {
    if Truthy(code) && !fault then MarkUsed(codes, code.value) else codes
  }

  /** The consumer's reply. */
  function ConsumeResponse(codes: CodeMap, code: Option<string>, fault: bool): (r: Response<Body>)
    ensures !Truthy(code) ==> r == Response(400, Error(CodeRequired))
    ensures r.statusCode == 200 <==> Truthy(code) && !fault && code.value in codes
    ensures Truthy(code) && !fault && code.value !in codes ==> r == Response(404, Error("Code not found"))
    ensures Truthy(code) && fault ==> r == Response(500, Error("Could not update code"))
    ensures r.statusCode == 200 ==> r.body == Message("Code updated successfully")
  {
    if !Truthy(code) then Response(400, Error(CodeRequired))
    else if fault then Response(500, Error("Could not update code"))
    else if code.value !in codes then Response(404, Error("Code not found"))
    else Response(200, Message("Code updated successfully"))
  }

  /** The code table, updated in place by the consumer. */
  class CodeTable {
    var codes: CodeMap

    constructor (initial: CodeMap)
      ensures codes == initial
    {
      codes := initial;
    }

    /** backend/updateAccessCodeStatus: one conditional update of one record. */
    method UpdateStatus(code: Option<string>, fault: bool) returns (r: Response<Body>)
      modifies this
      ensures codes == ConsumeTable(old(codes), code, fault)
      ensures r == ConsumeResponse(old(codes), code, fault)
    {
      if !Truthy(code) {
        return Response(400, Error(CodeRequired));
      }
      var c := code.value;
      if fault {
        r := Response(500, Error("Could not update code"));
      } else if c in codes {
        codes := codes[c := true];
        r := Response(200, Message("Code updated successfully"));
      } else {
        r := Response(404, Error("Code not found"));
      }
    }
  }

  /** Consuming twice leaves the table as consuming once, and the second call also answers 200. */
  lemma ConsumeIdempotent(codes: CodeMap, c: string)
    requires c != ""
    ensures ConsumeTable(ConsumeTable(codes, Some(c), false), Some(c), false) == ConsumeTable(codes, Some(c), false)
    ensures c in codes ==> ConsumeResponse(ConsumeTable(codes, Some(c), false), Some(c), false).statusCode == 200
  {
    var once := MarkUsed(codes, c);
    if c in codes {
      assert MarkUsed(once, c) == once;
    }
  }

  /** No consume sets `isUsed` back to false, and none creates or deletes a record. */
  lemma ConsumeMonotone(codes: CodeMap, code: Option<string>, fault: bool, k: string)
    requires k in codes && codes[k]
    ensures k in ConsumeTable(codes, code, fault) && ConsumeTable(codes, code, fault)[k]
  {
  }

  /** Verification never turns a code from used to valid, after any number of consumes. */
  lemma {:induction false} SpentStaysSpent(codes: CodeMap, calls: seq<(Option<string>, bool)>, c: string, fault: bool)
    requires c != "" && c in codes && codes[c]
    ensures VerifyCode(Replay(codes, calls), Some(c), fault).statusCode != 200
    decreases |calls|
  {
    if calls != [] {
      ConsumeMonotone(codes, calls[0].0, calls[0].1, c);
      SpentStaysSpent(ConsumeTable(codes, calls[0].0, calls[0].1), calls[1..], c, fault);
    }
  }

  /** The table after a sequence of consumer calls, one request at a time. */
  function Replay(codes: CodeMap, calls: seq<(Option<string>, bool)>): (r: CodeMap)
    ensures r.Keys == codes.Keys
    decreases |calls|
  {
    if calls == [] then codes
    else Replay(ConsumeTable(codes, calls[0].0, calls[0].1), calls[1..])
  }

  /** After a successful consume of `c`, the verifier answers "Code has already been used". */
  lemma ConsumeThenVerify(codes: CodeMap, c: string)
    requires c != ""
    requires ConsumeResponse(codes, Some(c), false).statusCode == 200
    ensures VerifyCode(ConsumeTable(codes, Some(c), false), Some(c), false)
            == Response(400, Message("Code has already been used"))
  {
  }

  /**
   * The worked scenario: "ABC123" was never issued, "XYZ789" is live. The second consume
   * of "XYZ789" succeeds again, because the condition only asks that the record exist.
   */
  method Scenario()
  {
    var table := new CodeTable(map["XYZ789" := false]);
    var v := VerifyCode(table.codes, Some("ABC123"), false);
    assert v == Response(400, Message("Invalid code"));
    v := VerifyCode(table.codes, Some("XYZ789"), false);
    assert v.statusCode == 200;
    var first := table.UpdateStatus(Some("XYZ789"), false);
    assert first.statusCode == 200;
    var second := table.UpdateStatus(Some("XYZ789"), false);
    assert second.statusCode == 200;
    assert table.codes == map["XYZ789" := true];
    v := VerifyCode(table.codes, Some("XYZ789"), false);
    assert v == Response(400, Message("Code has already been used"));
  }
}
