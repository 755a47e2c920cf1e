/** Signed responses of the authority (authority_ipc.py): one body binds the protocol,
    session, channel, sequence number, authority process and request digest to exactly one
    result or one error.
 */
module Transcripts {
  import opened JsonTerms

  const PROTOCOL := "apcc-authority-ipc-v1"

  /** What both ends must agree on before a response means anything. */
  datatype Transcript = Transcript(
    session: string, channel: string, sequence: int, authorityPid: int, requestDigest: Json)

  datatype Outcome = ResultOf(result: Json) | ErrorOf(error: map<string, Json>)

  datatype VerifyError =
    | InvalidShape | Unsigned | TranscriptMismatch | InvalidOutcome
    | ResultDigestMismatch | ErrorDigestMismatch | BadSignature | InvalidErrorValue

  /** `result` and `error` as `verify_response` returns them; Null stands for None. */
  datatype Verified = Accepted(result: Json, error: Json) | Rejected(why: VerifyError)

  const BODY_FIELDS := {
    "protocol", "session", "channel", "sequence", "authority_pid", "request_digest",
    "result_digest", "error_digest", "result", "error"}

  function ResponseBody(t: Transcript, o: Outcome): map<string, Json> {
    map[
      "protocol" := Str(PROTOCOL),
      "session" := Str(t.session),
      "channel" := Str(t.channel),
      "sequence" := Int(t.sequence),
      "authority_pid" := Int(t.authorityPid),
      "request_digest" := t.requestDigest,
      "result_digest" := if o.ResultOf? then Digest(o.result) else Null,
      "error_digest" := if o.ErrorOf? then Digest(Obj(o.error)) else Null,
      "result" := if o.ResultOf? then o.result else Null,
      "error" := if o.ErrorOf? then Obj(o.error) else Null
    ]
  }

  function Sign(key: nat, t: Transcript, o: Outcome): Json {
    var body := ResponseBody(t, o);
    Obj(body["signature" := Signature(key, Obj(body))])
  }

  /** `signed_response` refuses to sign both or neither of result and error; what it signs verifies
      for this transcript, with that result or that error. */
  function SignedResponse(key: nat, t: Transcript, result: Option<Json>,
                          error: Option<map<string, Json>>): (r: Option<Json>)
    ensures r.Some? <==> result.Some? != error.Some?
    ensures r.Some? ==>
              VerifyResponse(r.value, key, t) ==
                if result.Some? then Accepted(result.value, Null) else Accepted(Null, Obj(error.value))
  {
    if result.None? == error.None? then None
    else
      var outcome := if result.Some? then ResultOf(result.value) else ErrorOf(error.value);
      SignThenVerify(key, t, outcome);
      Some(Sign(key, t, outcome))
  }

  /** The tuple comparison of `verify_response`, with Python's equality on numbers. */
  predicate TranscriptMatches(body: map<string, Json>, t: Transcript)
    requires BODY_FIELDS <= body.Keys
  {
    && body["protocol"] == Str(PROTOCOL)
    && body["session"] == Str(t.session)
    && body["channel"] == Str(t.channel)
    && EqualsInt(body["sequence"], t.sequence)
    && EqualsInt(body["authority_pid"], t.authorityPid)
    && body["request_digest"] == t.requestDigest
  }

  function VerifyResponse(response: Json, key: nat, t: Transcript): Verified {
    if !response.Obj? || response.fields.Keys != BODY_FIELDS + {"signature"} then Rejected(InvalidShape)
    else
      var signature := response.fields["signature"];
      var body := response.fields - {"signature"};
      if !IsText(signature) then Rejected(Unsigned)
      else if !TranscriptMatches(body, t) then Rejected(TranscriptMismatch)
      else
        var result, error := body["result"], body["error"];
        var hasResult := body["result_digest"] != Null;
        var hasError := body["error_digest"] != Null;
        if hasResult == hasError then Rejected(InvalidOutcome)
        else if body["result_digest"] != (if hasResult then Digest(result) else Null) then Rejected(ResultDigestMismatch)
        else if body["error_digest"] != (if hasError then Digest(error) else Null) then Rejected(ErrorDigestMismatch)
        else if signature != Signature(key, Obj(body)) then Rejected(BadSignature)
        else if !error.Null? && !error.Obj? then Rejected(InvalidErrorValue)
        else Accepted(result, if hasError then error else Null)
  }

  /** What the client makes of an outcome the authority signed. */
  function Meaning(o: Outcome): Verified {
    match o
    case ResultOf(v) => Accepted(v, Null)
    case ErrorOf(e) => Accepted(Null, Obj(e))
  }

  lemma SignDropsToBody(key: nat, t: Transcript, o: Outcome)
    ensures Sign(key, t, o).fields - {"signature"} == ResponseBody(t, o)
    ensures ResponseBody(t, o).Keys == BODY_FIELDS
  {
  }

  /** Round trip: a response signed for a transcript is accepted under that transcript, with
      the signed outcome and nothing else. */
  lemma SignThenVerify(key: nat, t: Transcript, o: Outcome)
    ensures VerifyResponse(Sign(key, t, o), key, t) == Meaning(o)
  {
    SignDropsToBody(key, t, o);
  }

  /** An accepted response is the signed body with its signature. */
  lemma AcceptedIsSigned(response: Json, key: nat, t: Transcript, body: map<string, Json>)
    requires VerifyResponse(response, key, t).Accepted? && response.fields["signature"] == Signature(key, Obj(body))
    ensures BODY_FIELDS <= body.Keys && TranscriptMatches(body, t)
    ensures response == Obj(body["signature" := Signature(key, Obj(body))])
  {
    assert response.fields - {"signature"} == body;
    assert response.fields == body["signature" := response.fields["signature"]];
  }

  /** A signed body matches no transcript but its own: its numbers are integers. */
  lemma BodyNamesTranscript(t: Transcript, t': Transcript, o: Outcome)
    requires TranscriptMatches(ResponseBody(t', o), t)
    ensures t' == t
  {
    assert ResponseBody(t', o)["sequence"] == Int(t'.sequence);
  }

  /** The two ways a value can be numerically equal to a signed field without being it are
      excluded by the signature: whatever verifies is exactly one signed body, its transcript
      is the expected one, and its outcome is what the caller gets. */
  lemma VerifyPinsSignedBody(response: Json, key: nat, t: Transcript, t': Transcript, o: Outcome)
    requires VerifyResponse(response, key, t).Accepted?
    requires response.fields["signature"] == Signature(key, Obj(ResponseBody(t', o)))
    ensures t' == t
    ensures response == Sign(key, t, o)
    ensures VerifyResponse(response, key, t) == Meaning(o)
  {
    AcceptedIsSigned(response, key, t, ResponseBody(t', o));
    BodyNamesTranscript(t, t', o);
    SignThenVerify(key, t, o);
  }

  /** Without the signature check the transcript comparison would accept a Boolean as the
      first sequence number. */
  lemma TranscriptComparisonIsNumeric(t: Transcript, o: Outcome)
    requires t.sequence == 1
    ensures TranscriptMatches(ResponseBody(t, o)["sequence" := Bool(true)], t)
    ensures ResponseBody(t, o)["sequence" := Bool(true)] != ResponseBody(t, o)
  {
    assert ResponseBody(t, o)["sequence"] == Int(1);
  }

  /** A response signed for one transcript is rejected under every other transcript. */
  lemma NoCrossTranscriptReplay(key: nat, t: Transcript, t': Transcript, o: Outcome)
    requires t != t'
    ensures VerifyResponse(Sign(key, t', o), key, t).Rejected?
  {
    SignDropsToBody(key, t', o);
    if VerifyResponse(Sign(key, t', o), key, t).Accepted? {
      VerifyPinsSignedBody(Sign(key, t', o), key, t, t', o);
      assert false;
    }
  }
}
