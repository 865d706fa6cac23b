/** `WriteErrorResponse` of the net/http handlers: the status follows the code of a coded error. */
module WriteError {
  import opened Wrappers
  import opened Errors

  /** The body `{"error": ..., "validations": {...}}`; `validations` is a map only when one was made. */
  datatype JsonError = JsonError(error: string, validations: Option<map<string, string>>)

  /** field name to the text of the last field error about it, as repeated map assignment leaves it */
  function FieldMap(fs: seq<FieldError>): (m: map<string, string>)
    ensures m.Keys == set f | f in fs :: f.field
  {
    if |fs| == 0 then map[]
    else
      var rest := FieldMap(fs[1..]);
      assert forall f :: f in fs <==> f == fs[0] || f in fs[1..];
      if fs[0].field in rest then rest else rest[fs[0].field := FieldErrorText(fs[0])]
  }

  /** A field maps to the text of the last field error that names it. */
  lemma {:induction false} FieldMapKeepsLast(fs: seq<FieldError>, i: nat)
    requires i < |fs|
    requires forall j :: i < j < |fs| ==> fs[j].field != fs[i].field
    ensures FieldMap(fs)[fs[i].field] == FieldErrorText(fs[i])
  {
    if i > 0 {
      assert fs[1..][i - 1] == fs[i];
      FieldMapKeepsLast(fs[1..], i - 1);
      assert fs[i] in fs[1..];
    }
  }

  /** The status for a code: unknown and unrecognised codes are server errors. */
  function CodeStatus(code: ErrorCode): (status: int)
    ensures status in {400, 401, 404, 409, 500}
    ensures status == 500 <==>
      code !in {ErrorCodeNotFound, ErrorCodeInvalidArgument, ErrorCodeDuplicate, ErrorCodeUnauthorized}
  {
    if code == ErrorCodeNotFound then 404
    else if code == ErrorCodeInvalidArgument then 400
    else if code == ErrorCodeDuplicate then 409
    else if code == ErrorCodeUnauthorized then 401
    else 500
  }

  /** `WriteErrorResponse(w, r, msg, err)`: the status and body written. */
  function WriteErrorResponse(msg: string, err: Err): (r: (int, JsonError))
    ensures r.1.error == msg
    ensures AsCoded(err).None? ==> r.0 == 500 && r.1.validations.None?
    ensures AsCoded(err).Some? ==> r.0 == CodeStatus(Code(AsCoded(err).value))
    ensures r.1.validations.Some? <==> AsCoded(err).Some? && Code(AsCoded(err).value) == ErrorCodeInvalidArgument
    ensures r.1.validations.Some? && AsValidation(AsCoded(err).value).Some? ==>
      r.1.validations.value.Keys == set f | f in AsValidation(AsCoded(err).value).value :: f.field
    ensures r.1.validations.Some? && AsValidation(AsCoded(err).value).None? ==> r.1.validations.value == map[]
  {
    match AsCoded(err)
    case None => (500, JsonError(msg, None))
    case Some(ierr) =>
      var code := Code(ierr);
      if code == ErrorCodeInvalidArgument then
        var fields := match AsValidation(ierr) case Some(fs) => FieldMap(fs) case None => map[];
        (400, JsonError(msg, Some(fields)))
      else
        (CodeStatus(code), JsonError(msg, None))
  }

  /** Each status is reached by exactly its code; everything else, coded or not, is a server error. */
  lemma {:induction false} StatusByCode(msg: string, err: Err)
    ensures WriteErrorResponse(msg, err).0 in {400, 401, 404, 409, 500}
    ensures WriteErrorResponse(msg, err).0 == 404 <==> AsCoded(err).Some? && Code(AsCoded(err).value) == ErrorCodeNotFound
    ensures WriteErrorResponse(msg, err).0 == 400 <==> AsCoded(err).Some? && Code(AsCoded(err).value) == ErrorCodeInvalidArgument
    ensures WriteErrorResponse(msg, err).0 == 409 <==> AsCoded(err).Some? && Code(AsCoded(err).value) == ErrorCodeDuplicate
    ensures WriteErrorResponse(msg, err).0 == 401 <==> AsCoded(err).Some? && Code(AsCoded(err).value) == ErrorCodeUnauthorized
  {
  }

  /** A not-found error built by `WrapErrorf` answers 404 with the caller's message. */
  lemma NotFoundAnswers404(msg: string, orig: Option<Err>, text: string)
    ensures WriteErrorResponse(msg, WrapErrorf(orig, ErrorCodeNotFound, text)) == (404, JsonError(msg, None))
  {
  }
}
