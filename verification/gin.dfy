/** What a gin handler leaves behind: a JSON reply, or an error recorded for the error middleware. */
module Gin {
  import opened Wrappers
  import opened Errors
  import opened DbError
  import opened ErrorHandler

  datatype Response<B> =
    | Json(status: int, body: B)
      /** `ctx.Error(err)`: answered later by the error middleware */
    | Recorded(err: Err)

  /** The call a handler makes into its service, if any, and the response. */
  datatype Handled<C, B> = Handled(call: Option<C>, reply: Response<B>)

  /** `fmt.Errorf("%w; %w", internal.ErrInvalidParams, err)` for a binding failure. */
  function BindFailure(e: Err): (r: Err)
    ensures Is(r, InvalidParams)
  {
    WrapIs(InvalidParams, e, InvalidParams);
    WrapSemi(InvalidParams, e)
  }

  /**
   * A binding failure answers 400 with the field errors when the validator
   * reported them. Any other binding failure (a body that does not decode, a
   * number that does not parse) matches no case of the error middleware and
   * answers 500, because `ErrInvalidParams` itself has no case there.
   */
  lemma {:induction false} BindFailureAnswer(e: Err)
    requires e.Validation? || e.NumError? || e.Plain?
    ensures e.Validation? ==>
      Classify(BindFailure(e)) == Reply(400, ErrorResponse("Bad Request", ValidationEntries(e.fieldErrors)), InfoLevel)
    ensures !e.Validation? ==>
      Classify(BindFailure(e)) == Reply(500, ErrorResponse("Internal Server Error", []), ErrorLevel)
  {
    var w := BindFailure(e);
    BindFailureShape(e);
    NoRuleMatches(w);
    ClassifyFollowsRules(w);
  }

  /** The wrapped error matches only `ErrInvalidParams`, and is a validation error exactly when the cause is. */
  lemma {:induction false} BindFailureShape(e: Err)
    requires e.Validation? || e.NumError? || e.Plain?
    ensures AsValidation(BindFailure(e)) == if e.Validation? then Some(e.fieldErrors) else None
    ensures forall k :: Is(BindFailure(e), k) <==> k == InvalidParams
  {
    var w := BindFailure(e);
    ChainOfBindFailure(e);
    var c := [w, Sentinel(InvalidParams), e];
    var p := (x: Err) => x.Validation?;
    assert c[1..] == [Sentinel(InvalidParams), e] && c[1..][1..] == [e];
    assert First(c[1..][1..], p) == if e.Validation? then Some(e) else None;
    assert First(c, p) == First(c[1..][1..], p);
    BindFailureSentinels(e);
  }

  /** The chain `errors.Is` and `errors.As` walk: the wrapper, the sentinel, the cause. */
  lemma {:induction false} ChainOfBindFailure(e: Err)
    requires e.Validation? || e.NumError? || e.Plain?
    ensures Chain(BindFailure(e)) == [BindFailure(e), Sentinel(InvalidParams), e]
  {
    ChainOfWrapped(KindText(InvalidParams) + "; " + ErrorText(e), [Sentinel(InvalidParams), e]);
    assert Chain(Sentinel(InvalidParams)) == [Sentinel(InvalidParams)];
    assert Chain(e) == [e];
  }

  lemma {:induction false} BindFailureSentinels(e: Err)
    requires e.Validation? || e.NumError? || e.Plain?
    ensures forall k :: Is(BindFailure(e), k) <==> k == InvalidParams
  {
    forall k ensures Is(BindFailure(e), k) <==> k == InvalidParams {
      WrapIs(InvalidParams, e, k);
      assert !Is(e, k) by {
        assert Chain(e) == [e];
      }
    }
  }

  /** An error whose only sentinel is `ErrInvalidParams` matches no rule of the error middleware. */
  lemma {:induction false} NoRuleMatches(w: Err)
    requires forall k :: Is(w, k) ==> k == InvalidParams
    ensures FirstRule(Rules, 0, w).None?
  {
    FirstRuleUnrolled(w);
  }
}
