/**
 * The gin error-handling middleware: every error a handler records becomes one
 * JSON response, classified by the first matching case of a fixed list.
 */
module ErrorHandler {
  import opened Wrappers
  import opened Errors
  import opened DbError

  datatype LogLevel = InfoLevel | ErrorLevel

  /** A response the middleware writes, with the level the error is logged at. */
  datatype Reply = Reply(status: int, body: ErrorResponse, level: LogLevel)

  /** `http.StatusText` for the statuses this middleware uses. */
  function StatusText(status: int): string {
    match status
    case 400 => "Bad Request"
    case 401 => "Unauthorized"
    case 403 => "Forbidden"
    case 404 => "Not Found"
    case 409 => "Conflict"
    case 500 => "Internal Server Error"
    case _ => ""
  }

  /** `validationErrorToText` */
  function ValidationErrorToText(f: FieldError): (text: string)
    ensures f.tag == "required" ==> text == f.field + " is required"
    ensures f.tag == "max" ==> text == f.field + " cannot be longer than " + f.param
    ensures f.tag == "min" ==> text == f.field + " must be longer than " + f.param
    ensures f.tag == "email" ==> text == "Invalid email format"
    ensures f.tag == "len" ==> text == f.field + " must be " + f.param + " characters long"
    ensures f.tag !in {"required", "max", "min", "email", "len"} ==> text == f.field + " is not valid"
  {
    match f.tag
    case "required" => f.field + " is required"
    case "max" => f.field + " cannot be longer than " + f.param
    case "min" => f.field + " must be longer than " + f.param
    case "email" => "Invalid email format"
    case "len" => f.field + " must be " + f.param + " characters long"
    case _ => f.field + " is not valid"
  }

  function ValidationEntries(fs: seq<FieldError>): (vs: seq<ValidationError>)
    ensures |vs| == |fs|
    ensures forall i :: 0 <= i < |fs| ==>
      vs[i] == ValidationError(fs[i].field, fs[i].tag, ValidationErrorToText(fs[i]))
  {
    if |fs| == 0 then [] else [ValidationError(fs[0].field, fs[0].tag, ValidationErrorToText(fs[0]))] + ValidationEntries(fs[1..])
  }

  function Simple(status: int, text: string): Reply {
    Reply(status, ErrorResponse(text, []), InfoLevel)
  }

  /** The classification switch of `ErrorHandler` for one recorded error. */
  function Classify(e: Err): (r: Reply)
    ensures r.status in {400, 401, 403, 404, 409, 500}
    ensures r.level == ErrorLevel <==> r.status == 500
    ensures r.status == 500 ==> r.body == ErrorResponse("Internal Server Error", [])
  {
    match AsValidation(e)
    case Some(fs) => Reply(400, ErrorResponse(StatusText(400), ValidationEntries(fs)), InfoLevel)
    case None =>
      if Is(e, InvalidCredentials) then Simple(401, "invalid credentials")
      else if Is(e, AccountAlreadyExists) then Simple(400, "account already exists")
      else if Is(e, InvalidToken) then Simple(401, "invalid token")
      else if Is(e, CurrencyMismatch) then Simple(400, "currency mismatch")
      else if Is(e, Forbidden) then Simple(403, StatusText(403))
      else if Is(e, ForeignKeyConstraintViolation) then Simple(409, StatusText(409))
      else if Is(e, UniqueConstraintViolation) then Simple(409, StatusText(409))
      else if Is(e, NoRows) then Simple(404, StatusText(404))
      else Reply(500, ErrorResponse(StatusText(500), []), ErrorLevel)
  }

  /** `ErrorHandler`: the recorded errors, each answered in turn. */
  function HandleErrors(errs: seq<Err>): (rs: seq<Reply>)
    ensures |rs| == |errs|
    ensures forall i :: 0 <= i < |errs| ==> rs[i] == Classify(errs[i])
  {
    if |errs| == 0 then [] else [Classify(errs[0])] + HandleErrors(errs[1..])
  }

  // ---------------------------------------------------------------------------
  // an independent, table-driven statement of the same classification

  /** A sentinel, the status it earns and the text the body carries. */
  datatype Rule = Rule(kind: Kind, status: int, text: string)

  const Rules: seq<Rule> := [
    Rule(InvalidCredentials, 401, "invalid credentials"),
    Rule(AccountAlreadyExists, 400, "account already exists"),
    Rule(InvalidToken, 401, "invalid token"),
    Rule(CurrencyMismatch, 400, "currency mismatch"),
    Rule(Forbidden, 403, "Forbidden"),
    Rule(ForeignKeyConstraintViolation, 409, "Conflict"),
    Rule(UniqueConstraintViolation, 409, "Conflict"),
    Rule(NoRows, 404, "Not Found")
  ]

  /** The first rule, from position `i` on, whose sentinel the error matches. */
  function FirstRule(rules: seq<Rule>, i: nat, e: Err): (r: Option<Rule>)
    requires i <= |rules|
    ensures r.Some? ==> r.value in rules[i..] && Is(e, r.value.kind)
    ensures r.None? <==> forall j :: i <= j < |rules| ==> !Is(e, rules[j].kind)
    decreases |rules| - i
  {
    if i == |rules| then None
    else if Is(e, rules[i].kind) then Some(rules[i])
    else FirstRule(rules, i + 1, e)
  }

  /** The expected response of the table: validations first, then the first matching rule, else 500. */
  function Expected(e: Err): Reply {
    if AsValidation(e).Some? then
      Reply(400, ErrorResponse("Bad Request", ValidationEntries(AsValidation(e).value)), InfoLevel)
    else
      match FirstRule(Rules, 0, e)
      case Some(rule) => Reply(rule.status, ErrorResponse(rule.text, []), InfoLevel)
      case None => Reply(500, ErrorResponse("Internal Server Error", []), ErrorLevel)
  }

  /** The rule table, unrolled into the order its entries are tried. */
  lemma {:induction false} FirstRuleUnrolled(e: Err)
    ensures FirstRule(Rules, 0, e) ==
      if Is(e, InvalidCredentials) then Some(Rule(InvalidCredentials, 401, "invalid credentials"))
      else if Is(e, AccountAlreadyExists) then Some(Rule(AccountAlreadyExists, 400, "account already exists"))
      else if Is(e, InvalidToken) then Some(Rule(InvalidToken, 401, "invalid token"))
      else if Is(e, CurrencyMismatch) then Some(Rule(CurrencyMismatch, 400, "currency mismatch"))
      else if Is(e, Forbidden) then Some(Rule(Forbidden, 403, "Forbidden"))
      else if Is(e, ForeignKeyConstraintViolation) then Some(Rule(ForeignKeyConstraintViolation, 409, "Conflict"))
      else if Is(e, UniqueConstraintViolation) then Some(Rule(UniqueConstraintViolation, 409, "Conflict"))
      else if Is(e, NoRows) then Some(Rule(NoRows, 404, "Not Found"))
      else None
  {
    FirstRuleStep(0, e);
    FirstRuleStep(1, e);
    FirstRuleStep(2, e);
    FirstRuleStep(3, e);
    FirstRuleStep(4, e);
    FirstRuleStep(5, e);
    FirstRuleStep(6, e);
    FirstRuleStep(7, e);
  }

  /** One step of the search: the rule at `i` if the error matches it, else the search from `i + 1`. */
  lemma FirstRuleStep(i: nat, e: Err)
    requires i < |Rules|
    ensures FirstRule(Rules, i, e) == if Is(e, Rules[i].kind) then Some(Rules[i]) else FirstRule(Rules, i + 1, e)
  {
  }

  /** The switch agrees with the rule table on every error. */
  lemma {:induction false} ClassifyFollowsRules(e: Err)
    ensures Classify(e) == Expected(e)
  {
    assert StatusText(400) == "Bad Request" && StatusText(403) == "Forbidden";
    assert StatusText(409) == "Conflict" && StatusText(404) == "Not Found";
    assert StatusText(500) == "Internal Server Error";
    FirstRuleUnrolled(e);
  }

  /** Only errors that match no case earn 500, and exactly those are logged at error level. */
  lemma {:induction false} ServerErrorIffUnmatched(e: Err)
    ensures Classify(e).status == 500 <==>
      AsValidation(e).None? && forall i :: 0 <= i < |Rules| ==> !Is(e, Rules[i].kind)
    ensures Classify(e).level == ErrorLevel <==> Classify(e).status == 500
    ensures Classify(e).status in {400, 401, 403, 404, 409, 500}
  {
    ClassifyFollowsRules(e);
    var fr := FirstRule(Rules, 0, e);
    if AsValidation(e).Some? {
      assert Classify(e).status == 400;
    } else if fr.Some? {
      assert fr.value in Rules;
      assert fr.value.status in {400, 401, 403, 404, 409};
      assert Classify(e) == Reply(fr.value.status, ErrorResponse(fr.value.text, []), InfoLevel);
    } else {
      assert Classify(e) == Reply(500, ErrorResponse("Internal Server Error", []), ErrorLevel);
    }
  }

  /** A validation error answers 400 with one entry per field error, in order. */
  lemma {:induction false} ValidationAnswers400(e: Err)
    ensures AsValidation(e).Some? ==> Classify(e).status == 400
    ensures AsValidation(e).Some? ==> |Classify(e).body.validations| == |AsValidation(e).value|
    ensures AsValidation(e).Some? ==> forall i :: 0 <= i < |AsValidation(e).value| ==>
      Classify(e).body.validations[i].field == AsValidation(e).value[i].field
  {
  }
}
