/**
 * The account endpoints: create, get with the owner-or-override filter, list
 * one page of the caller's accounts, and delete.
 */
module AccountHandler {
  import opened Wrappers
  import opened Errors
  import opened Decimal
  import opened DbError
  import opened ErrorHandler
  import opened Binding
  import opened Gin
  import opened Token
  import AccountService

  type Account = AccountService.Account

  // ---------------------------------------------------------------------------
  // create

  /** The validator's verdict on `createAccountRequest`: `currency` is required and must be supported. */
  function BindCreate(currency: string, supported: string -> bool): (r: Result<string, Err>)
    ensures r.Ok? <==> |currency| > 0 && supported(currency)
    ensures r.Ok? ==> r.value == currency
  {
    Validate(currency, [FieldFailure("createAccountRequest", "Currency",
      [Required(|currency| > 0), Check("currency", "", supported(currency))])])
  }

  /** `handleCreateAccount`: the caller's account in the requested currency, with balance 0. */
  function HandleCreateAccount(body: Result<string, Err>, supported: string -> bool, payload: Payload,
                               repo: AccountService.Repository): (h: Handled<AccountService.CreateParams, Account>)
    ensures h.call.Some? <==> body.Ok? && BindCreate(body.value, supported).Ok?
    ensures h.call.Some? ==> h.call.value == AccountService.CreateParams(payload.username, 0, body.value)
    ensures h.call.None? ==> h.reply.Recorded? && Is(h.reply.err, InvalidParams)
    ensures h.call.Some? ==>
      var r := AccountService.Create(repo, h.call.value);
      h.reply == if r.Ok? then Json(200, r.value) else Recorded(r.error)
  {
    match body
    case Err(e) => Handled(None, Recorded(BindFailure(e)))
    case Ok(currency) =>
      match BindCreate(currency, supported)
      case Err(e) => Handled(None, Recorded(BindFailure(e)))
      case Ok(_) =>
        var p := AccountService.CreateParams(payload.username, 0, currency);
        match AccountService.Create(repo, p)
        case Err(e) => Handled(Some(p), Recorded(e))
        case Ok(a) => Handled(Some(p), Json(200, a))
  }

  /** A missing or unsupported currency never reaches the service and answers 400 naming the `Currency` field. */
  lemma BadCurrencyAnswers400(currency: string, supported: string -> bool, payload: Payload,
                              repo: AccountService.Repository)
    requires |currency| == 0 || !supported(currency)
    ensures HandleCreateAccount(Ok(currency), supported, payload, repo).call.None?
    ensures var reply := Classify(HandleCreateAccount(Ok(currency), supported, payload, repo).reply.err);
      reply.status == 400 && |reply.body.validations| == 1 && reply.body.validations[0].field == "Currency"
  {
    var e := BindCreate(currency, supported).error;
    BindFailureAnswer(e);
  }

  /** A second account in the same currency answers 400 "account already exists", never 409. */
  lemma DuplicateAccountAnswers400(currency: string, supported: string -> bool, payload: Payload,
                                   repo: AccountService.Repository)
    requires |currency| > 0 && supported(currency)
    requires var created := repo.create(AccountService.CreateParams(payload.username, 0, currency));
      created.Err? && Is(created.error, UniqueConstraintViolation)
    ensures HandleCreateAccount(Ok(currency), supported, payload, repo).reply.Recorded?
    ensures Classify(HandleCreateAccount(Ok(currency), supported, payload, repo).reply.err) ==
      Reply(400, ErrorResponse("account already exists", []), InfoLevel)
  {
    var text := ErrorText(repo.create(AccountService.CreateParams(payload.username, 0, currency)).error);
    WrapDetailIs(AccountAlreadyExists, text, InvalidCredentials);
    WrapDetailIs(AccountAlreadyExists, text, AccountAlreadyExists);
  }

  // ---------------------------------------------------------------------------
  // get and delete: the `id` URI parameter

  /** `getAccountRequest` and `deleteAccountRequest`: `id` is an `int64`, required and at least 1. */
  function BindId(id: string): (r: Result<int, Err>)
    ensures r.Ok? <==> ParseInt(id, 64).Ok? && ParseInt(id, 64).value >= 1
    ensures r.Ok? ==> r.value == ParseInt(id, 64).value
  {
    match BindInt(Some(id), 64)
    case Err(e) => Err(e)
    case Ok(n) =>
      Validate(n, [FieldFailure("getAccountRequest", "ID", [Required(n != 0), Check("min", "1", n >= 1)])])
  }

  const NotOwnedText: string := "account doesn't belong to the authenticated user"

  /**
   * `handleGetAccount`: an account owned by someone else is reported as not
   * found unless the caller may override, so its existence is not revealed.
   */
  function HandleGetAccount(id: string, payload: Payload, overridePermission: bool,
                            repo: AccountService.Repository): (h: Handled<int, Account>)
    ensures h.call.Some? <==> BindId(id).Ok?
    ensures h.call.None? ==> h.reply.Recorded? && Is(h.reply.err, InvalidParams)
    ensures h.call.Some? ==> h.call.value == BindId(id).value
    ensures h.call.Some? && repo.get(h.call.value).Err? ==> h.reply == Recorded(repo.get(h.call.value).error)
    ensures h.call.Some? && repo.get(h.call.value).Ok? ==>
      var a := repo.get(h.call.value).value;
      h.reply == if overridePermission || a.owner == payload.username then Json(200, a)
                 else Recorded(WrapDetail(NoRows, NotOwnedText))
  {
    match BindId(id)
    case Err(e) => Handled(None, Recorded(BindFailure(e)))
    case Ok(n) =>
      match repo.get(n)
      case Err(e) => Handled(Some(n), Recorded(e))
      case Ok(a) =>
        if !overridePermission && a.owner != payload.username then
          Handled(Some(n), Recorded(WrapDetail(NoRows, NotOwnedText)))
        else Handled(Some(n), Json(200, a))
  }

  /** The not-owned error matches only `ErrNoRows`, so the error middleware answers 404. */
  lemma NotOwnedAnswers404()
    ensures Classify(WrapDetail(NoRows, NotOwnedText)) == Reply(404, ErrorResponse("Not Found", []), InfoLevel)
  {
    WrapDetailIs(NoRows, NotOwnedText, InvalidCredentials);
    WrapDetailIs(NoRows, NotOwnedText, AccountAlreadyExists);
    WrapDetailIs(NoRows, NotOwnedText, InvalidToken);
    WrapDetailIs(NoRows, NotOwnedText, CurrencyMismatch);
    WrapDetailIs(NoRows, NotOwnedText, Forbidden);
    WrapDetailIs(NoRows, NotOwnedText, ForeignKeyConstraintViolation);
    WrapDetailIs(NoRows, NotOwnedText, UniqueConstraintViolation);
    WrapDetailIs(NoRows, NotOwnedText, NoRows);
    assert StatusText(404) == "Not Found";
  }

  /** Someone else's account answers 404, exactly as a missing one would, and never 403. */
  lemma ForeignAccountLooksMissing(id: string, payload: Payload, repo: AccountService.Repository)
    requires BindId(id).Ok? && repo.get(BindId(id).value).Ok?
    requires repo.get(BindId(id).value).value.owner != payload.username
    ensures HandleGetAccount(id, payload, false, repo).reply == Recorded(WrapDetail(NoRows, NotOwnedText))
    ensures Classify(HandleGetAccount(id, payload, false, repo).reply.err).status == 404
  {
    NotOwnedAnswers404();
  }

  /** `handleDeleteAccount`: 204 with no body once the service deletes; any error is recorded. */
  function HandleDeleteAccount(id: string, repo: AccountService.Repository): (h: Handled<int, ()>)
    ensures BindId(id).Err? ==> h.call.None? && h.reply.Recorded? && Is(h.reply.err, InvalidParams)
    ensures BindId(id).Ok? ==> h.call == AccountService.Delete(repo, BindId(id).value).deleted
    ensures h.reply == Json(204, ()) <==>
      BindId(id).Ok? && AccountService.Delete(repo, BindId(id).value).err.None?
    ensures h.reply == Json(204, ()) ==>
      repo.get(BindId(id).value).Ok? && repo.get(BindId(id).value).value.balance == 0
  {
    match BindId(id)
    case Err(e) => Handled(None, Recorded(BindFailure(e)))
    case Ok(n) =>
      var o := AccountService.Delete(repo, n);
      if o.err.Some? then Handled(o.deleted, Recorded(o.err.value))
      else Handled(o.deleted, Json(204, ()))
  }

  // ---------------------------------------------------------------------------
  // list: `page_id` and `page_size` query parameters

  /** `listAccountRequest` after parsing: both `int32`; `page_id` at least 1, `page_size` from 5 to 10. */
  function BindPage(pageId: Option<string>, pageSize: Option<string>): (r: Result<(int, int), Err>)
    ensures r.Ok? ==> 1 <= r.value.0 < 0x8000_0000 && 5 <= r.value.1 <= 10
    ensures r.Ok? <==>
      BindInt(pageId, 32).Ok? && BindInt(pageSize, 32).Ok? &&
      BindInt(pageId, 32).value >= 1 && 5 <= BindInt(pageSize, 32).value <= 10
    ensures r.Ok? ==> r.value == (BindInt(pageId, 32).value, BindInt(pageSize, 32).value)
  {
    match BindInt(pageId, 32)
    case Err(e) => Err(e)
    case Ok(id) =>
      match BindInt(pageSize, 32)
      case Err(e) => Err(e)
      case Ok(size) =>
        Int32Bound();
        PageValidation(id, size);
        Validate((id, size), PageFailures(id, size))
  }

  /** The validator's verdict on each field of `listAccountRequest`. */
  function PageFailures(id: int, size: int): seq<Option<FieldError>> {
    [FieldFailure("listAccountRequest", "PageID", [Required(id != 0), Check("min", "1", id >= 1)]),
     FieldFailure("listAccountRequest", "PageSize",
       [Required(size != 0), Check("min", "5", size >= 5), Check("max", "10", size <= 10)])]
  }

  /** The page fields pass exactly when `page_id` is at least 1 and `page_size` is from 5 to 10. */
  lemma PageValidation(id: int, size: int)
    ensures Validate((id, size), PageFailures(id, size)).Ok? <==> id >= 1 && 5 <= size <= 10
    ensures Validate((id, size), PageFailures(id, size)).Ok? ==> Validate((id, size), PageFailures(id, size)).value == (id, size)
  {
    var sizeChecks := [Required(size != 0), Check("min", "5", size >= 5), Check("max", "10", size <= 10)];
    assert sizeChecks[1..][1..] == [sizeChecks[2]];
  }

  /** The decimal texts of an accepted page id and page size bind back to the same page. */
  lemma BindPageOfText(id: int, size: int)
    requires 1 <= id < 0x8000_0000 && 5 <= size <= 10
    ensures BindPage(Some(Itoa(id)), Some(Itoa(size))) == Ok((id, size))
  {
    Int32Bound();
    ItoaParseRoundTripBits(id, 32);
    ItoaParseRoundTripBits(size, 32);
    assert BindInt(Some(Itoa(id)), 32) == Ok(id);
    assert BindInt(Some(Itoa(size)), 32) == Ok(size);
  }

  /**
   * Deleting an account that still holds money is refused with
   * `ErrBalanceNotZero`, which no case of the error middleware matches, so the
   * answer is 500.
   */
  lemma NonEmptyDeleteAnswers500(id: string, repo: AccountService.Repository)
    requires BindId(id).Ok? && repo.get(BindId(id).value).Ok? && repo.get(BindId(id).value).value.balance != 0
    ensures HandleDeleteAccount(id, repo).call.None?
    ensures HandleDeleteAccount(id, repo).reply == Recorded(Sentinel(BalanceNotZero))
    ensures Classify(Sentinel(BalanceNotZero)) == Reply(500, ErrorResponse("Internal Server Error", []), ErrorLevel)
  {
    assert Chain(Sentinel(BalanceNotZero)) == [Sentinel(BalanceNotZero)];
  }

  /** The offset of a page as the handler computes it: in `int32`, so it wraps around. */
  function ListOffsetAsWritten(pageId: int, pageSize: int): (offset: int)
    ensures -0x8000_0000 <= offset < 0x8000_0000
  {
    WrapInt32((pageId - 1) * pageSize)
  }

  /** The offset a page evidently should have: the rows of all earlier pages. */
  function ListOffset(pageId: int, pageSize: int): (offset: int)
    requires pageId >= 1 && pageSize >= 0
    ensures offset >= 0
    ensures offset + pageSize == pageId * pageSize
  {
    (pageId - 1) * pageSize
  }

  /** A page id the binding accepts wraps the handler's offset around to a negative number. */
  lemma OffsetOverflows()
    ensures BindPage(Some(Itoa(300000000)), Some(Itoa(10))) == Ok((300000000, 10))
    ensures ListOffsetAsWritten(300000000, 10) == -1294967306
  {
    BindPageOfText(300000000, 10);
    OffsetWraps();
  }

  /** 2999999990 rows lie past the int32 range and wrap to a negative offset. */
  lemma OffsetWraps()
    ensures ListOffsetAsWritten(300000000, 10) == -1294967306
  {
    var x := (300000000 - 1) * 10;
    assert x == 2999999990;
    assert (x + 0x8000_0000) % 0x1_0000_0000 == 852516342;
  }

  /** Consecutive pages start `pageSize` rows apart, and page 1 starts at the first row. */
  lemma PagesAreAdjacent(pageId: int, pageSize: int)
    requires pageId >= 1 && pageSize >= 0
    ensures ListOffset(1, pageSize) == 0
    ensures ListOffset(pageId + 1, pageSize) == ListOffset(pageId, pageSize) + pageSize
  {
  }

  /**
   * `handleListAccounts` as written: one page of the caller's own accounts,
   * starting at the offset computed in `int32`.
   */
  function HandleListAccounts(pageId: Option<string>, pageSize: Option<string>, payload: Payload,
                              repo: AccountService.Repository): (h: Handled<AccountService.ListParams, seq<Account>>)
    ensures h.call.Some? <==> BindPage(pageId, pageSize).Ok?
    ensures h.call.None? ==> h.reply.Recorded? && Is(h.reply.err, InvalidParams)
    ensures h.call.Some? ==>
      var (id, size) := BindPage(pageId, pageSize).value;
      h.call.value == AccountService.ListParams(payload.username, size, ListOffsetAsWritten(id, size)) &&
      -0x8000_0000 <= h.call.value.offset < 0x8000_0000
    ensures h.call.Some? ==>
      var r := repo.list(h.call.value);
      h.reply == if r.Ok? then Json(200, r.value) else Recorded(r.error)
  {
    match BindPage(pageId, pageSize)
    case Err(e) => Handled(None, Recorded(BindFailure(e)))
    case Ok((id, size)) =>
      var p := AccountService.ListParams(payload.username, size, ListOffsetAsWritten(id, size));
      match repo.list(p)
      case Err(e) => Handled(Some(p), Recorded(e))
      case Ok(accounts) => Handled(Some(p), Json(200, accounts))
  }

  /** `handleListAccounts` as evidently intended: the page starts after the rows of all earlier pages. */
  function HandleListAccountsIntended(pageId: Option<string>, pageSize: Option<string>, payload: Payload,
                                      repo: AccountService.Repository): (h: Handled<AccountService.ListParams, seq<Account>>)
    ensures h.call.Some? <==> BindPage(pageId, pageSize).Ok?
    ensures h.call.None? ==> h.reply.Recorded? && Is(h.reply.err, InvalidParams)
    ensures h.call.Some? ==>
      var (id, size) := BindPage(pageId, pageSize).value;
      h.call.value == AccountService.ListParams(payload.username, size, ListOffset(id, size)) &&
      h.call.value.offset >= 0
    ensures h.call.Some? ==>
      var r := repo.list(h.call.value);
      h.reply == if r.Ok? then Json(200, r.value) else Recorded(r.error)
  {
    match BindPage(pageId, pageSize)
    case Err(e) => Handled(None, Recorded(BindFailure(e)))
    case Ok((id, size)) =>
      var p := AccountService.ListParams(payload.username, size, ListOffset(id, size));
      match repo.list(p)
      case Err(e) => Handled(Some(p), Recorded(e))
      case Ok(accounts) => Handled(Some(p), Json(200, accounts))
  }

  /** The handler as written asks the service for page 300000000 of size 10 at a negative offset. */
  lemma ListAsWrittenAsksNegativeOffset(payload: Payload, repo: AccountService.Repository)
    ensures HandleListAccounts(Some(Itoa(300000000)), Some(Itoa(10)), payload, repo).call ==
      Some(AccountService.ListParams(payload.username, 10, -1294967306))
  {
    OffsetOverflows();
  }

  /** While the offset fits `int32`, the handler as written and the intended one behave alike. */
  lemma ListHandlersAgreeWithoutWrap(pageId: Option<string>, pageSize: Option<string>, payload: Payload,
                                     repo: AccountService.Repository)
    requires BindPage(pageId, pageSize).Ok?
    requires (BindPage(pageId, pageSize).value.0 - 1) * BindPage(pageId, pageSize).value.1 < 0x8000_0000
    ensures HandleListAccounts(pageId, pageSize, payload, repo) == HandleListAccountsIntended(pageId, pageSize, payload, repo)
  {
  }
}
