/**
 * The transfer endpoint: the checks made, in order, before the transfer
 * transaction is started. The transaction itself is a parameter.
 */
module TransferHandler {
  import opened Wrappers
  import opened Errors
  import opened Decimal
  import opened Binding
  import opened Gin
  import opened Token
  import AccountService

  type Account = AccountService.Account

  datatype TransferRequest = TransferRequest(fromAccountId: int, toAccountId: int, amount: int, currency: string)

  /** What the transaction is given: the two ids and the amount, but not the currency. */
  datatype TxParams = TxParams(fromAccountId: int, toAccountId: int, amount: int)

  /** `transferRequest`: both ids at least 1, a positive amount and a supported currency. */
  function BindTransfer(req: TransferRequest, supported: string -> bool): (r: Result<TransferRequest, Err>)
    ensures r.Ok? <==> req.fromAccountId >= 1 && req.toAccountId >= 1 && req.amount > 0 &&
                       |req.currency| > 0 && supported(req.currency)
    ensures r.Ok? ==> r.value == req
  {
    Validate(req, [
      FieldFailure("transferRequest", "FromAccountID",
        [Required(req.fromAccountId != 0), Check("min", "1", req.fromAccountId >= 1)]),
      FieldFailure("transferRequest", "ToAccountID",
        [Required(req.toAccountId != 0), Check("min", "1", req.toAccountId >= 1)]),
      FieldFailure("transferRequest", "Amount",
        [Required(req.amount != 0), Check("gt", "0", req.amount > 0)]),
      FieldFailure("transferRequest", "Currency",
        [Required(|req.currency| > 0), Check("currency", "", supported(req.currency))])])
  }

  const FromNotOwnedText: string := "from account doesn't belong to the authenticated user"

  /** The error for a destination account in another currency. */
  function ToCurrencyMismatch(to: Account, currency: string): Err {
    WrapDetail(CurrencyMismatch, "account [" + Itoa(to.id) + "] currency mismatch: " + to.currency + " vs " + currency)
  }

  /** Every check passes: the request binds, both accounts exist in its currency, and the caller owns the source. */
  predicate TransferAllowed(body: Result<TransferRequest, Err>, supported: string -> bool, payload: Payload,
                            get: int -> Result<Account, Err>) {
    body.Ok? && BindTransfer(body.value, supported).Ok? &&
    var req := body.value;
    get(req.fromAccountId).Ok? && get(req.toAccountId).Ok? &&
    get(req.fromAccountId).value.currency == req.currency &&
    get(req.fromAccountId).value.owner == payload.username &&
    get(req.toAccountId).value.currency == req.currency
  }

  /** `handleCreateTransfer` */
  function HandleCreateTransfer<R>(body: Result<TransferRequest, Err>, supported: string -> bool, payload: Payload,
                                   get: int -> Result<Account, Err>, createTx: TxParams -> Result<R, Err>)
    : (h: Handled<TxParams, R>)
    ensures h.call.Some? <==> TransferAllowed(body, supported, payload, get)
    ensures h.call.Some? ==> h.call.value == TxParams(body.value.fromAccountId, body.value.toAccountId, body.value.amount)
    ensures h.call.Some? ==>
      h.reply == if createTx(h.call.value).Ok? then Json(200, createTx(h.call.value).value) else Recorded(createTx(h.call.value).error)
    ensures (body.Err? || BindTransfer(body.value, supported).Err?) ==>
      h.reply.Recorded? && Is(h.reply.err, InvalidParams)
  {
    match body
    case Err(e) => Handled(None, Recorded(BindFailure(e)))
    case Ok(req) =>
      match BindTransfer(req, supported)
      case Err(e) => Handled(None, Recorded(BindFailure(e)))
      case Ok(_) =>
        match get(req.fromAccountId)
        case Err(e) =>
          if Is(e, NoRows) then Handled(None, Recorded(WrapColon(InvalidFromAccount, e)))
          else Handled(None, Recorded(e))
        case Ok(from) =>
          if from.currency != req.currency then Handled(None, Recorded(Sentinel(CurrencyMismatch)))
          else if from.owner != payload.username then
            Handled(None, Recorded(WrapLabelled(Forbidden, FromNotOwnedText, Plain(FromNotOwnedText))))
          else
            match get(req.toAccountId)
            case Err(e) =>
              if Is(e, NoRows) then Handled(None, Recorded(WrapColon(InvalidToAccount, e)))
              else Handled(None, Recorded(e))
            case Ok(to) =>
              if to.currency != req.currency then Handled(None, Recorded(ToCurrencyMismatch(to, req.currency)))
              else
                var p := TxParams(req.fromAccountId, req.toAccountId, req.amount);
                match createTx(p)
                case Err(e) => Handled(Some(p), Recorded(e))
                case Ok(r) => Handled(Some(p), Json(200, r))
  }

  /** A request that does not bind is refused whatever the accounts are: no account is looked up. */
  lemma BindFailureIgnoresAccounts<R>(body: Result<TransferRequest, Err>, supported: string -> bool, payload: Payload,
                                      get1: int -> Result<Account, Err>, get2: int -> Result<Account, Err>,
                                      createTx: TxParams -> Result<R, Err>)
    requires body.Err? || BindTransfer(body.value, supported).Err?
    ensures HandleCreateTransfer(body, supported, payload, get1, createTx) ==
            HandleCreateTransfer(body, supported, payload, get2, createTx)
  {
  }

  /**
   * Which check refuses a well-formed request, in the order they are made:
   * the source's existence, its currency (before its owner), its owner, the
   * destination's existence, its currency.
   */
  lemma {:induction false} RefusalOrder<R>(req: TransferRequest, supported: string -> bool, payload: Payload,
                                           get: int -> Result<Account, Err>, createTx: TxParams -> Result<R, Err>)
    requires BindTransfer(req, supported).Ok?
    ensures var h := HandleCreateTransfer(Ok(req), supported, payload, get, createTx);
      var from := get(req.fromAccountId);
      var to := get(req.toAccountId);
      (from.Err? && Is(from.error, NoRows) ==> h.reply.Recorded? && Is(h.reply.err, InvalidFromAccount)) &&
      (from.Err? && !Is(from.error, NoRows) ==> h.reply == Recorded(from.error)) &&
      (from.Ok? && from.value.currency != req.currency ==> h.reply == Recorded(Sentinel(CurrencyMismatch))) &&
      (from.Ok? && from.value.currency == req.currency && from.value.owner != payload.username ==>
        h.reply.Recorded? && Is(h.reply.err, Forbidden)) &&
      (from.Ok? && from.value.currency == req.currency && from.value.owner == payload.username ==>
        (to.Err? && Is(to.error, NoRows) ==> h.reply.Recorded? && Is(h.reply.err, InvalidToAccount)) &&
        (to.Ok? && to.value.currency != req.currency ==>
          h.reply.Recorded? && Is(h.reply.err, CurrencyMismatch)))
  {
    var from := get(req.fromAccountId);
    var to := get(req.toAccountId);
    if from.Err? {
      WrapIs(InvalidFromAccount, from.error, InvalidFromAccount);
    } else {
      WrapLabelledIs(Forbidden, FromNotOwnedText, Plain(FromNotOwnedText), Forbidden);
      if to.Err? {
        WrapIs(InvalidToAccount, to.error, InvalidToAccount);
      } else {
        var detail := "account [" + Itoa(to.value.id) + "] currency mismatch: " + to.value.currency + " vs " + req.currency;
        WrapDetailIs(CurrencyMismatch, detail, CurrencyMismatch);
      }
    }
  }
}
