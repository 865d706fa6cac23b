/**
 * The account service: the duplicate-account translation on create and the
 * zero-balance guard on delete, over an account repository given as functions.
 */
module AccountService {
  import opened Wrappers
  import opened Errors

  /** An account as the repository stores it: amounts in cents. */
  datatype Account = Account(id: int, owner: string, balance: int, currency: string)

  datatype CreateParams = CreateParams(owner: string, balance: int, currency: string)

  datatype ListParams = ListParams(owner: string, limit: int, offset: int)

  /** The account repository; its implementation is not part of this model. */
  datatype Repository = Repository(
    create: CreateParams -> Result<Account, Err>,
    get: int -> Result<Account, Err>,
    list: ListParams -> Result<seq<Account>, Err>,
    delete: int -> Option<Err>)

  /** `Create`: a unique-constraint violation becomes `ErrAccountAlreadyExists`; anything else passes. */
  function Create(repo: Repository, p: CreateParams): (r: Result<Account, Err>)
    ensures repo.create(p).Ok? ==> r == repo.create(p)
    ensures repo.create(p).Err? && Is(repo.create(p).error, UniqueConstraintViolation) ==>
      r.Err? && Is(r.error, AccountAlreadyExists) && !Is(r.error, UniqueConstraintViolation)
    ensures repo.create(p).Err? && !Is(repo.create(p).error, UniqueConstraintViolation) ==> r == repo.create(p)
  {
    match repo.create(p)
    case Err(e) =>
      if Is(e, UniqueConstraintViolation) then
        var w := WrapDetail(AccountAlreadyExists, ErrorText(e));
        WrapDetailIs(AccountAlreadyExists, ErrorText(e), AccountAlreadyExists);
        WrapDetailIs(AccountAlreadyExists, ErrorText(e), UniqueConstraintViolation);
        Err(w)
      else Err(e)
    case Ok(a) => Ok(a)
  }

  /** The outcome of a delete: the id passed to the repository's delete, if any, and the error returned. */
  datatype DeleteOutcome = DeleteOutcome(deleted: Option<int>, err: Option<Err>)

  /** `Delete`: look the account up; delete it only when that succeeds and its balance is zero. */
  function Delete(repo: Repository, id: int): (o: DeleteOutcome)
    ensures o.deleted.Some? <==> repo.get(id).Ok? && repo.get(id).value.balance == 0
    ensures o.deleted.Some? ==> o.deleted.value == id && o.err == repo.delete(id)
    ensures repo.get(id).Err? ==> o.err == Some(repo.get(id).error)
    ensures repo.get(id).Ok? && repo.get(id).value.balance != 0 ==> o.err == Some(Sentinel(BalanceNotZero))
  {
    match repo.get(id)
    case Err(e) => DeleteOutcome(None, Some(e))
    case Ok(a) =>
      if a.balance != 0 then DeleteOutcome(None, Some(Sentinel(BalanceNotZero)))
      else DeleteOutcome(Some(id), repo.delete(id))
  }

  /** A delete that reports no error removed the account it looked up, which held nothing. */
  lemma DeleteOnlyEmpty(repo: Repository, id: int)
    ensures Delete(repo, id).err.None? ==>
      Delete(repo, id).deleted == Some(id) && repo.get(id).Ok? && repo.get(id).value.balance == 0 && repo.delete(id).None?
    ensures Delete(repo, id).deleted.None? ==> Delete(repo, id).err.Some?
  {
  }
}
