/**
 * The `accounts` table of the SQL store: each row an id, the owning user and
 * a balance in cents. Rows are kept in insertion order, which is ascending id
 * order because ids come from a sequence.
 */
module AccountStore {
  import opened Wrappers
  import opened Errors
  import opened Decimal

  datatype Account = Account(id: int, userId: int, balance: int)

  /** The SQL statements of the repository, one per query it sends. */
  datatype Statement = Insert | SelectPage | SelectRow | SelectBalance | Delete | Update

  /**
   * The rows, the ids of existing users (the foreign key's target), the next
   * id the sequence hands out, and the driver error each failing statement
   * reports (a lost connection, a cancelled context, a failed scan).
   */
  datatype Store = Store(rows: seq<Account>, users: set<int>, nextId: int, failures: map<Statement, Err>)

  /** Ids ascend strictly and stay below the next id to be handed out; balances fit a `bigint`. */
  ghost predicate Valid(s: Store) {
    s.nextId >= 1 && Ascending(s.rows) &&
    (forall i :: 0 <= i < |s.rows| ==> 1 <= s.rows[i].id < s.nextId && IsInt64(s.rows[i].balance))
  }

  /** Ids ascend strictly along the rows. */
  predicate Ascending(rows: seq<Account>) {
    forall i, j :: 0 <= i < j < |rows| ==> rows[i].id < rows[j].id
  }

  const ForeignKeyViolation: string := "23503"
  const InvalidOffset: string := "2201X"
  const InvalidLimit: string := "2201W"
  const NumericOutOfRange: string := "22003"

  /** The table after a statement, and the error the statement returned, if any. */
  datatype Outcome = Outcome(store: Store, err: Option<Err>)

  /**
   * `Create`: insert an account with balance 0 for an existing user; a driver
   * error is returned as is. The id comes from the `BIGSERIAL` sequence before
   * the foreign key is checked, and a sequence value is never given back, so an
   * insert refused for an unknown user still uses up an id.
   */
  function Create(s: Store, userId: int): (r: Outcome)
    ensures r.err.None? <==> Insert !in s.failures && userId in s.users
    ensures Insert in s.failures ==> r == Outcome(s, Some(s.failures[Insert]))
    ensures Insert !in s.failures && userId !in s.users ==>
      r.err.Some? && r.err.value.PqError? && r.err.value.sqlState == ForeignKeyViolation &&
      r.store.rows == s.rows && r.store.nextId == s.nextId + 1
    ensures r.err.None? ==> r.store.rows == s.rows + [Account(s.nextId, userId, 0)] && r.store.nextId == s.nextId + 1
    ensures r.store.users == s.users && r.store.failures == s.failures
    ensures Valid(s) ==> Valid(r.store)
  {
    if Insert in s.failures then Outcome(s, Some(s.failures[Insert]))
    else if userId !in s.users then
      Outcome(s.(nextId := s.nextId + 1), Some(ForeignKeyError(userId)))
    else
      AppendKeepsValid(s, Account(s.nextId, userId, 0));
      Outcome(s.(rows := s.rows + [Account(s.nextId, userId, 0)], nextId := s.nextId + 1), None)
  }

  /** The driver's error for an account row naming a user that does not exist. */
  function ForeignKeyError(userId: int): (e: Err)
    ensures e.PqError? && e.sqlState == ForeignKeyViolation
  {
    PqError(ForeignKeyViolation,
      "insert or update on table \"accounts\" violates foreign key constraint \"accounts_user_id_fkey\"",
      "Key (user_id)=(" + Itoa(userId) + ") is not present in table \"users\".")
  }

  /** An insert refused for an unknown user uses up an id: the next account gets the one after it. */
  lemma RefusedInsertUsesId(s: Store, unknown: int, userId: int)
    requires Insert !in s.failures && unknown !in s.users && userId in s.users
    ensures Create(Create(s, unknown).store, userId).store.rows == s.rows + [Account(s.nextId + 1, userId, 0)]
  {
  }

  /** Appending a row with the next id and an `int64` balance keeps the table invariant. */
  lemma AppendKeepsValid(s: Store, a: Account)
    requires a.id == s.nextId && IsInt64(a.balance)
    ensures Valid(s) ==> Valid(s.(rows := s.rows + [a], nextId := s.nextId + 1))
  {
    if Valid(s) {
      var rows := s.rows + [a];
      assert forall i :: 0 <= i < |s.rows| ==> rows[i] == s.rows[i];
      assert Ascending(rows);
    }
  }

  /** The user's rows, in table order. */
  function Owned(rows: seq<Account>, userId: int): (r: seq<Account>)
    ensures |r| <= |rows|
    ensures forall a :: a in r <==> a in rows && a.userId == userId
  {
    if |rows| == 0 then []
    else if rows[0].userId == userId then [rows[0]] + Owned(rows[1..], userId)
    else Owned(rows[1..], userId)
  }

  /**
   * `GetAllByUserID`: the user's rows after skipping `offset`, at most `limit`
   * of them. A failing query or scan returns the driver's error.
   */
  function GetAllByUserID(s: Store, userId: int, offset: int, limit: int): (r: Result<seq<Account>, Err>)
    ensures SelectPage in s.failures ==> r == Err(s.failures[SelectPage])
    ensures SelectPage !in s.failures && offset < 0 ==> r.Err? && r.error.PqError? && r.error.sqlState == InvalidOffset
    ensures SelectPage !in s.failures && offset >= 0 && limit < 0 ==>
      r.Err? && r.error.PqError? && r.error.sqlState == InvalidLimit
    ensures r.Ok? <==> SelectPage !in s.failures && offset >= 0 && limit >= 0
    ensures r.Ok? ==> forall a :: a in r.value ==> a in s.rows && a.userId == userId
    ensures r.Ok? ==> var owned := Owned(s.rows, userId);
      |r.value| == (if offset + limit <= |owned| then limit else if offset <= |owned| then |owned| - offset else 0) &&
      forall i :: 0 <= i < |r.value| ==> r.value[i] == owned[offset + i]
  {
    if SelectPage in s.failures then Err(s.failures[SelectPage])
    else if offset < 0 then Err(PqError(InvalidOffset, "OFFSET must not be negative", ""))
    else if limit < 0 then Err(PqError(InvalidLimit, "LIMIT must not be negative", ""))
    else
      var owned := Owned(s.rows, userId);
      var rest := if offset <= |owned| then owned[offset..] else [];
      Ok(if limit <= |rest| then rest[..limit] else rest)
  }

  /** The row with this id, if the user owns it. */
  function Find(rows: seq<Account>, userId: int, id: int): (r: Option<Account>)
    ensures r.Some? ==> r.value in rows && r.value.id == id && r.value.userId == userId
    ensures r.None? ==> forall a :: a in rows ==> a.id != id || a.userId != userId
  {
    if |rows| == 0 then None
    else if rows[0].id == id && rows[0].userId == userId then Some(rows[0])
    else Find(rows[1..], userId, id)
  }

  /** The error the store reports when the user owns no account with this id. */
  function AccountNotFound(): (e: Err)
    ensures AsCoded(e) == Some(e) && Code(e) == ErrorCodeNotFound && Unwrap(e) == Some(SqlNoRows)
  {
    WrapErrorf(Some(SqlNoRows), ErrorCodeNotFound, "account not found")
  }

  /**
   * The translation both single-row lookups apply to a failed scan: an error
   * that is `sql.ErrNoRows` becomes a NotFound-coded "account not found"
   * wrapping it; any other error is returned as is.
   */
  function NotFoundOr(e: Err): (r: Err)
    ensures IsSqlNoRows(e) ==> r.Coded? && Code(r) == ErrorCodeNotFound && Unwrap(r) == Some(e) && AsCoded(r) == Some(r)
    ensures !IsSqlNoRows(e) ==> r == e
  {
    if IsSqlNoRows(e) then WrapErrorf(Some(e), ErrorCodeNotFound, "account not found") else e
  }

  /** `QueryRow(...).Scan`: the matching row, `sql.ErrNoRows` when there is none, or the statement's driver error. */
  function ScanRow(s: Store, stmt: Statement, userId: int, id: int): (r: Result<Account, Err>)
    ensures stmt in s.failures ==> r == Err(s.failures[stmt])
    ensures stmt !in s.failures ==> r == if Find(s.rows, userId, id).Some? then Ok(Find(s.rows, userId, id).value) else Err(SqlNoRows)
  {
    if stmt in s.failures then Err(s.failures[stmt])
    else match Find(s.rows, userId, id)
      case None => Err(SqlNoRows)
      case Some(a) => Ok(a)
  }

  /** `GetByID`: the account when both the user and the id match, else a NotFound-coded error or the driver's error. */
  function GetByID(s: Store, userId: int, id: int): (r: Result<Account, Err>)
    ensures r.Ok? <==> SelectRow !in s.failures && exists a :: a in s.rows && a.id == id && a.userId == userId
    ensures r.Ok? ==> r.value in s.rows && r.value.id == id && r.value.userId == userId
    ensures SelectRow !in s.failures && r.Err? ==> r.error == AccountNotFound()
    ensures SelectRow in s.failures && !IsSqlNoRows(s.failures[SelectRow]) ==> r == Err(s.failures[SelectRow])
    ensures SelectRow in s.failures && IsSqlNoRows(s.failures[SelectRow]) ==>
      r.Err? && r.error.Coded? && Code(r.error) == ErrorCodeNotFound && Unwrap(r.error) == Some(s.failures[SelectRow])
  {
    match ScanRow(s, SelectRow, userId, id)
    case Err(e) => Err(NotFoundOr(e))
    case Ok(a) => Ok(a)
  }

  /** The rows without the one with this id owned by this user. */
  function Remove(rows: seq<Account>, userId: int, id: int): (r: seq<Account>)
    ensures forall a :: a in r <==> a in rows && (a.id != id || a.userId != userId)
    ensures |r| <= |rows|
    ensures Ascending(rows) ==> Ascending(r)
  {
    if |rows| == 0 then []
    else if rows[0].id == id && rows[0].userId == userId then Remove(rows[1..], userId, id)
    else
      var rest := Remove(rows[1..], userId, id);
      ConsKeepsAscending(rows[0], rows[1..], rest);
      assert rows == [rows[0]] + rows[1..];
      [rows[0]] + rest
  }

  /** A row ahead of an ascending table stays ahead of any ascending selection of that table's rows. */
  lemma ConsKeepsAscending(x: Account, tail: seq<Account>, rest: seq<Account>)
    requires forall a :: a in rest ==> a in tail
    ensures Ascending([x] + tail) ==> Ascending(tail)
    ensures Ascending([x] + tail) && Ascending(rest) ==> Ascending([x] + rest)
  {
    if Ascending([x] + tail) {
      forall i, j | 0 <= i < j < |tail| ensures tail[i].id < tail[j].id {
        assert ([x] + tail)[i + 1] == tail[i] && ([x] + tail)[j + 1] == tail[j];
      }
      if Ascending(rest) {
        forall i, j | 0 <= i < j < |[x] + rest| ensures ([x] + rest)[i].id < ([x] + rest)[j].id {
          if i == 0 {
            assert rest[j - 1] in tail;
            var k :| 0 <= k < |tail| && tail[k] == rest[j - 1];
            assert ([x] + tail)[0] == x && ([x] + tail)[k + 1] == tail[k];
            assert ([x] + rest)[0] == x && ([x] + rest)[j] == rest[j - 1];
          } else {
            assert ([x] + rest)[i] == rest[i - 1] && ([x] + rest)[j] == rest[j - 1];
          }
        }
      }
    }
  }

  /**
   * `DeleteByID`: the balance lookup's error (the driver's no-rows error for a
   * missing row) is returned as it is, a non-zero balance gives
   * `ErrZeroBalance`; otherwise the row is removed, unless the delete itself fails.
   */
  function DeleteByID(s: Store, userId: int, id: int): (r: Result<Store, Err>)
    ensures SelectBalance in s.failures ==> r == Err(s.failures[SelectBalance])
    ensures SelectBalance !in s.failures && Find(s.rows, userId, id).None? ==> r == Err(SqlNoRows)
    ensures SelectBalance !in s.failures && Find(s.rows, userId, id).Some? && Find(s.rows, userId, id).value.balance != 0 ==>
      r == Err(Sentinel(ZeroBalance))
    ensures (SelectBalance !in s.failures && Find(s.rows, userId, id).Some? &&
             Find(s.rows, userId, id).value.balance == 0 && Delete in s.failures) ==> r == Err(s.failures[Delete])
    ensures r.Ok? <==>
      SelectBalance !in s.failures && Delete !in s.failures &&
      Find(s.rows, userId, id).Some? && Find(s.rows, userId, id).value.balance == 0
    ensures r.Ok? ==> r.value.users == s.users && r.value.nextId == s.nextId && r.value.failures == s.failures
    ensures r.Ok? ==> forall a :: a in r.value.rows <==> a in s.rows && (a.id != id || a.userId != userId)
    ensures r.Ok? && Valid(s) ==> Valid(r.value)
  {
    match ScanRow(s, SelectBalance, userId, id)
    case Err(e) => Err(e)
    case Ok(a) =>
      if a.balance != 0 then Err(Sentinel(ZeroBalance))
      else if Delete in s.failures then Err(s.failures[Delete])
      else Ok(s.(rows := Remove(s.rows, userId, id)))
  }

  /** The rows with `delta` added to the balance of the one with this id owned by this user. */
  function Adjust(rows: seq<Account>, userId: int, id: int, delta: int): (r: seq<Account>)
    ensures |r| == |rows|
    ensures forall i :: 0 <= i < |rows| ==>
      (r[i] == if rows[i].id == id && rows[i].userId == userId
               then rows[i].(balance := rows[i].balance + delta) else rows[i])
  {
    if |rows| == 0 then []
    else
      var a := rows[0];
      [if a.id == id && a.userId == userId then a.(balance := a.balance + delta) else a]
        + Adjust(rows[1..], userId, id, delta)
  }

  /**
   * `UpdateBalanceByID`: add `delta` to the balance, with no lower bound; a
   * result outside the `bigint` range is an out-of-range error. The returned
   * account carries only the id and the new balance. Errors are translated as
   * `GetByID` translates them.
   */
  function UpdateBalanceByID(s: Store, userId: int, id: int, delta: int): (r: Result<(Store, Account), Err>)
    requires IsInt64(delta)
    ensures Update !in s.failures && Find(s.rows, userId, id).None? ==> r == Err(AccountNotFound())
    ensures Update in s.failures && !IsSqlNoRows(s.failures[Update]) ==> r == Err(s.failures[Update])
    ensures Update in s.failures && IsSqlNoRows(s.failures[Update]) ==>
      r.Err? && r.error.Coded? && Code(r.error) == ErrorCodeNotFound && Unwrap(r.error) == Some(s.failures[Update])
    ensures r.Ok? <==>
      Update !in s.failures && Find(s.rows, userId, id).Some? && IsInt64(Find(s.rows, userId, id).value.balance + delta)
    ensures r.Ok? ==>
      r.value.1 == Account(id, 0, Find(s.rows, userId, id).value.balance + delta) &&
      r.value.0 == s.(rows := Adjust(s.rows, userId, id, delta))
    ensures r.Ok? && Valid(s) ==> Valid(r.value.0)
  {
    match ScanRow(s, Update, userId, id)
    case Err(e) => Err(NotFoundOr(e))
    case Ok(a) =>
      if !IsInt64(a.balance + delta) then Err(PqError(NumericOutOfRange, "bigint out of range", ""))
      else
        AdjustKeepsValid(s, userId, id, delta);
        Ok((s.(rows := Adjust(s.rows, userId, id, delta)), Account(id, 0, a.balance + delta)))
  }

  /** Adjusting the one row an id names, to a balance that fits `int64`, keeps the table invariant. */
  lemma AdjustKeepsValid(s: Store, userId: int, id: int, delta: int)
    requires Find(s.rows, userId, id).Some? && IsInt64(Find(s.rows, userId, id).value.balance + delta)
    ensures Valid(s) ==> Valid(s.(rows := Adjust(s.rows, userId, id, delta)))
  {
    if Valid(s) {
      var f := Find(s.rows, userId, id).value;
      var r := Adjust(s.rows, userId, id, delta);
      assert forall i :: 0 <= i < |r| ==> r[i].id == s.rows[i].id;
      forall i | 0 <= i < |r| ensures IsInt64(r[i].balance) {
        if s.rows[i].id == id && s.rows[i].userId == userId {
          var j :| 0 <= j < |s.rows| && s.rows[j] == f;
          assert i == j;
        }
      }
      assert Ascending(r);
    }
  }

  // ---------------------------------------------------------------------------
  // properties relating the operations

  /** In ascending rows, the row found for an id is the only row with that id. */
  lemma {:induction false} FindAppended(rows: seq<Account>, a: Account, userId: int, id: int)
    requires forall b :: b in rows ==> b.id < a.id
    ensures Find(rows + [a], userId, a.id) == if a.userId == userId then Some(a) else None
  {
    if |rows| == 0 {
      assert rows + [a] == [a];
    } else {
      assert (rows + [a])[1..] == rows[1..] + [a];
      FindAppended(rows[1..], a, userId, id);
    }
  }

  /** A created account is found under its owner with balance 0. */
  lemma CreateThenGet(s: Store, userId: int)
    requires Valid(s) && Create(s, userId).err.None? && SelectRow !in s.failures
    ensures GetByID(Create(s, userId).store, userId, s.nextId) == Ok(Account(s.nextId, userId, 0))
  {
    FindAppended(s.rows, Account(s.nextId, userId, 0), userId, s.nextId);
  }

  /** After a delete the account is gone: looking it up is a NotFound error. */
  lemma DeleteThenGet(s: Store, userId: int, id: int)
    requires DeleteByID(s, userId, id).Ok? && SelectRow !in s.failures
    ensures GetByID(DeleteByID(s, userId, id).value, userId, id) == Err(AccountNotFound())
  {
  }

  /** Adding `delta` and then `-delta` gives the rows back. */
  lemma {:induction false} AdjustInverse(rows: seq<Account>, userId: int, id: int, delta: int)
    ensures Adjust(Adjust(rows, userId, id, delta), userId, id, -delta) == rows
  {
    if |rows| > 0 {
      AdjustInverse(rows[1..], userId, id, delta);
    }
  }

  /** The row found after adjusting is the row found before, with `delta` added. */
  lemma {:induction false} FindAdjusted(rows: seq<Account>, userId: int, id: int, delta: int)
    requires Find(rows, userId, id).Some?
    ensures Find(Adjust(rows, userId, id, delta), userId, id) ==
      Some(Find(rows, userId, id).value.(balance := Find(rows, userId, id).value.balance + delta))
  {
    if !(rows[0].id == id && rows[0].userId == userId) {
      FindAdjusted(rows[1..], userId, id, delta);
    }
  }

  /** Applying the opposite delta undoes an update and returns the old balance. */
  lemma UpdateInverse(s: Store, userId: int, id: int, delta: int)
    requires Valid(s) && IsInt64(delta) && IsInt64(-delta)
    requires UpdateBalanceByID(s, userId, id, delta).Ok?
    ensures UpdateBalanceByID(UpdateBalanceByID(s, userId, id, delta).value.0, userId, id, -delta) ==
      Ok((s, Account(id, 0, Find(s.rows, userId, id).value.balance)))
  {
    var a := Find(s.rows, userId, id).value;
    var s1 := s.(rows := Adjust(s.rows, userId, id, delta));
    assert UpdateBalanceByID(s, userId, id, delta).value.0 == s1;
    FindAdjusted(s.rows, userId, id, delta);
    assert Find(s1.rows, userId, id) == Some(a.(balance := a.balance + delta));
    AdjustInverse(s.rows, userId, id, delta);
    assert s1.(rows := Adjust(s1.rows, userId, id, -delta)) == s;
    var i :| 0 <= i < |s.rows| && s.rows[i] == a;
    assert IsInt64(a.balance);
  }

  /** An update changes no account but the one it names. */
  lemma UpdateChangesOnlyTarget(s: Store, userId: int, id: int, delta: int, other: Account)
    requires IsInt64(delta) && UpdateBalanceByID(s, userId, id, delta).Ok?
    requires other in s.rows && (other.id != id || other.userId != userId)
    ensures other in UpdateBalanceByID(s, userId, id, delta).value.0.rows
  {
    var i :| 0 <= i < |s.rows| && s.rows[i] == other;
    assert UpdateBalanceByID(s, userId, id, delta).value.0.rows[i] == other;
  }

  /** Consecutive pages of a listing add up to one larger page. */
  lemma PagesConcatenate(s: Store, userId: int, k: nat, m: nat)
    requires SelectPage !in s.failures
    ensures GetAllByUserID(s, userId, 0, k).value + GetAllByUserID(s, userId, k, m).value ==
      GetAllByUserID(s, userId, 0, k + m).value
  {
    var owned := Owned(s.rows, userId);
    assert owned[0..] == owned;
    if k + m <= |owned| {
      assert owned[..k] + owned[k..][..m] == owned[..k + m];
    } else if k <= |owned| {
      assert owned[..k] + owned[k..] == owned;
    }
  }
}
