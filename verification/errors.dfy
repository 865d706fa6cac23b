/**
 * Go error values as used by the application: package-level sentinels, errors
 * wrapped with `fmt.Errorf` and `%w`, the coded `*internal.Error`, the errors the
 * database drivers, the request validator and `strconv` produce.
 *
 * `errors.Is` and `errors.As` walk the wrap tree in pre-order; `Chain` lists that
 * walk once, and both are defined over it.
 */
module Errors {
  import opened Wrappers

  /** `internal.ErrorCode` is an unsigned integer enumerated with `iota`. */
  type ErrorCode = nat

  const ErrorCodeUnknown: ErrorCode := 0
  const ErrorCodeNotFound: ErrorCode := 1
  const ErrorCodeInvalidArgument: ErrorCode := 2
  const ErrorCodeDuplicate: ErrorCode := 3
  const ErrorCodeUnauthorized: ErrorCode := 4

  /** The package-level sentinel errors created with `errors.New`. */
  datatype Kind =
    | UniqueConstraintViolation
    | ForeignKeyConstraintViolation
    | NoRows
    | InvalidToken
    | InvalidCredentials
    | InvalidParams
    | InvalidFromAccount
    | InvalidToAccount
    | AccountAlreadyExists
    | CurrencyMismatch
    | Forbidden
    | UnverifiedAccount
    | BalanceNotZero
    | ZeroBalance

  function KindText(k: Kind): string {
    match k
    case UniqueConstraintViolation => "unique constraint violation"
    case ForeignKeyConstraintViolation => "foreign key constraint violation"
    case NoRows => "no rows in result set"
    case InvalidToken => "invalid token"
    case InvalidCredentials => "wrong password"
    case InvalidParams => "invalid params"
    case InvalidFromAccount => "invalid from account"
    case InvalidToAccount => "invalid to account"
    case AccountAlreadyExists => "account already exists"
    case CurrencyMismatch => "currency mismatch"
    case Forbidden => "forbidden"
    case UnverifiedAccount => "unverified account"
    case BalanceNotZero => "balance not zero"
    case ZeroBalance => "account balance is zero"
  }

  /** One failed rule of the request validator: namespace, field, tag and its parameter. */
  datatype FieldError = FieldError(namespace: string, field: string, tag: string, param: string)

  /** Why `strconv.ParseInt` refused its input. */
  datatype NumReason = Syntax | Range

  datatype Err =
      /** a sentinel from the list above */
    | Sentinel(kind: Kind)
      /** `errors.New` or `fmt.Errorf` without `%w`: wraps nothing */
    | Plain(text: string)
      /** `fmt.Errorf` with one or more `%w` verbs, already formatted */
    | Wrapped(text: string, wrapped: seq<Err>)
      /** `*internal.Error`: an optional original error, a message and a code */
    | Coded(orig: Option<Err>, msg: string, code: ErrorCode)
      /** `pgx.ErrNoRows` */
    | PgxNoRows
      /** `sql.ErrNoRows` */
    | SqlNoRows
      /** `*pgconn.PgError`: an SQLSTATE-coded error reported by the pgx driver */
    | PgError(sqlState: string, message: string, detail: string)
      /** `*pq.Error`: an SQLSTATE-coded error reported by the lib/pq driver */
    | PqError(sqlState: string, message: string, detail: string)
      /** `validator.ValidationErrors` */
    | Validation(fieldErrors: seq<FieldError>)
      /** `*strconv.NumError` from `strconv.ParseInt` */
    | NumError(input: string, reason: NumReason)

  // ---------------------------------------------------------------------------
  // internal.Error (internal/errors.go)

  /** `WrapErrorf`: the format arguments are already applied to `msg`. */
  function WrapErrorf(orig: Option<Err>, code: ErrorCode, msg: string): (e: Err)
    ensures e.Coded? && Code(e) == code && Message(e) == msg && Unwrap(e) == orig
  {
    Coded(orig, msg, code)
  }

  /** `NewErrorf` is `WrapErrorf` with a nil original. */
  function NewErrorf(code: ErrorCode, msg: string): (e: Err)
    ensures e.Coded? && Code(e) == code && Message(e) == msg && Unwrap(e) == None
    ensures ErrorText(e) == msg
  {
    WrapErrorf(None, code, msg)
  }

  /** `Message`: the text `Error()` starts with, and all of it exactly when nothing is wrapped. */
  function Message(e: Err): (m: string)
    requires e.Coded?
    ensures m <= ErrorText(e)
    ensures m == ErrorText(e) <==> e.orig.None?
  {
    e.msg
  }

  /** `Unwrap`: the error `errors.Is` and `errors.As` visit right after this one. */
  function Unwrap(e: Err): (u: Option<Err>)
    requires e.Coded?
    ensures Chain(e) == [e] + (if u.Some? then Chain(u.value) else [])
  {
    e.orig
  }

  /** `Code`: with the message and the original, it gives back the error `WrapErrorf` made. */
  function Code(e: Err): (c: ErrorCode)
    requires e.Coded?
    ensures Coded(Unwrap(e), Message(e), c) == e
  {
    e.code
  }

  // ---------------------------------------------------------------------------
  // Error() strings

  function FieldErrorText(f: FieldError): string {
    "Key: '" + f.namespace + "' Error:Field validation for '" + f.field + "' failed on the '" + f.tag + "' tag"
  }

  function FieldErrorsText(fs: seq<FieldError>): string {
    if |fs| == 0 then ""
    else if |fs| == 1 then FieldErrorText(fs[0])
    else FieldErrorText(fs[0]) + "\n" + FieldErrorsText(fs[1..])
  }

  function NumReasonText(r: NumReason): string {
    match r
    case Syntax => "invalid syntax"
    case Range => "value out of range"
  }

  /** `err.Error()` */
  function ErrorText(e: Err): (t: string)
    ensures e.Coded? ==> e.msg <= t
  {
    match e
    case Sentinel(k) => KindText(k)
    case Plain(t) => t
    case Wrapped(t, _) => t
    case Coded(orig, msg, _) => if orig.Some? then msg + ": " + ErrorText(orig.value) else msg
    case PgxNoRows => "no rows in result set"
    case SqlNoRows => "sql: no rows in result set"
    case PgError(sqlState, message, _) => "ERROR: " + message + " (SQLSTATE " + sqlState + ")"
    case PqError(_, message, _) => "pq: " + message
    case Validation(fs) => FieldErrorsText(fs)
    case NumError(input, reason) => "strconv.ParseInt: parsing \"" + input + "\": " + NumReasonText(reason)
  }

  // ---------------------------------------------------------------------------
  // fmt.Errorf shapes used across the application

  /** `fmt.Errorf("%w; %w", k, e)` */
  function WrapSemi(k: Kind, e: Err): Err {
    Wrapped(KindText(k) + "; " + ErrorText(e), [Sentinel(k), e])
  }

  /** `fmt.Errorf("%w: %w", k, e)` */
  function WrapColon(k: Kind, e: Err): Err {
    Wrapped(KindText(k) + ": " + ErrorText(e), [Sentinel(k), e])
  }

  /** `fmt.Errorf("%w; <note>: %w", k, e)` */
  function WrapLabelled(k: Kind, note: string, e: Err): Err {
    Wrapped(KindText(k) + "; " + note + ": " + ErrorText(e), [Sentinel(k), e])
  }

  /** `fmt.Errorf("%w: %s", k, detail)`: only the sentinel is wrapped. */
  function WrapDetail(k: Kind, detail: string): Err {
    Wrapped(KindText(k) + ": " + detail, [Sentinel(k)])
  }

  /** `fmt.Errorf("<prefix>: %w", e)` */
  function WrapContext(prefix: string, e: Err): Err {
    Wrapped(prefix + ": " + ErrorText(e), [e])
  }

  // ---------------------------------------------------------------------------
  // the wrap tree

  /** Every error reachable through `Unwrap`, in the pre-order `errors.Is`/`errors.As` visit them. */
  function Chain(e: Err): (c: seq<Err>)
    ensures |c| >= 1 && c[0] == e
    decreases e, 1
  {
    [e] + match e
      case Wrapped(_, ws) => ChainAll(ws)
      case Coded(orig, _, _) => if orig.Some? then Chain(orig.value) else []
      case _ => []
  }

  function ChainAll(ws: seq<Err>): seq<Err>
    decreases ws, 0
  {
    if |ws| == 0 then [] else Chain(ws[0]) + ChainAll(ws[1..])
  }

  /** `errors.Is(e, k)` for a sentinel `k`: sentinels compare by identity. */
  predicate Is(e: Err, k: Kind) {
    Sentinel(k) in Chain(e)
  }

  /** `errors.Is(e, sql.ErrNoRows)` */
  predicate IsSqlNoRows(e: Err) {
    SqlNoRows in Chain(e)
  }

  /** `errors.Is(e, pgx.ErrNoRows)` */
  predicate IsPgxNoRows(e: Err) {
    PgxNoRows in Chain(e)
  }

  /** The first element of `c` that satisfies `p`, as `errors.As` returns it. */
  function First(c: seq<Err>, p: Err -> bool): (r: Option<Err>)
    ensures r.None? <==> forall i :: 0 <= i < |c| ==> !p(c[i])
    ensures r.Some? ==> exists i :: 0 <= i < |c| && c[i] == r.value && p(c[i]) && forall j :: 0 <= j < i ==> !p(c[j])
  {
    if |c| == 0 then None
    else if p(c[0]) then Some(c[0])
    else
      var r := First(c[1..], p);
      assert r.Some? ==> exists i :: 0 <= i < |c| && c[i] == r.value && p(c[i]) && forall j :: 0 <= j < i ==> !p(c[j]) by {
        if r.Some? {
          var i :| 0 <= i < |c[1..]| && c[1..][i] == r.value && p(c[1..][i]) && forall j :: 0 <= j < i ==> !p(c[1..][j]);
          assert c[i + 1] == r.value;
          assert forall j :: 0 <= j < i + 1 ==> !p(c[j]) by {
            forall j | 0 <= j < i + 1 ensures !p(c[j]) {
              if j > 0 { assert c[j] == c[1..][j - 1]; }
            }
          }
        }
      }
      r
  }

  /** `errors.As(e, &ierr)` with `ierr *internal.Error` */
  function AsCoded(e: Err): (r: Option<Err>)
    ensures r.None? <==> forall i :: 0 <= i < |Chain(e)| ==> !Chain(e)[i].Coded?
    ensures r.Some? ==> exists i :: (0 <= i < |Chain(e)| && Chain(e)[i] == r.value && r.value.Coded? &&
      forall j :: 0 <= j < i ==> !Chain(e)[j].Coded?)
    ensures r.Some? ==> r.value.Coded? && r.value in Chain(e)
    ensures e.Coded? ==> r == Some(e)
  {
    var p := (x: Err) => x.Coded?;
    assert forall i :: 0 <= i < |Chain(e)| ==> (p(Chain(e)[i]) <==> Chain(e)[i].Coded?);
    First(Chain(e), p)
  }

  /** `errors.As(e, &validationErrors)` */
  function AsValidation(e: Err): (r: Option<seq<FieldError>>)
    ensures r.None? <==> forall i :: 0 <= i < |Chain(e)| ==> !Chain(e)[i].Validation?
    ensures r.Some? ==> exists i :: (0 <= i < |Chain(e)| && Chain(e)[i] == Validation(r.value) &&
      forall j :: 0 <= j < i ==> !Chain(e)[j].Validation?)
    ensures r.Some? ==> Validation(r.value) in Chain(e)
    ensures e.Validation? ==> r == Some(e.fieldErrors)
  {
    var p := (x: Err) => x.Validation?;
    assert forall i :: 0 <= i < |Chain(e)| ==> (p(Chain(e)[i]) <==> Chain(e)[i].Validation?);
    var f := First(Chain(e), p);
    if f.Some? then Some(f.value.fieldErrors) else None
  }

  /** `errors.As(e, &pgErr)` with `pgErr *pgconn.PgError` */
  function AsPg(e: Err): (r: Option<Err>)
    ensures r.None? <==> forall i :: 0 <= i < |Chain(e)| ==> !Chain(e)[i].PgError?
    ensures r.Some? ==> exists i :: (0 <= i < |Chain(e)| && Chain(e)[i] == r.value && r.value.PgError? &&
      forall j :: 0 <= j < i ==> !Chain(e)[j].PgError?)
    ensures r.Some? ==> r.value.PgError? && r.value in Chain(e)
    ensures e.PgError? ==> r == Some(e)
  {
    var p := (x: Err) => x.PgError?;
    assert forall i :: 0 <= i < |Chain(e)| ==> (p(Chain(e)[i]) <==> Chain(e)[i].PgError?);
    First(Chain(e), p)
  }

  /** A wrapper of a sentinel and an error, whatever its text, matches the sentinel and whatever the error matches. */
  lemma {:induction false} WrappedPairIs(t: string, k: Kind, e: Err, x: Kind)
    ensures Is(Wrapped(t, [Sentinel(k), e]), x) <==> x == k || Is(e, x)
  {
    ChainOfWrapped(t, [Sentinel(k), e]);
    assert Chain(Sentinel(k)) == [Sentinel(k)];
    var c := Chain(Wrapped(t, [Sentinel(k), e]));
    assert c == [Wrapped(t, [Sentinel(k), e])] + [Sentinel(k)] + Chain(e);
    assert Sentinel(x) in c <==> Sentinel(x) in [Sentinel(k)] || Sentinel(x) in Chain(e);
  }

  /** A `%w` wrapper of a sentinel and an error matches exactly the sentinel and whatever the error matches. */
  lemma {:induction false} WrapIs(k: Kind, e: Err, x: Kind)
    ensures Is(WrapSemi(k, e), x) <==> x == k || Is(e, x)
    ensures Is(WrapColon(k, e), x) <==> x == k || Is(e, x)
  {
    WrappedPairIs(KindText(k) + "; " + ErrorText(e), k, e, x);
    WrappedPairIs(KindText(k) + ": " + ErrorText(e), k, e, x);
  }

  /** A labelled wrapper of a sentinel and an error matches the sentinel and whatever the error matches. */
  lemma {:induction false} WrapLabelledIs(k: Kind, note: string, e: Err, x: Kind)
    ensures Is(WrapLabelled(k, note, e), x) <==> x == k || Is(e, x)
  {
    WrappedPairIs(KindText(k) + "; " + note + ": " + ErrorText(e), k, e, x);
  }

  /** A context wrapper matches what the wrapped error matches. */
  lemma {:induction false} WrapContextIs(prefix: string, e: Err, x: Kind)
    ensures Is(WrapContext(prefix, e), x) <==> Is(e, x)
  {
    ChainOfWrapped(prefix + ": " + ErrorText(e), [e]);
  }

  /** A detail wrapper matches exactly its sentinel. */
  lemma {:induction false} WrapDetailIs(k: Kind, detail: string, x: Kind)
    ensures Is(WrapDetail(k, detail), x) <==> x == k
    ensures !IsPgxNoRows(WrapDetail(k, detail))
    ensures AsPg(WrapDetail(k, detail)).None?
    ensures AsValidation(WrapDetail(k, detail)).None?
    ensures AsCoded(WrapDetail(k, detail)).None?
  {
    var w := WrapDetail(k, detail);
    ChainOfWrapped(KindText(k) + ": " + detail, [Sentinel(k)]);
    assert Chain(Sentinel(k)) == [Sentinel(k)];
    assert Chain(w) == [w, Sentinel(k)];
  }

  /** The chain of a wrapper with two or fewer children, spelled out. */
  lemma ChainOfWrapped(t: string, ws: seq<Err>)
    requires 1 <= |ws| <= 2
    ensures |ws| == 1 ==> Chain(Wrapped(t, ws)) == [Wrapped(t, ws)] + Chain(ws[0])
    ensures |ws| == 2 ==> Chain(Wrapped(t, ws)) == [Wrapped(t, ws)] + Chain(ws[0]) + Chain(ws[1])
  {
    assert Chain(Wrapped(t, ws)) == [Wrapped(t, ws)] + ChainAll(ws);
    var tail := ws[1..];
    if |ws| == 2 {
      assert ChainAll(tail[1..]) == [];
      assert ChainAll(tail) == Chain(ws[1]);
    } else {
      assert ChainAll(tail) == [];
    }
    assert ChainAll(ws) == Chain(ws[0]) + ChainAll(tail);
  }
}
