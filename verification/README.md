# gobank / mybank: authorization, error mapping and account guards

This Dafny project models the decision logic of the `mybank` gin server and of
the older `gobank` `net/http` API. Both live in the same Go repository. The
model covers:

- **Errors.** The application's Go error values are a tree. It has sentinels,
  `%w` wrappers, the coded `*internal.Error` and the driver, validator and
  `strconv` errors. `errors.Is` and `errors.As` walk that tree in pre-order.
- **Error translation and answers.** `DBErrorToInternal` translates store
  errors. The gin `ErrorHandler` switch picks the response for each recorded
  error. `WriteErrorResponse` does the same for the `net/http` handlers.
- **Bearer tokens and roles.** This covers the `Authorization` header parse
  (`strings.Fields`, `strings.ToLower`) and the two gin middlewares
  (`Authentication` and `authMiddleware`). It also covers their role policies,
  `CanOverridePermission` and `HasPermission`.
- **The JWT middlewares of the `net/http` API.** Both versions are modelled:
  the claim, expiry and path-ownership checks, `CreateJWT`, and the
  signing-method check of `validateJWT`.
- **Login and refresh.** The auth service's `Login` and `RenewAccessToken`
  work over a user lookup, a password oracle, a token maker, a session table
  and an integer clock.
- **Request handlers.** The user, account and transfer handlers are modelled
  with their request binding rules and the ordered checks they make before
  calling a service.
- **Account services.** The account service's error mapping and zero-balance
  delete guard are modelled.
- **The gobank account table.** Create, paged listing, get, delete with its
  balance guard, and the balance-delta update are operations on a sequence of
  rows.
- **Registration check.** The reflective `ValidateRegisterUserRequest` is
  modelled.

Collaborators whose code is not part of this model are parameters:

- the token maker;
- the password check;
- the user lookup;
- the mybank account repository;
- the transfer transaction;
- the user update service;
- the currency check;
- the JWT library's decode, sign and signature check.

Time is an integer parameter: the clock reading of a call is passed in. It is
nanoseconds for the JWT middlewares and whatever unit the token payloads use
for the services. The token maker is given the time and a draw number, which
stands for the random token id it would generate. Outcomes are data:

- A handler returns the service call it makes, if any, and the response it
  writes or the error it records.
- A middleware returns whether it aborts, passes or panics.

## Model

| member | source | states |
|---|---|---|
| Errors.WrapErrorf | internal/errors.go:27-34 | a coded error keeps its original, message and code, and gives each back through `Unwrap`, `Message` and `Code` |
| Errors.NewErrorf | internal/errors.go:36-39 | a new coded error wraps nothing, and its text is exactly its message |
| Errors.ErrorText | internal/errors.go:41-48 | the text of a coded error starts with its message |
| Errors.Message | internal/errors.go:50-53 | the message is a prefix of the error's text, and equal to it exactly when nothing is wrapped |
| Errors.Unwrap | internal/errors.go:55-58 | the wrapped error is where `errors.Is` and `errors.As` continue after a coded error |
| Errors.Code | internal/errors.go:60-63 | the code, with the message and the wrapped error, rebuilds the coded error |
| Errors.First | internal/error.go:42-43 | `errors.As` finds the earliest error of the chain that has the wanted type, and finds none exactly when no error there has it |
| Errors.AsCoded | internal/handler/utils.go:27-28 | none is found exactly when no error of the chain is an `*internal.Error`; otherwise the one found is the first such error in pre-order, and a coded error finds itself |
| Errors.AsValidation | internal/middleware/error_handler.go:22-25 | none is found exactly when no error of the chain is a `validator.ValidationErrors`; otherwise the field errors of the first such error in pre-order, and a validation error finds its own |
| Errors.AsPg | internal/error.go:42-44 | none is found exactly when no error of the chain is a `*pgconn.PgError`; otherwise the first such error in pre-order, and a driver error finds itself |
| Errors.WrapIs | internal/handler/account.go:55 | `fmt.Errorf("%w; %w")` and `"%w: %w"` wrappers match their sentinel and everything the wrapped error matches, and nothing else |
| Errors.WrappedPairIs | internal/handler/account.go:55 | an error wrapping a sentinel and a cause matches that sentinel and exactly what the cause matches |
| Errors.WrapLabelledIs | internal/service/auth.go:116 | a `"%w; note: %w"` wrapper matches its sentinel and whatever the wrapped error matches, and nothing else |
| Errors.WrapContextIs | internal/service/auth.go:195-197 | a `"prefix: %w"` wrapper matches exactly what the wrapped error matches |
| Errors.WrapDetailIs | internal/error.go:40 | a `"%w: %s"` wrapper matches only its sentinel; no driver, validation or coded error is found inside it |
| DbError.DBErrorToInternal | internal/error.go:38-54 | "no rows" becomes `ErrNoRows` carrying the driver's text; SQLSTATE 23503 and 23505 become the two constraint sentinels carrying the detail; any other error is returned unchanged |
| DbError.TranslationMatches | internal/error.go:38-54 | the translated error matches the sentinel of its cause, and a constraint violation is never reported as a missing row |
| DbError.TranslationIdempotent | internal/error.go:38-54 | translating an already translated error changes nothing |
| DbError.NoRowsTranslated | internal/error.go:39-41 | a missing row matches `ErrNoRows` and no other sentinel once translated |
| DbError.RenderErrorResponse | internal/error.go:56-60 | the body carries the message and no validations |
| ErrorHandler.ValidationErrorToText | internal/middleware/error_handler.go:63-77 | each validator tag has its own message, and an unknown tag reads "is not valid" |
| ErrorHandler.ValidationEntries | internal/middleware/error_handler.go:29-36 | there is one entry per field error, in order, each with its field, tag and message |
| ErrorHandler.HandleErrors | internal/middleware/error_handler.go:18-59 | every recorded error is answered, in the order recorded |
| ErrorHandler.Classify | internal/middleware/error_handler.go:23-57 | the status is one of 400, 401, 403, 404, 409, 500; it is logged at error level exactly when it is 500, with the generic body; a validation error answers 400 with one entry per field error; no other answer carries validations |
| ErrorHandler.FirstRule | internal/middleware/error_handler.go:38-53 | the rule chosen is one the error matches, and none is chosen exactly when the error matches no sentinel of the table |
| ErrorHandler.FirstRuleUnrolled | internal/middleware/error_handler.go:38-53 | the table is tried in the order of the switch cases |
| ErrorHandler.ClassifyFollowsRules | internal/middleware/error_handler.go:23-57 | the switch agrees on every error with an independent table: validation first, then the first matching sentinel rule, else 500 |
| ErrorHandler.ServerErrorIffUnmatched | internal/middleware/error_handler.go:54-56 | an error answers 500 exactly when it is no validation error and matches no sentinel; exactly those are logged at error level; the status is always one of 400, 401, 403, 404, 409, 500 |
| ErrorHandler.ValidationAnswers400 | internal/middleware/error_handler.go:25-37 | a validation error answers 400 with one entry per field error, in order |
| WriteError.FieldMap | internal/handler/utils.go:35-39 | the validations map has exactly the fields that failed as its keys |
| WriteError.FieldMapKeepsLast | internal/handler/utils.go:37-39 | a field maps to the text of the last field error that names it |
| WriteError.CodeStatus | internal/handler/utils.go:29-49 | the status is one of 400, 401, 404, 409, 500, and it is 500 exactly for the unknown code and codes outside the enumeration |
| WriteError.WriteErrorResponse | internal/handler/utils.go:23-53 | the body carries the caller's message; an error with no coded error inside answers 500; the status follows the code; a validations map is made only for invalid-argument codes and holds the failed fields |
| WriteError.StatusByCode | internal/handler/utils.go:29-49 | each of 404, 400, 409 and 401 is reached by exactly its code; every other outcome is 500 |
| WriteError.NotFoundAnswers404 | internal/handler/utils.go:30-31 | a not-found coded error answers 404 with the caller's message and no validations |
| Bearer.FieldsAreFields | internal/middleware/authentication.go:33 | every field `strings.Fields` returns is non-empty and contains no white space |
| Bearer.FieldsOfJoin | internal/middleware/authentication.go:33 | splitting fields joined by single spaces gives back the same fields |
| Bearer.Fields | internal/middleware/authentication.go:33 | there are no fields exactly when the header is all white space |
| Bearer.ToLower | internal/middleware/authentication.go:40 | every ASCII capital letter becomes its lower-case letter, and every other character is kept |
| Bearer.ParseBearer | internal/middleware/authentication.go:25-47 | an empty header is "not provided"; a token is returned exactly when the header has at least two fields and the first is "bearer" in any case; the token is the second field |
| Bearer.ParseBearerOfHeader | internal/handler/middleware.go:31-45 | `Bearer <token>`, with any letter case in the scheme and any further fields, yields the token |
| Permission.HasPermission | internal/handler/middleware.go:65-72 | permission is granted exactly when the role is in the list |
| Permission.CanOverridePermission | internal/middleware/authentication.go:61-75 | an admin always overrides; a banker overrides exactly when bankers are listed; no one else overrides |
| Permission.EmptyListDenies | internal/handler/middleware.go:65-72 | an empty list grants nothing, and only an admin overrides it |
| Permission.OverrideWithinGate | internal/middleware/authentication.go:61-75 | whoever may override is an admin or is listed, and for a banker overriding and being listed coincide |
| Permission.PoliciesMonotone | internal/handler/middleware.go:65-72 | listing more roles never takes a permission or an override away |
| Authentication.VerifiedPayload | internal/middleware/authentication.go:25-52 | a payload is obtained exactly when the header parses and the token verifies; the 401 message is the header error or the verification error's text |
| Authentication.Authentication | internal/middleware/authentication.go:23-59 | every abort is a 401 with no validations; a request passes exactly when its token verifies, whatever the role list; the override flag is `CanOverridePermission` of the payload's role |
| Authentication.AuthMiddleware | internal/handler/middleware.go:21-63 | aborts are 401 or 403; 403 exactly when the token verifies and the role is neither admin nor listed; an admin passes with override set; a listed role passes without it |
| Authentication.MiddlewaresAgreeOnIdentity | internal/middleware/authentication.go:25-52 | both middlewares reject exactly the same unauthenticated requests, with the same 401 message |
| Authentication.GateContainsRoleGate | internal/handler/middleware.go:52-58 | whatever the role-gating middleware admits, the other admits with the same payload; the override it sets implies the other's |
| Authentication.AuthenticationIgnoresRoles | internal/middleware/authentication.go:23-59 | the role list never changes whether `Authentication` admits a request |
| Authentication.BearerTokenAdmitted | internal/middleware/authentication.go:40-57 | a well-formed bearer header with a verifying token is admitted with that payload; under the role gate the outcome depends only on the role |
| AuthService.GetSession | internal/postgresql/session.go:33-40 | a stored row is returned; a missing row is a translated error that matches `ErrNoRows` and no other sentinel |
| AuthService.CreateSession | internal/postgresql/session.go:24-31 | a new id is inserted and nothing else changes; an existing id is a unique-constraint violation |
| AuthService.ViewOf | internal/service/auth.go:167-173 | the user view keeps the username, names, email and timestamps, and leaves out the password hash and role |
| AuthService.NewSession | internal/service/auth.go:148-156 | the session row carries the refresh payload's id and the request's user agent and client address; it admits the refresh token at exactly the times up to the payload's expiry, when the payload names the user |
| AuthService.Login | internal/service/auth.go:112-175 | an unknown user and a wrong password are both `ErrInvalidCredentials`; other lookup errors pass through; an unverified email is `ErrUnverifiedAccount`; it succeeds exactly when every step does, with the access token minted at the call's time and draw and the refresh token at the next draw, and then stores one session for the refresh token and returns both tokens; a failure stores nothing |
| AuthService.RenewAccessToken | internal/service/auth.go:186-233 | a token that does not verify is `ErrInvalidToken`; a missing session is a not-found error and not `ErrInvalidToken`; a blocked, foreign, mismatched or expired session is `ErrInvalidToken`; it succeeds exactly when the session admits the token at the call's time and minting at that time succeeds, and returns the new access token |
| AuthService.LoginThenRenew | internal/service/auth.go:139-233 | until the session expires, renewing with the refresh token of a successful login succeeds exactly when the maker mints an access token for that user and role at the renewal's time, and returns that token; otherwise it is the maker's error, wrapped |
| AuthService.RenewalsOnlyExpire | internal/service/auth.go:215-218 | a renewal that succeeds at some time has its session admitted at every earlier time, where it succeeds exactly when minting at that earlier time succeeds |
| AuthService.BlockedSessionRefused | internal/service/auth.go:200-203 | a blocked session never renews, whatever the token, time and draw |
| Binding.FieldFailure | internal/handler/transfer.go:57-62 | a field fails exactly when one of its rules breaks, and the error reports the first broken rule |
| Binding.Collect | internal/middleware/error_handler.go:22-36 | the reported field errors are exactly the failures, in field order |
| Binding.Validate | internal/handler/account.go:53-57 | binding succeeds with the value exactly when no field fails; otherwise the error carries every failed field |
| Binding.BindInt | internal/handler/account.go:106-109 | an absent or empty value reads as 0; anything else goes through `strconv.ParseInt` with the field's width |
| Binding.BindIntRoundTrip | internal/handler/account.go:75-77 | the decimal text of any `int64` binds back to the same number |
| Decimal.ParseInt | internal/rest/auth.go:48 | a parsed value is in range for the bit size; a failure is a `NumError` that names the input |
| Decimal.WrapInt32 | internal/handler/account.go:122 | `int32` arithmetic: the result is in range, congruent to the exact value modulo 2^32, and equal to it when it fits |
| Decimal.ItoaParseRoundTripBits | internal/rest/auth.go:79 | `ParseInt` reads back the decimal text of every value that fits the bit size |
| Decimal.ItoaParseRoundTrip | internal/rest/auth.go:48 | `ParseInt(Itoa(n), 10, 64)` returns `n` for every `int64` |
| Gin.BindFailure | internal/handler/account.go:55 | a binding failure matches `ErrInvalidParams` |
| Gin.BindFailureAnswer | internal/middleware/error_handler.go:23-57 | a validator failure answers 400 with its field errors; any other binding failure matches no case of the error handler and answers 500 |
| Gin.ChainOfBindFailure | internal/handler/account.go:55 | the wrapped binding failure is walked as wrapper, `ErrInvalidParams`, then the binder's own error |
| Gin.BindFailureShape | internal/handler/account.go:55 | the wrapped failure is a validation error exactly when the binder's error is one, and it matches no sentinel but `ErrInvalidParams` |
| Gin.NoRuleMatches | internal/middleware/error_handler.go:38-53 | an error that matches only `ErrInvalidParams` matches no case of the error handler |
| AccountHandler.BindCreate | internal/handler/account.go:48-50 | the currency is required and must be supported |
| AccountHandler.HandleCreateAccount | internal/handler/account.go:52-73 | the service is called only for a valid body, with the caller as owner and balance 0; its account or error is the answer |
| AccountHandler.BadCurrencyAnswers400 | internal/handler/account.go:48-57 | a missing or unsupported currency never reaches the service and answers 400 with a single entry for `Currency` |
| AccountHandler.DuplicateAccountAnswers400 | internal/handler/account.go:59-63 | a unique-constraint violation from the repository answers 400 "account already exists" at info level, never 409 |
| AccountHandler.BindId | internal/handler/account.go:75-77 | the id is a decimal `int64` of at least 1 |
| AccountHandler.HandleGetAccount | internal/handler/account.go:79-104 | the account is returned to its owner or to a caller who may override; anyone else gets `ErrNoRows`; lookup errors pass through |
| AccountHandler.NotOwnedAnswers404 | internal/handler/account.go:97-98 | the not-owned error answers 404 "Not Found" |
| AccountHandler.ForeignAccountLooksMissing | internal/handler/account.go:95-100 | without override, someone else's account answers 404 as a missing one would, never 403 |
| AccountHandler.HandleDeleteAccount | internal/handler/account.go:138-152 | 204 exactly when the id binds and the service deletes; a deleted account existed with balance 0 |
| AccountHandler.NonEmptyDeleteAnswers500 | internal/handler/account.go:145-149 | deleting an account that holds money records `ErrBalanceNotZero`, which no case of the error middleware matches, so it answers 500 |
| AccountHandler.BindPage | internal/handler/account.go:106-109 | a page is accepted exactly when `page_id` is an `int32` of at least 1 and `page_size` is from 5 to 10 |
| AccountHandler.PageValidation | internal/handler/account.go:106-109 | the validator accepts the page exactly when `page_id >= 1` and `5 <= page_size <= 10`, and then keeps both values |
| AccountHandler.BindPageOfText | internal/handler/account.go:106-109 | the decimal texts of any accepted `int32` page id and page size bind to that page |
| AccountHandler.ListOffsetAsWritten | internal/handler/account.go:122 | the offset computed in `int32` is always within `int32` range, and so it wraps |
| AccountHandler.OffsetOverflows | internal/handler/account.go:106-122 | page 300000000 of size 10 is accepted, yet its offset wraps to -1294967306 |
| AccountHandler.ListOffset | internal/handler/account.go:122 | the offset is never negative and counts the rows of all earlier pages |
| AccountHandler.PagesAreAdjacent | internal/handler/account.go:119-123 | page 1 starts at row 0, and each next page starts one page size later |
| AccountHandler.HandleListAccounts | internal/handler/account.go:111-132 | as written: the service is called only for a valid page, for the caller's own accounts, with the `int32` offset, which is in `int32` range and may be negative |
| AccountHandler.HandleListAccountsIntended | internal/handler/account.go:111-132 | as intended: the same handler with the exact offset, which is never negative |
| AccountHandler.ListAsWrittenAsksNegativeOffset | internal/handler/account.go:119-125 | page 300000000 of size 10 makes the handler as written ask the service for offset -1294967306 |
| AccountHandler.ListHandlersAgreeWithoutWrap | internal/handler/account.go:119-123 | while the offset fits `int32`, the two handlers behave identically |
| AccountService.Create | internal/service/account.go:32-42 | a unique-constraint violation becomes `ErrAccountAlreadyExists` and no longer matches the violation; other errors and successes pass through |
| AccountService.Delete | internal/service/account.go:52-61 | the repository's delete runs exactly when the account exists with balance 0; a lookup error passes through; a non-zero balance is `ErrBalanceNotZero` |
| AccountService.DeleteOnlyEmpty | internal/service/account.go:52-61 | a delete without error removed exactly the account asked for, which existed with balance 0; a delete that did not happen reports an error |
| AccountStore.Create | internal/postgresql/account.go:38-41 | a failing insert returns the driver's error and changes nothing; an account for an existing user is appended with balance 0 and the next id; an unknown user is a lib/pq foreign-key violation that adds no row but still uses up an id; the table invariant is kept |
| AccountStore.RefusedInsertUsesId | internal/postgresql/account.go:28-40 | after an insert refused for an unknown user, the next account gets the id after the one that insert used up |
| AccountStore.AppendKeepsValid | internal/postgresql/account.go:38-41 | appending a row with the next serial id and an `int64` balance keeps ids unique and ascending |
| AccountStore.Owned | internal/postgresql/account.go:44 | the selected rows are exactly the user's |
| AccountStore.GetAllByUserID | internal/postgresql/account.go:43-61 | a failing query returns the driver's error; a negative offset or limit is the driver's error; otherwise exactly the user's rows from `offset` on, `limit` of them or as many as remain, in table order |
| AccountStore.PagesConcatenate | internal/postgresql/account.go:44 | two consecutive pages together are the larger page |
| AccountStore.Find | internal/postgresql/account.go:65 | the row found has the id and the owner; none is found exactly when no row has both |
| AccountStore.AccountNotFound | internal/postgresql/account.go:67-68 | the not-found error is coded `ErrorCodeNotFound` and wraps the driver's no-rows error |
| AccountStore.NotFoundOr | internal/postgresql/account.go:66-70 | a scan error matching `sql.ErrNoRows` becomes a not-found coded error wrapping it; any other error is returned unchanged |
| AccountStore.ScanRow | internal/postgresql/account.go:65 | a failing statement returns its driver error; otherwise the matching row, or `sql.ErrNoRows` when there is none |
| AccountStore.GetByID | internal/postgresql/account.go:63-73 | the account is returned exactly when the query succeeds and the user owns a row with that id; a missing row is a not-found error; any other driver error passes through |
| AccountStore.Remove | internal/postgresql/account.go:86 | exactly the named row is removed, and row order is kept |
| AccountStore.DeleteByID | internal/postgresql/account.go:75-88 | a failing lookup returns its driver error; a missing row is the driver's no-rows error, unwrapped; a non-zero balance is `ErrZeroBalance`; a failing delete returns its driver error; otherwise only that row is removed and the invariant is kept |
| AccountStore.CreateThenGet | internal/postgresql/account.go:38-73 | a created account is then found under its owner with balance 0 |
| AccountStore.DeleteThenGet | internal/postgresql/account.go:63-88 | after a delete, looking the account up is a not-found error |
| AccountStore.Adjust | internal/postgresql/account.go:92 | only the named row changes, by exactly `delta` |
| AccountStore.AdjustInverse | internal/postgresql/account.go:92 | adding `delta` and then `-delta` gives back the same rows |
| AccountStore.FindAdjusted | internal/postgresql/account.go:92 | after an adjustment, the named row carries its old balance plus `delta` |
| AccountStore.UpdateBalanceByID | internal/postgresql/account.go:90-100 | a failing update returns its driver error; a missing row is a not-found error; a result outside `bigint` is an out-of-range error; otherwise the balance changes by `delta` and only the id and new balance come back |
| AccountStore.AdjustKeepsValid | internal/postgresql/account.go:90-100 | an adjustment that stays within `bigint` keeps the table invariant |
| AccountStore.UpdateInverse | internal/postgresql/account.go:90-100 | the opposite delta undoes an update and returns the old balance |
| AccountStore.UpdateChangesOnlyTarget | internal/postgresql/account.go:92 | an update leaves every other account as it was |
| UserHandler.BindLogin | internal/handler/user.go:102-105 | both the username and the password are required |
| UserHandler.HandleLogin | internal/handler/user.go:107-127 | the service gets the credentials with the request's user agent and client address; its response or error is the answer |
| UserHandler.MissingCredentialsAnswer400 | internal/handler/user.go:102-114 | a missing username or password never reaches the service and answers 400 with one entry per missing field |
| UserHandler.UndecodableLoginAnswers500 | internal/handler/user.go:108-114 | a body that fails to decode never reaches the service and answers 500 |
| UserHandler.BindUsername | internal/handler/user.go:187-189 | the path username is required and alphanumeric; an empty one fails the `required` rule |
| UserHandler.HandleUpdateUser | internal/handler/user.go:191-225 | a bad path or body is `ErrInvalidParams`; without override, another user's name is `ErrForbidden`; the service is called exactly when both bind and the caller may act; its user is answered without the hash |
| UserHandler.OverrideUpdatesAnyone | internal/handler/user.go:213 | with override, any well-formed update reaches the service, whoever's user it names |
| UserHandler.UpdateGateIgnoresRole | internal/handler/user.go:211-217 | without override, the outcome depends on the caller's username and not on the role |
| TransferHandler.BindTransfer | internal/handler/transfer.go:57-62 | both ids are at least 1, the amount is positive and the currency is supported |
| TransferHandler.HandleCreateTransfer | internal/handler/transfer.go:64-122 | the transfer runs exactly when the request binds, both accounts exist in its currency and the caller owns the source; it gets only the ids and amount; a bad request is `ErrInvalidParams` |
| TransferHandler.BindFailureIgnoresAccounts | internal/handler/transfer.go:65-69 | a request that does not bind is refused before any account is looked up |
| TransferHandler.RefusalOrder | internal/handler/transfer.go:71-107 | checks run in order: missing source, source currency, source owner, missing destination, destination currency; each refusal carries its sentinel |
| RegisterValidation.ValidateRegisterUserRequest | internal/types/users.go:16-26 | no error exactly when every field is non-empty; otherwise "<tag> is required" for the first empty field in declaration order |
| Jwt.ValidateJwt | internal/rest/auth.go:91-101 | a token is accepted exactly when it decodes, uses an HMAC method and its signature checks; any other method is refused |
| Jwt.Truncate | internal/rest/auth.go:41 | `int64(f)` truncates toward zero |
| Jwt.UnixSeconds | internal/rest/auth.go:80 | `Unix()` is the whole seconds of a time, rounded down |
| Jwt.CreateClaims | internal/rest/auth.go:78-81 | a created token carries exactly a string `userID` claim and a numeric `expiresAt` claim |
| Jwt.CreateJwt | internal/rest/auth.go:77-89 | signing fails exactly when the library's signing fails, with its error; with a library whose signed tokens decode back to their claims, the token validates with exactly the created claims, its `expiresAt` is the whole second the lifetime ends in, and the `userID` of an `int64` id parses back to it |
| Jwt.CreatedTokenRoundTrips | internal/rest/auth.go:77-89 | with such a library, a token `CreateJWT` returned decodes to exactly the created claims and its signature checks |
| Jwt.CreatedClaimsReadBack | internal/rest/auth.go:79-80 | the created `userID` claim parses back to the user id, and `expiresAt` truncates back to its whole second |
| RestAuth.JwtMiddleware | internal/rest/auth.go:15-75 | rejections are 401 or 403 with no body; a missing or non-string `userID` panics; 403 exactly when a valid, unexpired token names a different user than the path; the handler runs exactly when every check passes |
| RestAuth.CreatedTokenAdmitted | internal/rest/auth.go:15-81 | with a library whose signed tokens decode back to their claims, a token `CreateJWT` issued for an existing user admits that user's requests until its expiry second, and never panics |
| RestAuth.CreatedTokenExpires | internal/rest/auth.go:41-46 | the same token is refused with 401 once its expiry second has passed |
| RestAuth.OtherUsersPathForbidden | internal/rest/auth.go:55-63 | a valid token used on another user's path is refused with 403 |
| RestAuthLegacy.PermissionDenied | internal/rest/authMiddleware.go:82-86 | the rejection is 401 with the body "permission denied" |
| RestAuthLegacy.LegacyJwtMiddleware | internal/rest/authMiddleware.go:16-54 | every rejection is the same permission-denied 401; the same missing `userID` panic; the handler runs exactly when the token is valid, the id parses and the user exists |
| RestAuthLegacy.LaterMiddlewareIsStricter | internal/rest/authMiddleware.go:16-54 | whatever the later middleware serves, the earlier one serves; both panic on exactly the same tokens |
| RestAuthLegacy.LegacyTokenNeverExpires | internal/rest/authMiddleware.go:56-60 | with a library whose signed tokens decode back to their claims, a token the earlier `CreateJWT` issued for an existing user is admitted at any later time |
| Routes.DeleteRouteAsWritten | internal/handler/account.go:44-45 | the delete route as registered admits every request whose token verifies, whatever its role |
| Routes.DepositorReachesDelete | internal/handler/account.go:44-45 | a depositor with a valid token reaches the delete handler |
| Routes.DeleteRoute | internal/handler/account.go:44-45 | the delete route guarded as its comment intends: only admins and bankers reach the handler; other verified roles get 403 |
| Routes.DeleteRouteNarrows | internal/handler/account.go:44-45 | the guarded route admits a subset of the registered one, with identical handling |
| Routes.DepositorForbiddenFromDelete | internal/handler/account.go:44-45 | on the guarded route the same depositor is refused with 403 |

## Left out

- **I/O.** Logging, JSON encoding and decoding, HTTP plumbing and concurrency
  are not modelled. A request body that fails to decode is a `Result` error
  passed to the handler.
- **Collaborators as parameters.** The user repository, the mybank account
  repository, the token maker, `pkg.CheckPassword`, `pkg.IsSupportedCurrency`,
  the user update service and the JWT library are parameters, because their
  code is not part of this model. The same holds for the transfer
  transaction: `TransferTx` is not part of this model, so only the call
  `HandleCreateTransfer` makes is recorded. No entries, locks or balance rules
  are invented for it.
- **Roles.** The role strings of `pkg.AdminRole` and the other roles are not
  part of this model. Roles are the datatype `Role`, and any other string is
  `Custom`.
- **Invented sentinel texts.** `ErrUnverifiedAccount` and `ErrBalanceNotZero`
  are not defined in the modelled files, so their texts in `KindText` are
  invented. No property depends on them. `ErrZeroBalance` of the gobank
  store takes its text from the model package's error of the same name.
- **Invented driver messages.** The PostgreSQL messages are stand-ins that no
  property depends on: the duplicate-key message for sessions, and the
  messages of the foreign-key, offset, limit and out-of-range errors of the
  account table. Their SQLSTATE codes are the ones PostgreSQL reports.
- Bearer.ToLower: folds only ASCII letters. `strings.ToLower` folds all of
  Unicode. The scheme comparison with "bearer" is affected only for non-ASCII
  input.
- **Row order.** SQL row order without `ORDER BY` is unspecified. The account
  table returns rows in insertion order, that is, ascending id.
- Jwt.ValidateJwt: the library's own error wrapping is not modelled. Its
  decoding, signature check and claim validation are parameters, and a
  refusal carries only the innermost message.
- Jwt.Truncate: a `float64` outside the `int64` range converts to an
  implementation-defined value in Go, and that is not modelled. The claim is
  exact here, whereas a `float64` loses precision above 2^53, far beyond any
  Unix time in seconds.
- AccountStore.UpdateBalanceByID: `internal.USD` is treated as an `int64`
  count of cents. The floating-point `ToUSD`/`Multiply` conversions of the
  model package are left out.
- **Thin delegations.** `VerifyEmail`, `handleCreateUser`,
  `handleRenewAccessToken` and `handleVerifyEmail` only delegate to
  collaborators, as do the account service's `Get` and `List`. They are not
  modelled separately; the handlers call the repository directly.
- **Randomness and the clock.** `uuid.NewRandom` in the token maker is a draw
  number passed to the maker. A login uses the call's draw for the access
  token and the next one for the refresh token. Each service call reads one
  clock value, where the source reads `time.Now()` once per token and once
  for the expiry check.
- AccountStore.GetAllByUserID: an error from `rows.Scan` and one from the query
  are the same failure of the select statement. The model's rows always scan.
- **Driver error text.** The mybank store reports a `*pgconn.PgError`, which
  reads "ERROR: message (SQLSTATE code)", and the severity is always `ERROR`.
  The gobank account table runs on lib/pq and reports a `*pq.Error`, which
  reads "pq: message". `errors.As` for `*pgconn.PgError` never finds the
  latter.
- AccountStore.Create: a driver failure of the insert itself, such as a lost
  connection, leaves the table and its sequence unchanged. A statement that
  fails at the server after the id default was evaluated would use up an id.
- **Application startup.** Route registration other than the delete route,
  server startup and configuration are left out.

## Findings

| source | as written | input that shows it | evidently intended | confidence | as-written member | corrected member |
|---|---|---|---|---|---|---|
| internal/handler/account.go:122 | the list offset `(PageID - 1) * PageSize` is computed in `int32` and wraps around | `page_id=300000000&page_size=10` passes binding (`min=1`), and the offset becomes -1294967306 | the offset counts the rows of the earlier pages and is never negative | high; not executed | AccountHandler.HandleListAccounts, through AccountHandler.ListOffsetAsWritten (shown by AccountHandler.OffsetOverflows and AccountHandler.ListAsWrittenAsksNegativeOffset) | AccountHandler.HandleListAccountsIntended, through AccountHandler.ListOffset (AccountHandler.PagesAreAdjacent) |
| internal/handler/account.go:44-45 | the delete route uses `middleware.Authentication`, which never turns a role away, although its comment says it is for bank workers and admins only | a depositor's valid bearer token on `DELETE /api/v1/accounts/:id` reaches the handler | only admins and bankers reach the handler; other roles get 403, as `authMiddleware` would answer | medium; not executed | Routes.DeleteRouteAsWritten (shown by Routes.DepositorReachesDelete) | Routes.DeleteRoute (Routes.DepositorForbiddenFromDelete, Routes.DeleteRouteNarrows) |
