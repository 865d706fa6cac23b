/** Translation of store errors into the application's sentinels, and the error response body. */
module DbError {
  import opened Wrappers
  import opened Errors

  /** One entry of the `validations` array of an error response. */
  datatype ValidationError = ValidationError(field: string, tag: string, message: string)

  /** The JSON error body `{"error": ..., "validations": [...]}`; an empty array is omitted. */
  datatype ErrorResponse = ErrorResponse(error: string, validations: seq<ValidationError>)

  const ForeignKeyViolationCode: string := "23503"
  const UniqueViolationCode: string := "23505"

  /** `DBErrorToInternal`: no-rows and the two constraint violations become sentinels; the rest passes. */
  function DBErrorToInternal(e: Err): (r: Err)
    ensures IsPgxNoRows(e) ==> r == WrapDetail(NoRows, ErrorText(e))
    ensures !IsPgxNoRows(e) && AsPg(e).Some? && AsPg(e).value.sqlState == ForeignKeyViolationCode ==>
      r == WrapDetail(ForeignKeyConstraintViolation, AsPg(e).value.detail)
    ensures !IsPgxNoRows(e) && AsPg(e).Some? && AsPg(e).value.sqlState == UniqueViolationCode ==>
      r == WrapDetail(UniqueConstraintViolation, AsPg(e).value.detail)
    ensures !IsPgxNoRows(e) && (AsPg(e).None? || AsPg(e).value.sqlState !in {ForeignKeyViolationCode, UniqueViolationCode}) ==>
      r == e
  {
    if IsPgxNoRows(e) then WrapDetail(NoRows, ErrorText(e))
    else
      match AsPg(e)
      case Some(pg) =>
        if pg.sqlState == ForeignKeyViolationCode then WrapDetail(ForeignKeyConstraintViolation, pg.detail)
        else if pg.sqlState == UniqueViolationCode then WrapDetail(UniqueConstraintViolation, pg.detail)
        else e
      case None => e
  }

  /** The translated error matches the sentinel of its cause: no rows, or either constraint violation. */
  lemma {:induction false} TranslationMatches(e: Err)
    ensures IsPgxNoRows(e) ==> Is(DBErrorToInternal(e), NoRows)
    ensures !IsPgxNoRows(e) && AsPg(e).Some? && AsPg(e).value.sqlState == ForeignKeyViolationCode ==>
      Is(DBErrorToInternal(e), ForeignKeyConstraintViolation) && !Is(DBErrorToInternal(e), NoRows)
    ensures !IsPgxNoRows(e) && AsPg(e).Some? && AsPg(e).value.sqlState == UniqueViolationCode ==>
      Is(DBErrorToInternal(e), UniqueConstraintViolation) && !Is(DBErrorToInternal(e), NoRows)
  {
    if IsPgxNoRows(e) {
      WrapDetailIs(NoRows, ErrorText(e), NoRows);
    } else if AsPg(e).Some? {
      var pg := AsPg(e).value;
      WrapDetailIs(ForeignKeyConstraintViolation, pg.detail, ForeignKeyConstraintViolation);
      WrapDetailIs(ForeignKeyConstraintViolation, pg.detail, NoRows);
      WrapDetailIs(UniqueConstraintViolation, pg.detail, UniqueConstraintViolation);
      WrapDetailIs(UniqueConstraintViolation, pg.detail, NoRows);
    }
  }

  /** Translating twice is translating once: a translated error is never translated again. */
  lemma {:induction false} TranslationIdempotent(e: Err)
    ensures DBErrorToInternal(DBErrorToInternal(e)) == DBErrorToInternal(e)
  {
    var r := DBErrorToInternal(e);
    if IsPgxNoRows(e) {
      WrapDetailIs(NoRows, ErrorText(e), NoRows);
    } else if AsPg(e).Some? {
      var pg := AsPg(e).value;
      WrapDetailIs(ForeignKeyConstraintViolation, pg.detail, NoRows);
      WrapDetailIs(UniqueConstraintViolation, pg.detail, NoRows);
    }
  }

  /** The translation of a store that found no rows matches `ErrNoRows` and no other sentinel. */
  lemma NoRowsTranslated()
    ensures Is(DBErrorToInternal(PgxNoRows), NoRows)
    ensures forall k :: Is(DBErrorToInternal(PgxNoRows), k) <==> k == NoRows
  {
    assert IsPgxNoRows(PgxNoRows);
    forall k ensures Is(DBErrorToInternal(PgxNoRows), k) <==> k == NoRows {
      WrapDetailIs(NoRows, ErrorText(PgxNoRows), k);
    }
  }

  /** `RenderErrorResponse`: the message and no validations. */
  function RenderErrorResponse(msg: string): (r: ErrorResponse)
    ensures r.error == msg && |r.validations| == 0
  {
    ErrorResponse(msg, [])
  }
}
