/** The application error taxonomy: the `AppError` record, its three constructors and
    its rendering as text. */
module AppErrors {
  import opened Wrappers
  import opened GoStrings

  /** A Go `error` value as the persistence layer sees it: the query layer's
      `sql.ErrNoRows` sentinel, which is recognised by identity, or any other error,
      of which only its text matters. `DriverError("sql: no rows in result set")` is
      NOT the sentinel even though it prints the same. */
  datatype GoError = ErrNoRows | DriverError(text: string)

  /** The text `sql.ErrNoRows.Error()` prints. */
  const ErrNoRowsText := "sql: no rows in result set"

  /** `err.Error()` */
  function ErrorText(e: GoError): string {
    match e
    case ErrNoRows => ErrNoRowsText
    case DriverError(text) => text
  }

  datatype ErrorType = DatabaseError | InternalError | NotFoundError

  /** The wire name of each error type. */
  function TypeName(t: ErrorType): (name: string)
    ensures |name| > 0
  {
    match t
    case DatabaseError => "DATABASE_ERROR"
    case InternalError => "INTERNAL_ERROR"
    case NotFoundError => "NOT_FOUND"
  }

  /** Distinct types have distinct wire names. */
  lemma TypeNameInjective(t: ErrorType, u: ErrorType)
    requires TypeName(t) == TypeName(u)
    ensures t == u
  {
  }

  const StatusNotFound := 404
  const StatusInternalServerError := 500

  /** The HTTP status each error type is created with. */
  function StatusOf(t: ErrorType): int {
    match t
    case NotFoundError => StatusNotFound
    case DatabaseError => StatusInternalServerError
    case InternalError => StatusInternalServerError
  }

  /** `AppError`: `err` is the wrapped cause (`Err`), never serialised. */
  datatype AppError = AppError(
    kind: ErrorType,
    message: string,
    code: string,
    details: string,
    statusCode: int,
    err: Option<GoError>)

  /** An error as one of the constructors below leaves it: status matching its type,
      `Code` and `Details` empty. */
  predicate Constructed(e: AppError) {
    e.statusCode == StatusOf(e.kind) && e.code == "" && e.details == ""
  }

  function NewDatabaseError(message: string, err: Option<GoError>): (e: AppError)
    ensures Constructed(e) && e.kind == DatabaseError
    ensures e.statusCode == StatusInternalServerError
    ensures e.message == message && e.err == err
  {
    AppError(DatabaseError, message, "", "", StatusInternalServerError, err)
  }

  function NewNotFoundError(message: string, err: Option<GoError>): (e: AppError)
    ensures Constructed(e) && e.kind == NotFoundError
    ensures e.statusCode == StatusNotFound
    ensures e.message == message && e.err == err
  {
    AppError(NotFoundError, message, "", "", StatusNotFound, err)
  }

  function NewInternalError(message: string, err: Option<GoError>): (e: AppError)
    ensures Constructed(e) && e.kind == InternalError
    ensures e.statusCode == StatusInternalServerError
    ensures e.message == message && e.err == err
  {
    AppError(InternalError, message, "", "", StatusInternalServerError, err)
  }

  /** A constructed error is a server error (status 500 or more) exactly when it is a
      database or an internal error. */
  lemma ServerErrorIffNotNotFound(e: AppError)
    requires Constructed(e)
    ensures e.statusCode >= 500 <==> e.kind in {DatabaseError, InternalError}
  {
  }

  /** `(*AppError).Error()`: the message, followed by ", " and the cause's text when
      there is a cause. The message is always a prefix; the result is the bare
      message exactly when there is no cause, and the cause's text is recovered by
      trimming the message and the separator. */
  function ErrorMessage(e: AppError): (s: string)
    ensures HasPrefix(s, e.message)
    ensures s == e.message <==> e.err.None?
    ensures e.err.Some? ==> TrimPrefix(s, e.message + ", ") == ErrorText(e.err.value)
  {
    match e.err
    case None => e.message
    case Some(cause) =>
      var s := e.message + ", " + ErrorText(cause);
      assert s[..|e.message|] == e.message;
      assert s[..|e.message + ", "|] == e.message + ", ";
      s
  }
}
