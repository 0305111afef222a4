/** The error values the package produces or passes through, and `NotFoundError` (errors.go). */
module Errors {

  import opened Wrappers

  /** The JSON value kinds `encoding/json` names in an `UnmarshalTypeError`. */
  datatype JsonKind = JsonBool | JsonNumber | JsonString | JsonObject | JsonArray

  /** The failures of `encoding/json` that the model distinguishes. */
  datatype JsonError =
    | SyntaxError                         // `*json.SyntaxError`: the payload is not JSON at all
    | UnmarshalTypeError(kind: JsonKind)  // well-formed JSON of a kind the target cannot hold
    | UnsupportedValue                    // `json.Marshal` cannot encode the value

  /** Go `error` values. Errors raised by code outside the package are opaque and
      told apart only by an identity. */
  datatype Error =
    | ErrNoRows                             // the `sql.ErrNoRows` sentinel
    | NotFoundError(dataSource: string)     // `*NotFoundError`
    | DriverError(id: nat)                  // any error raised by the database driver
    | JsonFailure(json: JsonError)          // an error raised by `encoding/json`
    | Wrapped(context: string, cause: Error) // `fmt.Errorf(context + ": %w", cause)`

  /** The context `UnmarshalJSON` wraps a decode error in (null.go:103). */
  const UnmarshalContext: string := "null: couldn't unmarshal JSON"

  /** `errors.Unwrap`: the cause of a wrapped error. */
  function Unwrap(e: Error): Option<Error> {
    if e.Wrapped? then Some(e.cause) else None
  }

  /** `errors.As(e, &syntaxError)`: the error or one of its causes is a JSON syntax error. */
  predicate IsSyntaxError(e: Error) {
    match e
    case JsonFailure(j) => j == SyntaxError
    case Wrapped(_, cause) => IsSyntaxError(cause)
    case _ => false
  }

  const NotFoundPrefix: string := "no data found"
  const NotFoundInfix: string := " in "

  /** `NotFoundError.Error`: the message names the data source when one is known. */
  function NotFoundMessage(dataSource: string): (msg: string)
    ensures NotFoundPrefix <= msg
    ensures dataSource == "" ==> msg == NotFoundPrefix
    ensures dataSource != "" ==> msg == NotFoundPrefix + NotFoundInfix + dataSource
  {
    if dataSource != "" then NotFoundPrefix + NotFoundInfix + dataSource else NotFoundPrefix
  }

  /** Reads the data source back out of a not-found message; the inverse of `NotFoundMessage`. */
  function DataSourceOfMessage(msg: string): (d: Option<string>)
    ensures d.Some? ==> NotFoundPrefix <= msg
  {
    var head := NotFoundPrefix + NotFoundInfix;
    if msg == NotFoundPrefix then Some("")
    else if head <= msg && |msg| > |head| then Some(msg[|head|..])
    else None
  }

  /** Every message can be read back, so the data source is never lost in the message. */
  lemma NotFoundMessageRoundTrip(dataSource: string)
    ensures DataSourceOfMessage(NotFoundMessage(dataSource)) == Some(dataSource)
  {
  }

  /** Distinct data sources give distinct messages (an empty one included). */
  lemma NotFoundMessageInjective(d1: string, d2: string)
    ensures NotFoundMessage(d1) == NotFoundMessage(d2) ==> d1 == d2
  {
    NotFoundMessageRoundTrip(d1);
    NotFoundMessageRoundTrip(d2);
  }
}
