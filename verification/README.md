# dbq core, modelled in Dafny

This project models the core of the Go package `dbq`, a thin data-access layer over `database/sql`:

- the generic nullable wrapper `Null[T]`, with its two codec paths: the driver path (`Scan`/`Value`) and the JSON path (`UnmarshalJSON`/`MarshalJSON`);
- the transaction provider: `AcquireWithOpts`/`Acquire`, and `TxWithOpts`/`Tx`, which run a unit of work and then commit or roll back;
- the context lookup `FromCtxOr`;
- the generic row helpers `Query`, `QueryRow` and `Exec`;
- `NotFoundError.Error`.

Everything is pure: datatypes and functions, plus three methods, one of them (`Query`) with a loop.
The database driver and the other foreign code are parameters:

- `convertAssign` is a conversion function `convert`.
- `encoding/json` for a type `T` is a `Codec<T>` holding `encode` and `decode`.
- `BeginTx` is the provider's connector function.
- What the unit of work, `Commit`, `Rollback`, `rows.Scan`, `ExecContext` and `LastInsertId` do is passed in as their outcomes.

Go's zero value `var zero T` is passed as an explicit `zero` argument.

Files and modules:

| file | module | models |
|---|---|---|
| wrappers.dfy | `Wrappers` | `Option`, `Result` |
| primitives.dfy | `Primitives` | `byte`, `int64`, ASCII byte strings, the JSON literals |
| errors.dfy | `Errors` | Go error values; `NotFoundError.Error` (errors.go) |
| nulls.dfy | `Nulls` | `Null[T]` and all of its methods (null.go) |
| json_int.dfy | `JsonInt` | `encoding/json` for Go's `int`, taken as 64 bits, the codec `Null[int]` uses |
| null_int_examples.dfy | `NullIntExamples` | the JSON cases the package's tests exercise, derived from the model |
| contexts.dfy | `Contexts` | `context.WithValue`/`Value` chains; `FromCtxOr` (tx.go) |
| transactions.dfy | `Transactions` | `TxProvider` (tx.go) |
| queries.dfy | `Queries` | `Query`, `QueryRow`, `Exec` (query.go) |

Behaviour of the code worth knowing:

- A failed commit or rollback is not returned to the caller (tx.go:91). The result of `TxWithOpts` is unnamed, so the deferred `err = tx.Commit()` only changes a local variable. See Findings.
- A panic inside the unit of work is recovered (tx.go:92, tx.go:101-103). `err = fn(tx)` never completes, so `err` is still the nil left by the acquire. The transaction is therefore **committed**, not rolled back, and the caller gets nil.
- When `UnmarshalJSON` fails to decode (null.go:97-104), it leaves `Valid` as it was. It does not force it to false. Exactly `null` clears `Valid` but keeps the stale `Val`.
- The constructor is `NewNull` (null.go:34-35), though its doc comment calls it `New`.

## Model

| member | source | states |
|---|---|---|
| Errors.NotFoundMessage | errors.go:9-14 | every message starts with "no data found"; an empty data source gives exactly that; a non-empty one `d` gives "no data found in " + `d` |
| Errors.NotFoundMessageRoundTrip | errors.go:9-14 | the data source can be read back out of every message, the empty one included |
| Errors.NotFoundMessageInjective | errors.go:10-13 | distinct data sources give distinct messages |
| Nulls.NewNull | null.go:35-40 | the value and the flag are stored verbatim |
| Nulls.FromValue | null.go:73-75 | the result is always valid and holds the value, a zero value included, so it is never `IsZero` |
| Nulls.FromPtr | null.go:78-84 | valid exactly when the pointer is non-nil; then it holds the target, otherwise the zero of `T` |
| Nulls.ValueOrZero | null.go:87-93 | the held value when valid; the zero of `T` when invalid, whatever stale value is held |
| Nulls.SetValid | null.go:119-122 | the result is valid with the new value and equals `FromValue(v)`, whatever the receiver held |
| Nulls.Ptr | null.go:125-130 | nil exactly when invalid; otherwise it points to a copy of the value |
| Nulls.IsZero | null.go:133-135 | holds exactly when `Ptr` gives nil; a value that is not `IsZero` is exactly a valid one holding its value, a zero value included |
| Nulls.Equal | null.go:138-140 | holds exactly when `Ptr` shows the same for both, nil for both or equal targets; `Equal` values agree on `IsZero`, and a valid value is `Equal` only to itself |
| Nulls.Scan | null.go:43-62 | nil gives invalid with the zero value and no error; a value of type `T` is stored as valid; any other value is converted, and the result is valid exactly when no error is returned; a failed conversion leaves the zero value and returns the conversion's error |
| Nulls.Value | null.go:65-70 | the nil sentinel exactly when invalid; otherwise the value itself |
| Nulls.UnmarshalJSON | null.go:96-108 | exactly `null` clears the flag, keeps the stale value and succeeds; a decoded value is stored as valid; a decode error is returned wrapped, with its cause recoverable, and the receiver is left entirely unchanged |
| Nulls.MarshalJSON | null.go:111-116 | `null` for an invalid value whatever it holds; otherwise the inner encoding of the value, or the inner encoder's error |
| Nulls.EqualIsEquivalence | null.go:138-140 | `Equal` is reflexive, symmetric and transitive |
| Nulls.EqualIgnoresStaleValue | null.go:138-140 | two invalid values are `Equal` whatever they hold; an invalid value never equals a valid one; two valid ones are `Equal` exactly when their values are |
| Nulls.EqualIsObservational | null.go:125-140 | two values are `Equal` exactly when `Ptr` shows the same, and exactly when `Value` shows the same; `IsZero`, `ValueOrZero` and `MarshalJSON` cannot tell `Equal` values apart |
| Nulls.PtrRoundTrip | null.go:78-84 | `FromPtr(Ptr(n))` is `Equal` to `n`; `Ptr(FromPtr(p))` is nil exactly when `p` is nil, and otherwise points to a value equal to `*p` |
| Nulls.IsZeroIsAbsence | null.go:133-135 | `IsZero` holds exactly for values `Equal` to a null; a valid zero value is not `IsZero` |
| Nulls.SetValidForgetsPrevious | null.go:119-122 | the result of `SetValid` does not depend on the previous state |
| Nulls.ScanValueRoundTrip | null.go:43-70 | scanning what `Value` produced succeeds and gives back an `Equal` value, exactly the same one when valid, whatever the receiver held |
| Nulls.ScanValidIffNoError | null.go:53-61 | for every non-nil driver value the result is valid exactly when `Scan` returns no error; the previous state never matters |
| Nulls.JsonRoundTrip | null.go:96-116 | given a codec that round-trips the held value, and never writes it as `null`, decoding the encoding of any `Null[T]` succeeds and gives back an `Equal` value |
| Nulls.UnmarshalErrorKeepsKind | null.go:102-104 | on a decode error, `errors.As` finds a JSON syntax error through the returned error exactly when the inner decoder reported a syntax error, and `errors.Unwrap` yields the decoder's own error |
| Nulls.UnmarshalErrorKeepsValid | null.go:102-104 | on a decode error the validity flag keeps its previous value: a valid receiver stays valid |
| JsonInt.DecodeInt64Literal | null.go:102 | a bare integer literal within the range of `int64` is stored in an `int` target |
| JsonInt.DecodeFormatInt | null.go:102 | the decimal encoding of every `int` decodes back to it, whatever the target held |
| JsonInt.DecodeOutOfRange | null_test.go:101-115 | an integer literal outside the range of `int64` is a type error, not a syntax error |
| JsonInt.DecodeBadStart | null_test.go:84-90 | a payload whose first significant byte cannot start a JSON value is a syntax error |
| JsonInt.IntCodecRoundTrips | null.go:102-115 | the `int` codec encodes every value to something other than `null` that decodes back to it |
| JsonInt.NullIntJsonRoundTrip | null.go:96-116 | for `Null[int]`, decoding the JSON encoding of any value, valid or null, gives back an `Equal` value without error |
| NullIntExamples.MarshalExamples | null_test.go:117-128 | a valid 12345 encodes as `12345`; an invalid value holding 12345 encodes as `null` |
| NullIntExamples.UnmarshalAccepted | null_test.go:49-75 | `12345` decodes to a valid 12345; `null` gives an invalid value and no error |
| NullIntExamples.UnmarshalRejected | null_test.go:77-99 | `1.2345` and `true` are rejected, and the value stays invalid |
| NullIntExamples.UnmarshalWrongKind | null_test.go:60-70 | an empty string and an object are type errors for `Null[int]`, given that the JSON scanner accepts them, as the tests expect; a quoted number is a type error too, which follows from `encoding/json` and is not among the tests |
| NullIntExamples.UnmarshalSyntaxError | null_test.go:84-90 | `:)` is rejected with a wrapped syntax error, and the value stays invalid |
| NullIntExamples.UnmarshalInt64Boundary | null_test.go:101-115 | the largest `int64` decodes; the next integer is rejected as a type error |
| Contexts.FromCtxOr | tx.go:128-134 | the executor bound under the private key if there is one; the fallback unchanged when the key is unbound or bound to something that is not an executor |
| Contexts.LookupIsLatestBinding | tx.go:128-134 | a context lookup finds a value exactly when the latest binding of that key binds it |
| Contexts.LookupNone | tx.go:128-134 | a context lookup finds nothing exactly when no binding has that key |
| Contexts.WithValueKeepsOtherKeys | tx.go:79-82 | binding one key makes it read as the new value and leaves every other key reading as before |
| Contexts.FromCtxOrFallback | tx.go:128-134 | with no transaction in the context, `FromCtxOr` returns the fallback |
| Transactions.AcquireWithOpts | tx.go:73-83 | a begin failure is returned verbatim; otherwise the handle holds the begun transaction, its context binds that transaction under the private key, and every other context key reads as before |
| Transactions.Acquire | tx.go:86-88 | acquires with isolation `LevelDefault`, read-write |
| Transactions.TxWithOpts | tx.go:91-115 | if begin fails, its error is returned and neither `fn`, `Commit` nor `Rollback` is called; otherwise `fn` runs, then exactly one of `Commit`/`Rollback` is called; `Commit` follows when `fn` returns nil or panics, and the caller gets nil; `Rollback` follows a returned error, and the caller gets that error; the deferred closure's error is the outcome of the finalizer called, and there is none when begin failed |
| Transactions.Tx | tx.go:117-119 | runs like `TxWithOpts` with isolation `LevelDefault`, read-write |
| Transactions.ReturnedIgnoresFinalizers | tx.go:91-115 | what the caller receives, and the calls made, never depend on what `Commit` or `Rollback` return |
| Transactions.CommitFailureIsLost | tx.go:97-114 | when `fn` returns nil and `Commit` fails, the commit is attempted and its error reaches the deferred closure, but the caller receives nil |
| Transactions.UnitOfWorkSeesItsTransaction | tx.go:79-82 | on the acquired context, `FromCtxOr` yields the begun transaction rather than the fallback, and the data source of the caller's context is still visible |
| Transactions.TxWithOptsChecked | tx.go:97-105 | makes the same calls as `TxWithOpts`, but reports a failed commit or rollback; it returns nil exactly when the transaction began and was committed successfully; the deferred closure's error is the same as in `TxWithOpts`; a begin error is returned unchanged; a failed commit or rollback returns exactly that finalizer's error; after a successful finalize, the error `TxWithOpts` returns is kept, so `fn`'s error survives a successful rollback |
| Queries.Query | query.go:7-26 | a failure to open the cursor returns no rows and that error, and the binder is never called; otherwise the binder and then the scan are called for each row in order; the first scan error returns no rows and that error, and no later row is visited; when every row scans, one result per row is returned, in row order, with no error |
| Queries.QueryHidesIterationError | query.go:16-25 | for any cursor whose rows all scan but whose iteration stopped on a driver error, the result is reported successful, with exactly the rows read, in order |
| Queries.QueryChecked | query.go:16-25 | with the `rows.Err()` check added, the error is nil exactly when the cursor opened, every row scanned and the iteration ended normally; it visits the rows exactly as `Query` does; a nil error comes with every row's value in order; otherwise the error is the open error, the first scan error, or `rows.Err()`, in that order of precedence |
| Queries.QueryRow | query.go:28-39 | only the scan is called, never the binder; a scanned row is returned with no error; no row gives a `NotFoundError` carrying the context's data source; any other error is returned unchanged; every error comes with the zero `T` |
| Queries.Exec | query.go:41-53 | returns the last insert id with no error exactly when both execution and `LastInsertId` succeed; otherwise zero and the first error met |
| Queries.QueryRowNotFoundMessage | query.go:31-34 | a missing row gives a not-found error, and the context's data source can be read back out of its message |
| Queries.QueryRowInsideTransaction | query.go:33 | inside a transaction's context, a missing row still yields a `NotFoundError` with the caller's data source |

## Left out

- The driver (`database/sql` and below) is not modelled. That covers `BeginTx`, `Commit`, `Rollback`, `ExecContext`, `QueryContext`, `QueryRowContext`, `rows.Next`/`rows.Scan` and `LastInsertId`. Each is foreign I/O, so the model takes its outcome as input.
- The one-line `Tx` forwarding methods (tx.go:32-54) are not modelled. They only pass calls through to the driver, so there is nothing to state about them.
- `NewTxProvider` (tx.go:66-70) is not modelled. It is a constructor; the model's `TxProvider` holds the connector directly.
- The `log.Printf` calls (tx.go:99, tx.go:108) are not modelled, because they are I/O.
- The deadline diagnostic (tx.go:107-109) is not modelled. It only logs, and depends on timing.
- Context cancellation and deadlines are not modelled. They are concurrency and timing concerns.
- The deferred `rows.Close()` (query.go:12) is not modelled. Its error is discarded and it changes nothing the caller sees.
- The `Number`/`Type` constraints (null.go:19-26) are not modelled: `T` is any type. The constraint only restricts which instantiations compile.
- `encoding/json` is instantiated only for Go's `int`, as 64 bits. Encoding of floats, strings, booleans and `time.Time` is left out. Floating-point formatting is out of scope.
- Whether a payload that starts with a quote, brace or bracket is well-formed JSON is left to the `wellFormed` parameter, which stands for `encoding/json`'s scanner.
- `convertAssign` (null.go:59) is not part of this model. It is the parameter `convert`.
- Nulls.Scan: a failed conversion is assumed to store nothing, so `Val` keeps the zero that the failed type assertion at null.go:53 left. A conversion that partly writes its destination is not modelled.
- Nulls.UnmarshalJSON: a failed `json.Unmarshal` is assumed to leave `Val` untouched, as it does for scalar targets. Partial writes into composite targets are not modelled.
- Nulls.Ptr, Nulls.FromPtr, Nulls.PtrRoundTrip: a Go pointer is modelled by its target, with no identity and no aliasing. In Go, `Ptr` returns the address of a copy (null.go:129), which never equals a non-nil argument pointer; the model only says that it points to an equal value.
- Nulls.Equal: Go's `==` on `T` (null.go:139) is taken to be an equivalence. For `float64`, which the constraint allows (null.go:20), NaN != NaN. So a valid NaN is not `Equal` to itself in Go, and `EqualIsEquivalence` and `ScanValueRoundTrip` fail for it.
- Transactions.Acquire, Transactions.Tx: `DefaultTxOpts` (tx.go:12-17) is an exported package variable, and a pointer to it is passed to the driver (tx.go:87, tx.go:118). The model makes it a constant. So "isolation `LevelDefault`, read-write" holds only while no client reassigns the variable.
- Queries.QueryRow: every error comes with the zero `T`. A `T` implementing `sql.Scanner` could be partly written by a failed scan; that is not modelled.
- Queries.QueryRow: a missing data source in the context makes the type assertion at query.go:33 panic. The model states this as a precondition on the no-row case instead of modelling the panic.

## Findings

| source | as written | input that shows it | evidently intended | confidence | as-written member | corrected member |
|---|---|---|---|---|---|---|
| tx.go:91-105 | The result of `TxWithOpts` is unnamed. The deferred `err = tx.Commit()` / `err = tx.Rollback()` only assigns a local variable, so a finalize failure is dropped. | `fn` returns nil and `Commit` returns an error. `TxWithOpts` returns nil, so the caller believes the work was committed. | A failed commit or rollback reaches the caller, and `fn`'s error is kept when the rollback succeeds. This needs a named result, `(err error)`, and a deferred closure that assigns a `Commit`/`Rollback` error only when it is non-nil. `TxWithOptsChecked` does exactly this. | high; not executed | Transactions.CommitFailureIsLost | Transactions.TxWithOptsChecked |
| query.go:16-25 | The loop over `rows.Next()` ends without checking `rows.Err()`. | The cursor yields its rows, all of which scan, then stops because of a driver error. `Query` returns those rows and a nil error. | After the loop, return `rows.Err()` when it is non-nil, as `database/sql` requires. | medium; not executed | Queries.QueryHidesIterationError | Queries.QueryChecked |
