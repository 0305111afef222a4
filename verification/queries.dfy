/** The generic row helpers `Query`, `QueryRow` and `Exec` (query.go).

    The executor is abstract: what `ctx.Query` opens is a cursor given as the sequence of
    per-row scan outcomes `rows.Next`/`rows.Scan` produce, followed by the error (if any)
    that ended the iteration early; `ctx.QueryRow(...).Scan` and `ctx.Exec` are given as
    their outcomes. The caller's `binder` is observed through the calls made. */
module Queries {

  import opened Wrappers
  import opened Primitives
  import opened Errors
  import opened Contexts

  /** The outcome of scanning one row into a `T`. */
  datatype ScanOutcome<T> = Scanned(v: T) | ScanFailed(err: Error)

  /** A `*sql.Rows`: the rows it yields, and the error `rows.Err()` reports when the
      iteration stopped early. */
  datatype Cursor<T> = Cursor(rows: seq<ScanOutcome<T>>, iterErr: Option<Error>)

  /** The per-row calls: `binder(&result)` and `rows.Scan(cols...)` for the row at an index. */
  datatype RowCall = Bind(row: nat) | ScanRow(row: nat)

  /** What `Exec` returns: Go's `(int64, error)` pair. */
  datatype ExecResult = ExecResult(lastInsertId: Int64, err: Option<Error>)

  /** The calls made for the first `n` rows: each row bound and then scanned. */
  function Visits(n: nat): (r: seq<RowCall>)
    ensures |r| == 2 * n
    ensures forall i :: 0 <= i < n ==> r[2 * i] == Bind(i) && r[2 * i + 1] == ScanRow(i)
  {
    if n == 0 then [] else Visits(n - 1) + [Bind(n - 1), ScanRow(n - 1)]
  }

  /** The index of the first row that fails to scan, if any. */
  function FirstFailure<T>(rows: seq<ScanOutcome<T>>): (r: Option<nat>)
    ensures r.None? <==> forall i :: 0 <= i < |rows| ==> rows[i].Scanned?
    ensures r.Some? ==> r.value < |rows| && rows[r.value].ScanFailed?
    ensures r.Some? ==> forall i :: 0 <= i < r.value ==> rows[i].Scanned?
  {
    if |rows| == 0 then None
    else if rows[0].ScanFailed? then Some(0)
    else match FirstFailure(rows[1..])
      case None => None
      case Some(k) => Some(k + 1)
  }

  /** `Query` (query.go:7-26). A failure to open the cursor is returned with no rows and no
      binder call; otherwise each row is bound and scanned in order, the first scan error
      aborts with no rows, and rows scanned to the end are returned in row order. The
      error that ended the iteration early is never consulted. */
  method Query<T>(queried: Result<Cursor<T>, Error>) returns (results: seq<T>, err: Option<Error>, calls: seq<RowCall>)
    ensures queried.Failure? ==> results == [] && err == Some(queried.error) && calls == []
    ensures queried.Success? && FirstFailure(queried.value.rows).None? ==>
              && err == None
              && |results| == |queried.value.rows|
              && (forall i :: 0 <= i < |results| ==> results[i] == queried.value.rows[i].v)
              && calls == Visits(|queried.value.rows|)
    ensures queried.Success? && FirstFailure(queried.value.rows).Some? ==>
              var k := FirstFailure(queried.value.rows).value;
              results == [] && err == Some(queried.value.rows[k].err) && calls == Visits(k + 1)
  {
    if queried.Failure? {
      return [], Some(queried.error), [];
    }
    var rows := queried.value.rows;
    var acc: seq<T> := [];
    calls := [];
    var i := 0;
    while i < |rows|
      invariant 0 <= i <= |rows|
      invariant |acc| == i
      invariant forall j :: 0 <= j < i ==> rows[j].Scanned? && acc[j] == rows[j].v
      invariant calls == Visits(i)
    {
      calls := calls + [Bind(i), ScanRow(i)];
      match rows[i]
      case ScanFailed(e) =>
        return [], Some(e), calls;
      case Scanned(v) =>
        acc := acc + [v];
      i := i + 1;
    }
    return acc, None, calls;
  }

  /** The consequence of never consulting `rows.Err()`: a cursor cut short by a driver
      error after rows that all scanned is reported as a complete, successful result. */
  method QueryHidesIterationError<T>(c: Cursor<T>) returns (results: seq<T>, err: Option<Error>)
    requires c.iterErr.Some? && FirstFailure(c.rows).None?
    ensures err == None
    ensures |results| == |c.rows|
    ensures forall i :: 0 <= i < |results| ==> results[i] == c.rows[i].v
  {
    var calls;
    results, err, calls := Query(Success(c));
  }

  /** `Query` followed by the `rows.Err()` check its loop evidently intends: a result is
      reported successful only when every row was scanned and the iteration was not cut short. */
  method QueryChecked<T>(queried: Result<Cursor<T>, Error>) returns (results: seq<T>, err: Option<Error>, calls: seq<RowCall>)
    ensures err == None <==>
              queried.Success? && FirstFailure(queried.value.rows).None? && queried.value.iterErr.None?
    ensures err == None ==>
              |results| == |queried.value.rows| &&
              forall i :: 0 <= i < |results| ==> results[i] == queried.value.rows[i].v
    ensures err != None ==> results == []
    ensures queried.Failure? ==> calls == []
    ensures queried.Success? && FirstFailure(queried.value.rows).None? ==> calls == Visits(|queried.value.rows|)
    ensures queried.Success? && FirstFailure(queried.value.rows).Some? ==>
              calls == Visits(FirstFailure(queried.value.rows).value + 1)
    ensures queried.Failure? ==> err == Some(queried.error)
    ensures queried.Success? && FirstFailure(queried.value.rows).Some? ==>
              err == Some(queried.value.rows[FirstFailure(queried.value.rows).value].err)
    ensures queried.Success? && FirstFailure(queried.value.rows).None? && queried.value.iterErr.Some? ==>
              err == queried.value.iterErr
  {
    results, err, calls := Query(queried);
    if err.None? && queried.value.iterErr.Some? {
      results, err := [], queried.value.iterErr;
    }
  }

  /** What `QueryRow` returns: the value, the error, and the calls made. */
  datatype RowResult<T> = RowResult(value: T, err: Option<Error>, calls: seq<RowCall>)

  /** `QueryRow` (query.go:28-39). The row is scanned straight into a `T`, so the binder is
      never called. No row becomes a `NotFoundError` naming the context's data source;
      any other error is returned unchanged, and the zero `T` comes with every error.
      The data source must be in the context when there is no row: the type assertion at
      query.go:33 panics otherwise. */
  function QueryRow<T>(ctx: Context, zero: T, row: ScanOutcome<T>): (r: RowResult<T>)
    requires row.ScanFailed? && row.err == ErrNoRows ==> DataSource(ctx).Some?
    ensures r.calls == [ScanRow(0)]
    ensures row.Scanned? ==> r.value == row.v && r.err == None
    ensures row.ScanFailed? ==> r.value == zero && r.err.Some?
    ensures row.ScanFailed? && row.err == ErrNoRows ==> r.err == Some(NotFoundError(DataSource(ctx).value))
    ensures row.ScanFailed? && row.err != ErrNoRows ==> r.err == Some(row.err)
  {
    match row
    case Scanned(v) => RowResult(v, None, [ScanRow(0)])
    case ScanFailed(e) =>
      if e == ErrNoRows then RowResult(zero, Some(NotFoundError(DataSource(ctx).value)), [ScanRow(0)])
      else RowResult(zero, Some(e), [ScanRow(0)])
  }

  /** What `ctx.Exec` yields: an error, or a `sql.Result` whose `LastInsertId` succeeds or fails. */
  datatype ExecOutcome = ExecFailed(err: Error) | Executed(lastInsertId: Result<Int64, Error>)

  /** `Exec` (query.go:41-53): the last insert id, or zero with the first error met. */
  function Exec(outcome: ExecOutcome): (r: ExecResult)
    ensures r.err.None? <==> outcome.Executed? && outcome.lastInsertId.Success?
    ensures r.err.None? ==> r.lastInsertId == outcome.lastInsertId.value
    ensures outcome.ExecFailed? ==> r == ExecResult(0, Some(outcome.err))
    ensures outcome.Executed? && outcome.lastInsertId.Failure? ==>
              r == ExecResult(0, Some(outcome.lastInsertId.error))
  {
    match outcome
    case ExecFailed(e) => ExecResult(0, Some(e))
    case Executed(Failure(e)) => ExecResult(0, Some(e))
    case Executed(Success(id)) => ExecResult(id, None)
  }

  // ---------------------------------------------------------------------------
  // Properties

  /** A missing row surfaces as a not-found error whose message names the data source:
      the data source can be read back out of the message. */
  lemma QueryRowNotFoundMessage<T>(ctx: Context, zero: T)
    requires DataSource(ctx).Some?
    ensures QueryRow(ctx, zero, ScanFailed(ErrNoRows)).err.value.NotFoundError?
    ensures DataSourceOfMessage(NotFoundMessage(QueryRow(ctx, zero, ScanFailed(ErrNoRows)).err.value.dataSource))
              == DataSource(ctx)
  {
  }

  /** Inside a transaction the data source of the caller's context is still found, since
      binding the transaction leaves every other key alone. */
  lemma QueryRowInsideTransaction<T>(ctx: Context, tx: Access, zero: T)
    requires DataSource(ctx).Some?
    ensures QueryRow(WithValue(ctx, TxKey, AccessValue(tx)), zero, ScanFailed(ErrNoRows)).err
              == Some(NotFoundError(DataSource(ctx).value))
  {
  }
}
