/** `TxProvider` (tx.go): beginning a transaction bound into the context, and running a
    unit of work inside one with automatic commit or rollback.

    The driver is abstract: `BeginTx` is the provider's connector, and what the unit of
    work, `Commit` and `Rollback` do is given as their outcomes. A run is described by
    the calls it makes, in order, and the error it returns. */
module Transactions {

  import opened Wrappers
  import opened Errors
  import opened Contexts

  /** `sql.IsolationLevel`. */
  datatype IsolationLevel =
    | LevelDefault | LevelReadUncommitted | LevelReadCommitted | LevelWriteCommitted
    | LevelRepeatableRead | LevelSnapshot | LevelSerializable | LevelLinearizable

  /** `sql.TxOptions`. */
  datatype TxOptions = TxOptions(isolation: IsolationLevel, readOnly: bool)

  /** `DefaultTxOpts` (tx.go:13-16). */
  const DefaultTxOpts: TxOptions := TxOptions(LevelDefault, false)

  /** The `Tx` struct: the context the transaction is bound into, and the `*sql.Tx`. */
  datatype TxHandle = TxHandle(context: Context, tx: Access)

  /** What `BeginTx` yields: an open transaction or an error. */
  datatype BeginOutcome = Began(tx: Access) | BeginFailed(err: Error)

  /** `TxProvider`: its connector's `BeginTx`, as a function of the context and options. */
  datatype TxProvider = TxProvider(beginTx: (Context, TxOptions) -> BeginOutcome)

  /** `AcquireWithOpts` (tx.go:73-83): a failure to begin is returned verbatim; otherwise
      the transaction is bound into the context under the private key. */
  function AcquireWithOpts(p: TxProvider, ctx: Context, opts: TxOptions): (r: Result<TxHandle, Error>)
    ensures p.beginTx(ctx, opts).BeginFailed? ==> r == Failure(p.beginTx(ctx, opts).err)
    ensures p.beginTx(ctx, opts).Began? ==>
              && r.Success?
              && r.value.tx == p.beginTx(ctx, opts).tx
              && Lookup(r.value.context, TxKey) == Some(AccessValue(r.value.tx))
              && forall k :: k != TxKey ==> Lookup(r.value.context, k) == Lookup(ctx, k)
  {
    match p.beginTx(ctx, opts)
    case BeginFailed(e) => Failure(e)
    case Began(tx) => Success(TxHandle(WithValue(ctx, TxKey, AccessValue(tx)), tx))
  }

  /** `Acquire` (tx.go:86-88): begins with the default isolation level, read-write. */
  function Acquire(p: TxProvider, ctx: Context): (r: Result<TxHandle, Error>)
    ensures r == AcquireWithOpts(p, ctx, TxOptions(LevelDefault, false))
  {
    AcquireWithOpts(p, ctx, DefaultTxOpts)
  }

  /** The driver calls a run makes. */
  datatype Call = BeginTx(opts: TxOptions) | RunFn | Commit | Rollback

  /** How the unit of work `fn` ends: returning an error value, or panicking. */
  datatype FnOutcome = Returned(err: Option<Error>) | Panicked

  /** What `tx.Commit()` and `tx.Rollback()` would return. */
  datatype Finalizers = Finalizers(commit: Option<Error>, rollback: Option<Error>)

  /** A run: the calls made, the error returned to the caller, and the error the deferred
      closure assigns to the local `err` after finalizing (none when nothing was begun). */
  datatype TxRun = TxRun(trace: seq<Call>, returned: Option<Error>, finalized: Option<Error>)

  /** `TxWithOpts` (tx.go:91-115). The local `err` is nil after a successful acquire and
      holds `fn`'s result only if `fn` returns. The deferred closure commits when it is nil
      and rolls back otherwise, assigning the outcome to `err`; but the result is unnamed,
      so the caller receives what `fn` returned, or nil after a recovered panic. */
  function TxWithOpts(p: TxProvider, ctx: Context, fn: TxHandle -> FnOutcome, opts: TxOptions, fin: Finalizers)
    : (r: TxRun)
    ensures p.beginTx(ctx, opts).BeginFailed? ==>
              r.trace == [BeginTx(opts)] && r.returned == Some(p.beginTx(ctx, opts).err) && r.finalized == None
    ensures p.beginTx(ctx, opts).Began? ==>
              var outcome := fn(AcquireWithOpts(p, ctx, opts).value);
              && |r.trace| == 3 && r.trace[0] == BeginTx(opts) && r.trace[1] == RunFn
              && multiset(r.trace)[Commit] + multiset(r.trace)[Rollback] == 1
              && (outcome == Returned(None) || outcome == Panicked ==>
                    multiset(r.trace)[Commit] == 1 && r.returned == None && r.finalized == fin.commit)
              && (outcome.Returned? && outcome.err.Some? ==>
                    multiset(r.trace)[Rollback] == 1 && r.returned == outcome.err && r.finalized == fin.rollback)
  {
    match AcquireWithOpts(p, ctx, opts)
    case Failure(e) => TxRun([BeginTx(opts)], Some(e), None)
    case Success(tx) =>
      var outcome := fn(tx);
      // the local `err` as the deferred closure finds it
      var err := if outcome.Returned? then outcome.err else None;
      // the unnamed result: copied from `err` by `return err`, or zero after a recovered panic
      var returned := if outcome.Returned? then outcome.err else None;
      if err.None? then TxRun([BeginTx(opts), RunFn, Commit], returned, fin.commit)
      else TxRun([BeginTx(opts), RunFn, Rollback], returned, fin.rollback)
  }

  /** `TxProvider.Tx` (tx.go:117-119): `TxWithOpts` with the default options. */
  function Tx(p: TxProvider, ctx: Context, fn: TxHandle -> FnOutcome, fin: Finalizers): (r: TxRun)
    ensures r == TxWithOpts(p, ctx, fn, TxOptions(LevelDefault, false), fin)
  {
    TxWithOpts(p, ctx, fn, DefaultTxOpts, fin)
  }

  // ---------------------------------------------------------------------------
  // Properties

  /** The caller never learns how `Commit` or `Rollback` went. */
  lemma ReturnedIgnoresFinalizers(p: TxProvider, ctx: Context, fn: TxHandle -> FnOutcome, opts: TxOptions,
                                  fin1: Finalizers, fin2: Finalizers)
    ensures TxWithOpts(p, ctx, fn, opts, fin1).returned == TxWithOpts(p, ctx, fn, opts, fin2).returned
    ensures TxWithOpts(p, ctx, fn, opts, fin1).trace == TxWithOpts(p, ctx, fn, opts, fin2).trace
  {
  }

  /** A failing commit is reported as success: `fn` returns nil, `Commit` fails, and the
      run still returns nil (the counterexample behind the unnamed result at tx.go:91). */
  lemma CommitFailureIsLost(p: TxProvider, ctx: Context, fn: TxHandle -> FnOutcome, opts: TxOptions, e: Error)
    requires p.beginTx(ctx, opts).Began?
    requires fn(AcquireWithOpts(p, ctx, opts).value) == Returned(None)
    ensures Commit in TxWithOpts(p, ctx, fn, opts, Finalizers(Some(e), None)).trace
    ensures TxWithOpts(p, ctx, fn, opts, Finalizers(Some(e), None)).finalized == Some(e)
    ensures TxWithOpts(p, ctx, fn, opts, Finalizers(Some(e), None)).returned == None
  {
  }

  /** A unit of work sees its own transaction through `FromCtxOr`, not the fallback, and
      still sees every other value of the caller's context. */
  lemma UnitOfWorkSeesItsTransaction(p: TxProvider, ctx: Context, opts: TxOptions, fallback: Access)
    requires p.beginTx(ctx, opts).Began?
    ensures FromCtxOr(AcquireWithOpts(p, ctx, opts).value.context, fallback) == p.beginTx(ctx, opts).tx
    ensures DataSource(AcquireWithOpts(p, ctx, opts).value.context) == DataSource(ctx)
  {
  }

  // ---------------------------------------------------------------------------
  // The finalize error reported, as the deferred assignments at tx.go:101-105 intend

  /** `TxWithOpts` with the finalize outcome reaching the caller: a failed commit or
      rollback replaces `fn`'s error, and otherwise `fn`'s error is returned. */
  function TxWithOptsChecked(p: TxProvider, ctx: Context, fn: TxHandle -> FnOutcome, opts: TxOptions, fin: Finalizers)
    : (r: TxRun)
    ensures r.trace == TxWithOpts(p, ctx, fn, opts, fin).trace
    ensures r.returned.None? <==> p.beginTx(ctx, opts).Began? && Commit in r.trace && fin.commit.None?
    ensures r.finalized == TxWithOpts(p, ctx, fn, opts, fin).finalized
    ensures r.finalized.Some? ==> r.returned == r.finalized
    ensures Commit in r.trace && fin.commit.Some? ==> r.returned == fin.commit
    ensures Rollback in r.trace && fin.rollback.Some? ==> r.returned == fin.rollback
    ensures r.finalized.None? ==> r.returned == TxWithOpts(p, ctx, fn, opts, fin).returned
  {
    var run := TxWithOpts(p, ctx, fn, opts, fin);
    if run.finalized.Some? then run.(returned := run.finalized) else run
  }
}
