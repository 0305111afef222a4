/** Go's `context.Context` as far as the package uses it: a chain of `WithValue`
    bindings read by `Value`, and `FromCtxOr` (tx.go:128-134). */
module Contexts {

  import opened Wrappers

  /** An executor handle (`Access`, tx.go:121-126): a `*sql.Tx`, a `*sql.DB`, or anything
      else offering the four statement operations. Told apart only by an identity. */
  datatype Access = Access(id: nat)

  /** Context keys: the package's private `txKeyType{}`, the data-source key
      `CtxDataSourceKey{}` (defined outside the files modelled here), and any other key. */
  datatype Key = TxKey | DataSourceKey | OtherKey(id: nat)

  /** Values stored in a context: an executor, a string, or anything else. */
  datatype Value = AccessValue(access: Access) | StringValue(s: string) | OtherValue(id: nat)

  /** `context.Background()` extended by `context.WithValue(parent, key, val)`. */
  datatype Context = Background | WithValue(parent: Context, key: Key, val: Value)

  /** `ctx.Value(key)`: the value of the innermost binding of `key`, if any. */
  function Lookup(ctx: Context, key: Key): Option<Value> {
    match ctx
    case Background => None
    case WithValue(parent, k, v) => if k == key then Some(v) else Lookup(parent, key)
  }

  /** `FromCtxOr`: the executor bound under the private key, or the fallback when the
      context holds none (the type assertion to `Access` fails on a missing value). */
  function FromCtxOr(ctx: Context, fallback: Access): (r: Access)
    ensures Lookup(ctx, TxKey).Some? && Lookup(ctx, TxKey).value.AccessValue? ==>
              r == Lookup(ctx, TxKey).value.access
    ensures Lookup(ctx, TxKey).None? ==> r == fallback
    ensures Lookup(ctx, TxKey).Some? && !Lookup(ctx, TxKey).value.AccessValue? ==> r == fallback
  {
    match Lookup(ctx, TxKey)
    case Some(AccessValue(a)) => a
    case _ => fallback
  }

  /** `ctx.Value(CtxDataSourceKey{}).(string)`, defined only when the assertion succeeds. */
  function DataSource(ctx: Context): Option<string> {
    match Lookup(ctx, DataSourceKey)
    case Some(StringValue(s)) => Some(s)
    case _ => None
  }

  // ---------------------------------------------------------------------------
  // The bindings of a context, oldest first: an independent description of `Lookup`.

  datatype Binding = Binding(key: Key, val: Value)

  function Bindings(ctx: Context): seq<Binding> {
    match ctx
    case Background => []
    case WithValue(parent, k, v) => Bindings(parent) + [Binding(k, v)]
  }

  /** No binding at or after position `i` is for `key`. */
  predicate NotBoundAfter(bs: seq<Binding>, key: Key, i: int) {
    forall j :: 0 <= j < |bs| && i < j ==> bs[j].key != key
  }

  /** `Lookup` finds nothing exactly when no binding is for the key. */
  lemma {:induction false} LookupNone(ctx: Context, key: Key)
    ensures Lookup(ctx, key).None? <==> NotBoundAfter(Bindings(ctx), key, -1)
  {
    match ctx
    case Background =>
    case WithValue(parent, k, v) =>
      LookupNone(parent, key);
      var bp := Bindings(parent);
      var bs := Bindings(ctx);
      assert bs == bp + [Binding(k, v)];
      assert forall j :: 0 <= j < |bp| ==> bs[j] == bp[j];
      assert bs[|bp|] == Binding(k, v);
  }

  /** `Lookup` finds `v` exactly when the latest binding for the key binds `v`. */
  lemma {:induction false} LookupIsLatestBinding(ctx: Context, key: Key, v: Value)
    ensures Lookup(ctx, key) == Some(v) <==>
            exists i :: 0 <= i < |Bindings(ctx)| && Bindings(ctx)[i] == Binding(key, v) &&
                        NotBoundAfter(Bindings(ctx), key, i)
  {
    match ctx
    case Background =>
    case WithValue(parent, k, v0) =>
      var bp := Bindings(parent);
      var bs := Bindings(ctx);
      assert bs == bp + [Binding(k, v0)];
      assert forall j :: 0 <= j < |bp| ==> bs[j] == bp[j];
      assert bs[|bp|] == Binding(k, v0);
      if k == key {
        if v == v0 {
          var i := |bp|;
          assert 0 <= i < |bs| && bs[i] == Binding(key, v) && NotBoundAfter(bs, key, i);
          assert Lookup(ctx, key) == Some(v);
          assert exists i :: 0 <= i < |Bindings(ctx)| && Bindings(ctx)[i] == Binding(key, v) &&
                        NotBoundAfter(Bindings(ctx), key, i);
        } else {
          forall i | 0 <= i < |bs| && bs[i] == Binding(key, v)
            ensures !NotBoundAfter(bs, key, i)
          {
            assert i < |bp|;
            assert bs[|bp|].key == key;
          }
        }
      } else {
        LookupIsLatestBinding(parent, key, v);
        assert Lookup(ctx, key) == Lookup(parent, key);
        if Lookup(parent, key) == Some(v) {
          var i :| 0 <= i < |bp| && bp[i] == Binding(key, v) && NotBoundAfter(bp, key, i);
          assert bs[i] == Binding(key, v) && NotBoundAfter(bs, key, i);
          assert exists i :: 0 <= i < |Bindings(ctx)| && Bindings(ctx)[i] == Binding(key, v) &&
                        NotBoundAfter(Bindings(ctx), key, i);
        } else {
          forall i | 0 <= i < |bs| && bs[i] == Binding(key, v)
            ensures !NotBoundAfter(bs, key, i)
          {
            assert i < |bp| && bp[i] == Binding(key, v);
            assert !NotBoundAfter(bp, key, i);
          }
        }
      }
  }

  /** Binding one key hides nothing else: every other key reads as before. */
  lemma WithValueKeepsOtherKeys(ctx: Context, k: Key, v: Value, other: Key)
    requires other != k
    ensures Lookup(WithValue(ctx, k, v), other) == Lookup(ctx, other)
    ensures Lookup(WithValue(ctx, k, v), k) == Some(v)
  {
  }

  /** Without a transaction bound, `FromCtxOr` returns the fallback unchanged. */
  lemma FromCtxOrFallback(ctx: Context, fallback: Access)
    requires NotBoundAfter(Bindings(ctx), TxKey, -1)
    ensures FromCtxOr(ctx, fallback) == fallback
  {
    LookupNone(ctx, TxKey);
  }
}
