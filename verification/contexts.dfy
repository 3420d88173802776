/**
  The request context as far as the package uses it: an immutable chain of
  bindings, extended by `context.WithValue`, from which `ctx.Value(txKey{})`
  reads the innermost transaction. The key `txKey{}` is unexported, so only
  the package binds it and no other binding can shadow it.
 */
module Contexts {
  import opened Options
  import opened Sql

  datatype Binding =
    | TxBinding(tx: TxId)                  // context.WithValue(ctx, txKey{}, tx)
    | ValueBinding(key: nat, value: nat)   // a binding of the host application

  /** Bindings in the order they were added, outermost first. */
  type Context = seq<Binding>

  /** `ctx.Value(txKey{})`: the transaction of the most recent transaction binding. */
  function TxOf(ctx: Context): Option<TxId> {
    if |ctx| == 0 then None
    else if ctx[|ctx| - 1].TxBinding? then Some(ctx[|ctx| - 1].tx)
    else TxOf(ctx[..|ctx| - 1])
  }

  /** The lookup finds nothing exactly when no transaction was bound. */
  lemma {:induction false} TxOfAbsent(ctx: Context)
    ensures TxOf(ctx).None? <==> forall i :: 0 <= i < |ctx| ==> !ctx[i].TxBinding?
  {
    if |ctx| > 0 && !ctx[|ctx| - 1].TxBinding? {
      var prefix := ctx[..|ctx| - 1];
      TxOfAbsent(prefix);
      assert forall i :: 0 <= i < |prefix| ==> prefix[i] == ctx[i];
    }
  }

  /** Otherwise it finds the transaction binding that no later transaction
      binding overrides. */
  lemma {:induction false} TxOfInnermost(ctx: Context)
    requires TxOf(ctx).Some?
    ensures exists i :: 0 <= i < |ctx| && ctx[i] == TxBinding(TxOf(ctx).value) &&
                        forall j :: i < j < |ctx| ==> !ctx[j].TxBinding?
  {
    if ctx[|ctx| - 1].TxBinding? {
      assert ctx[|ctx| - 1] == TxBinding(TxOf(ctx).value);
    } else {
      var prefix := ctx[..|ctx| - 1];
      TxOfInnermost(prefix);
      var i :| 0 <= i < |prefix| && prefix[i] == TxBinding(TxOf(prefix).value) &&
               forall j :: i < j < |prefix| ==> !prefix[j].TxBinding?;
      assert ctx[i] == TxBinding(TxOf(ctx).value);
      assert forall j :: i < j < |prefix| ==> ctx[j] == prefix[j];
    }
  }

  /** `context.WithValue(ctx, txKey{}, tx)`. */
  function WithTx(ctx: Context, tx: TxId): (r: Context)
    ensures TxOf(r) == Some(tx)
    ensures |r| == |ctx| + 1 && r[..|ctx|] == ctx
  {
    ctx + [TxBinding(tx)]
  }

  /** `context.WithValue(ctx, key, value)` for a key of the host application. */
  function WithValue(ctx: Context, key: nat, value: nat): (r: Context)
    ensures |r| == |ctx| + 1 && r[..|ctx|] == ctx
  {
    ctx + [ValueBinding(key, value)]
  }

  /** Host bindings never hide or replace the transaction: the key is private. */
  lemma {:induction false} ValuesKeepTx(ctx: Context, key: nat, value: nat)
    ensures TxOf(WithValue(ctx, key, value)) == TxOf(ctx)
  {
    var r := WithValue(ctx, key, value);
    assert r[..|r| - 1] == ctx;
  }
}
