/**
  typed.go: `Typed[T].WrapFn`, the executor whose unit of work also returns a
  value of type T. It follows the same begin/run/commit-or-rollback decisions
  as the untyped executor and shares its rollback protocol.
 */
module Typed {
  import opened Options
  import opened Errors
  import opened Sql
  import Transactional

  /** `Typed[T].WrapFn(ctx, fn)`; `zero` is Go's zero value of T (`var r T`). */
  function WrapFn<T>(db: Driver, fn: TxId -> Transactional.Work<T>, zero: T): (r: Transactional.Outcome<T>)
    ensures |r.trace| >= 1 && r.trace[0] == BeginCall
    // begin failed: the zero value and the wrapped begin error; fn never runs
    ensures db.begin.Err? ==>
              && r.value == zero && r.trace == [BeginCall] && r.handle == NoHandle
              && r.err.Some? && r.err.value.BeginFailed? && Unwrap(r.err.value) == Some(db.begin.error)
    ensures db.begin.Ok? ==>
              var tx := db.begin.value;
              var w := fn(tx);
              var c := Finish(w.state, Committed, db.commit).err;
              // fn's own value comes back on every path after begin, failure included
              && r.value == w.value
              && |r.trace| >= 2 && r.trace[1] == RunCall(tx)
              // the handle is finished by exactly one call: a commit or a rollback, never both
              && r.handle.Handle? && r.handle.id == tx && r.handle.state != Open
              && (w.err.Some? ==>
                    && Commits(r.trace, tx) == Commits(w.trace, tx)
                    && Rollbacks(r.trace, tx) == Rollbacks(w.trace, tx) + 1
                    && r.err == Some(Transactional.Rollback(tx, w.state, db.rollback, w.err.value).err))
              && (w.err.None? ==>
                    && Commits(r.trace, tx) == Commits(w.trace, tx) + 1
                    && Rollbacks(r.trace, tx) == Rollbacks(w.trace, tx)
                    // no error for a clean commit or one someone else already did,
                    // and a wrapped commit error otherwise
                    && r.err == Transactional.CommitResult(c))
  {
    match db.begin
    case Err(e) => Transactional.Outcome(zero, Some(BeginFailed(e)), [BeginCall], NoHandle)
    case Ok(tx) =>
      var w := fn(tx);
      var last := if w.err.Some? then RollbackCall(tx) else CommitCall(tx);
      var trace := Transactional.Bracket(tx, w.trace, last);
      assert Commits(trace, tx) == Commits(w.trace, tx) + (if w.err.Some? then 0 else 1);
      assert Rollbacks(trace, tx) == Rollbacks(w.trace, tx) + (if w.err.Some? then 1 else 0);
      if w.err.Some? then
        var rb := Transactional.Rollback(tx, w.state, db.rollback, w.err.value);
        Transactional.Outcome(w.value, Some(rb.err), trace, Handle(tx, rb.state))
      else
        var c := Finish(w.state, Committed, db.commit);
        Transactional.Outcome(w.value, Transactional.CommitResult(c.err), trace, Handle(tx, c.state))
  }

  /** The unit of work `fn` with its value dropped. */
  function Erase<T>(fn: TxId -> Transactional.Work<T>): TxId -> Transactional.Work<()> {
    (t: TxId) => var w := fn(t); Transactional.Work((), w.err, w.trace, w.state)
  }

  /** The typed executor decides exactly as the untyped one: same error, same
      effects, same handle; only the value differs. */
  lemma AgreesWithUntyped<T>(db: Driver, fn: TxId -> Transactional.Work<T>, zero: T)
    ensures var r := WrapFn(db, fn, zero);
            var u := Transactional.WrapFn(db, Erase(fn));
            r.err == u.err && r.trace == u.trace && r.handle == u.handle
  {
  }
}
