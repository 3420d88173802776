/**
  The transaction lifecycle of transactional.go: the rollback protocol, the
  executor `WrapFn` (begin, run, commit or roll back), and the HTTP mediator
  `Wrap`, which reuses a transaction found in the request context or else opens
  one through `WrapFn` and puts it in the context handed to the handler.
 */
module Transactional {
  import opened Options
  import opened Errors
  import opened Sql
  import opened Contexts

  /** What a unit of work did with the handle it was given: the value and error
      it returned, the effects it had (including calls made by nested wrapped
      handlers) and the state it left the handle in. */
  datatype Work<T> = Work(value: T, err: Option<Error>, trace: seq<Event>, state: TxState)

  /** What an executor call returns, the effects it had, and the handle it
      opened (none when begin failed, or the reused one). */
  datatype Outcome<T> = Outcome(value: T, err: Option<Error>, trace: seq<Event>, handle: Handle)

  /** The error `rollback` returns, the calls it made and the handle's state after. */
  datatype Settled = Settled(err: Error, trace: seq<Event>, state: TxState)

  /** How `rollback` classifies the answer `rerr` of `tx.Rollback()` for the
      triggering error `err`. */
  function RollbackResult(err: Error, rerr: Option<Error>): (r: Error)
    // already finished: the original error, unchanged and never remapped
    ensures rerr.Some? && Is(rerr.value, TxDone) ==> r == err
    // any other failure: a new error whose %w chain is the rollback error's,
    // the original surviving only as text
    ensures rerr.Some? && !Is(rerr.value, TxDone) ==>
              && r.RollbackFailed? && Unwrap(r) == rerr
              && EndsWith(Message(r), Message(rerr.value))
              && |RollbackPrefix| <= |Message(r)|
              && Message(err) <= Message(r)[|RollbackPrefix|..]
    // a no-rows error becomes a 404 exactly when the rollback went through
    ensures r == StatusError(NotFound, err) <==> rerr.None? && Is(err, NoRows)
    ensures rerr.None? && !Is(err, NoRows) ==> r == err
  {
    NotItsOwnCause(err);
    match rerr
    case Some(re) =>
      if Is(re, TxDone) then err
      else
        CompoundMessage(err, re);
        RollbackFailed(Message(err), re)
    case None =>
      if Is(err, NoRows) then StatusError(NotFound, err) else err
  }

  /** The text of the compound error: the prefix, the original's text, then the
      rollback error's text at the end. */
  lemma CompoundMessage(err: Error, re: Error)
    ensures var m := Message(RollbackFailed(Message(err), re));
            && EndsWith(m, Message(re))
            && |RollbackPrefix| <= |m|
            && Message(err) <= m[|RollbackPrefix|..]
  {
    assert Message(RollbackFailed(Message(err), re)) == RollbackPrefix + Message(err) + ": " + Message(re);
    Joined(RollbackPrefix, Message(err), Message(re));
  }

  /** `prefix + a + ": " + b` ends with `b`, and `a` follows the prefix. */
  lemma Joined(prefix: string, a: string, b: string)
    ensures var m := prefix + a + ": " + b;
            EndsWith(m, b) && |prefix| <= |m| && a <= m[|prefix|..]
  {
    var m := prefix + a + ": " + b;
    assert m == (prefix + a + ": ") + b;
    assert m[|prefix|..] == a + ": " + b;
  }

  lemma NotItsOwnCause(e: Error)
    ensures e != StatusError(NotFound, e)
  {
    if e.StatusError? {
      NotItsOwnCause(e.cause);
    }
  }

  /** A rollback that fails for a reason other than "already finished": the
      result is classified exactly as the rollback error is, apart from itself. */
  lemma FailedRollbackChain(err: Error, rerr: Error, t: Error)
    requires !Is(rerr, TxDone)
    ensures Is(RollbackResult(err, Some(rerr)), t) <==> t == RollbackResult(err, Some(rerr)) || Is(rerr, t)
  {
  }

  /** A rollback that goes through keeps every classification of the original. */
  lemma RolledBackKeepsClassification(err: Error, t: Error)
    requires Is(err, t)
    ensures Is(RollbackResult(err, None), t)
  {
  }

  /** `rollback(tx, err)`: one Rollback call on the handle, then the
      classification above. */
  function Rollback(tx: TxId, s: TxState, answer: Option<Error>, err: Error): (r: Settled)
    ensures r.trace == [RollbackCall(tx)]
    ensures r.state != Open
    // a handle someone else already finished: the original error, unchanged
    ensures s != Open ==> r.err == err && r.state == s
    ensures s == Open ==> r.err == RollbackResult(err, answer)
  {
    var c := Finish(s, RolledBack, answer);
    Settled(RollbackResult(err, c.err), [RollbackCall(tx)], c.state)
  }

  /** How `WrapFn` reads the answer `cerr` of `tx.Commit()`. */
  function CommitResult(cerr: Option<Error>): (r: Option<Error>)
    ensures r.None? <==> cerr.None? || Is(cerr.value, TxDone)
    ensures r.Some? ==> r.value.CommitFailed? && Unwrap(r.value) == cerr
  {
    match cerr
    case None => None
    case Some(ce) => if Is(ce, TxDone) then None else Some(CommitFailed(ce))
  }

  /** The effects of an executor call whose begin succeeded: the begin, the
      run of the unit of work on `tx`, the unit of work's own effects, and
      the one call that finishes the handle. */
  function Bracket(tx: TxId, inner: seq<Event>, last: Event): (t: seq<Event>)
    ensures |t| == |inner| + 3 && t[0] == BeginCall && t[1] == RunCall(tx)
    ensures t[2..|t| - 1] == inner && t[|t| - 1] == last
    ensures last.CommitCall? || last.RollbackCall? ==>
              && Begins(t) == Begins(inner) + 1
              && Commits(t, tx) == Commits(inner, tx) + (if last == CommitCall(tx) then 1 else 0)
              && Rollbacks(t, tx) == Rollbacks(inner, tx) + (if last == RollbackCall(tx) then 1 else 0)
  {
    var t := [BeginCall, RunCall(tx)] + inner + [last];
    assert multiset(t) == multiset(inner) + multiset{BeginCall, RunCall(tx), last};
    t
  }

  /** `Transactional.WrapFn(ctx, fn)`: the untyped executor. */
  function WrapFn(db: Driver, fn: TxId -> Work<()>): (r: Outcome<()>)
    ensures |r.trace| >= 1 && r.trace[0] == BeginCall
    // begin failed: the wrapped begin error; fn, commit and rollback never run
    ensures db.begin.Err? ==>
              && r.trace == [BeginCall] && r.handle == NoHandle
              && r.err.Some? && r.err.value.BeginFailed? && Unwrap(r.err.value) == Some(db.begin.error)
    ensures db.begin.Ok? ==>
              var tx := db.begin.value;
              var w := fn(tx);
              // fn runs on the new handle right after begin, and its effects are
              // followed by exactly one terminating call of the executor
              && |r.trace| == |w.trace| + 3 && r.trace[1] == RunCall(tx)
              && r.trace[2..|r.trace| - 1] == w.trace
              && r.trace[|r.trace| - 1] == (if w.err.Some? then RollbackCall(tx) else CommitCall(tx))
              && Begins(r.trace) == Begins(w.trace) + 1
              // the handle is finished on return, by exactly one call of the executor
              && r.handle.Handle? && r.handle.id == tx && r.handle.state != Open
              && Commits(r.trace, tx) + Rollbacks(r.trace, tx) == Commits(w.trace, tx) + Rollbacks(w.trace, tx) + 1
              // fn failed: one rollback, no commit, and the rollback protocol's error
              && (w.err.Some? ==>
                    && Rollbacks(r.trace, tx) == Rollbacks(w.trace, tx) + 1
                    && r.err == Some(Rollback(tx, w.state, db.rollback, w.err.value).err))
              // fn succeeded: one commit, no rollback, and the commit's verdict
              && (w.err.None? ==>
                    && Commits(r.trace, tx) == Commits(w.trace, tx) + 1
                    && r.err == CommitResult(Finish(w.state, Committed, db.commit).err))
  {
    match db.begin
    case Err(e) => Outcome((), Some(BeginFailed(e)), [BeginCall], NoHandle)
    case Ok(tx) =>
      var w := fn(tx);
      if w.err.Some? then
        var rb := Rollback(tx, w.state, db.rollback, w.err.value);
        Outcome((), Some(rb.err), Bracket(tx, w.trace, RollbackCall(tx)), Handle(tx, rb.state))
      else
        var c := Finish(w.state, Committed, db.commit);
        Outcome((), CommitResult(c.err), Bracket(tx, w.trace, CommitCall(tx)), Handle(tx, c.state))
  }

  /** A handler, as far as its effect on the transaction goes. */
  datatype Handler =
      // application logic only: it writes its response and returns `err`
    | Respond(err: Option<Error>)
      // serves the wrapped handler `inner` on the same request, then goes on as `next`
    | Serve(inner: Handler, next: Handler)

  /** `h.ServeHTTP(tx, w, r)` where `r` carries `ctx`, the handle being `tx` in state `s`. */
  function RunHandler(h: Handler, ctx: Context, tx: TxId, db: Driver, s: TxState): (w: Work<()>)
    requires TxOf(ctx) == Some(tx)
    // within a context that carries the transaction nothing begins or commits
    ensures Begins(w.trace) == 0 && NeverCommits(w.trace) && OnlyTouches(w.trace, tx)
    ensures s != Open ==> w.state == s
    decreases h, 0
  {
    match h
    case Respond(err) => Work((), err, [], s)
    case Serve(inner, next) =>
      var m := Wrap(inner, ctx, db, s);
      var k := RunHandler(next, ctx, tx, db, m.handle.state);
      Work((), k.err, m.trace + k.trace, k.state)
  }

  /** Reuse path of `Wrap`: the request's context already carries the handle
      `tx` (in state `s`); the handler runs on it and a failure is rolled back
      on it, while commit is left to whoever opened it. */
  function Reuse(h: Handler, ctx: Context, tx: TxId, db: Driver, s: TxState): (r: Outcome<()>)
    requires TxOf(ctx) == Some(tx)
    // the handler runs on that same handle; nothing begins or commits
    ensures |r.trace| >= 1 && r.trace[0] == RunCall(tx)
    ensures Begins(r.trace) == 0 && NeverCommits(r.trace) && OnlyTouches(r.trace, tx)
    ensures r.handle.Handle? && r.handle.id == tx && (s != Open ==> r.handle.state == s)
    // a failing handler costs exactly one more rollback on that handle, and the
    // path returns the rollback protocol's error; a succeeding one returns none
    ensures var w := RunHandler(h, ctx, tx, db, s);
            && (w.err.Some? ==> r.err == Some(Rollback(tx, w.state, db.rollback, w.err.value).err))
            && (w.err.None? ==> r.err.None?)
            && Rollbacks(r.trace, tx) == Rollbacks(w.trace, tx) + (if w.err.Some? then 1 else 0)
    decreases h, 1
  {
    var w := RunHandler(h, ctx, tx, db, s);
    if w.err.Some? then
      var rb := Rollback(tx, w.state, db.rollback, w.err.value);
      Outcome((), Some(rb.err), [RunCall(tx)] + w.trace + rb.trace, Handle(tx, rb.state))
    else
      Outcome((), None, [RunCall(tx)] + w.trace, Handle(tx, w.state))
  }

  /** The unit of work the fresh path hands to `WrapFn`: it puts the new
      handle in the request's context and serves the handler with it. */
  function HandlerWork(h: Handler, ctx: Context, db: Driver): (fn: TxId -> Work<()>)
    // nested handlers on that context reuse the handle: nothing begins or commits
    ensures forall t :: Begins(fn(t).trace) == 0 && NeverCommits(fn(t).trace) && OnlyTouches(fn(t).trace, t)
    decreases h, 1
  {
    (t: TxId) => RunHandler(h, WithTx(ctx, t), t, db, Open)
  }

  /** Fresh path of `Wrap`: no handle in the context, so `WrapFn` opens one and
      the handler runs with a context that carries it. */
  function Fresh(h: Handler, ctx: Context, db: Driver): (r: Outcome<()>)
    requires TxOf(ctx).None?
    // exactly one begin in the whole chain, nested handlers included
    ensures |r.trace| >= 1 && r.trace[0] == BeginCall && Begins(r.trace) == 1
    // begin failed: the wrapped begin error, and the handler never runs
    ensures db.begin.Err? ==>
              && r.handle == NoHandle && r.trace == [BeginCall]
              && r.err.Some? && r.err.value.BeginFailed? && Unwrap(r.err.value) == Some(db.begin.error)
    ensures db.begin.Ok? ==>
              var tx := db.begin.value;
              var w := RunHandler(h, WithTx(ctx, tx), tx, db, Open);
              && |r.trace| >= 2 && r.trace[1] == RunCall(tx)
              && r.handle.Handle? && r.handle.id == tx && r.handle.state != Open
              && Commits(r.trace, tx) == (if w.err.None? then 1 else 0)
              // the handler failed: the rollback protocol's error
              && (w.err.Some? ==> r.err == Some(Rollback(tx, w.state, db.rollback, w.err.value).err))
              // the handler succeeded: the commit's verdict
              && (w.err.None? ==> r.err == CommitResult(Finish(w.state, Committed, db.commit).err))
    decreases h, 2
  {
    var fn := HandlerWork(h, ctx, db);
    var r := WrapFn(db, fn);
    if db.begin.Ok? then
      var w := fn(db.begin.value);
      assert Begins(w.trace) == 0 && NeverCommits(w.trace);
      assert CommitCall(db.begin.value) !in w.trace;
      assert Commits(w.trace, db.begin.value) == 0;
      r
    else
      r
  }

  /** `t.Wrap(h, eh)` serving one request that carries `ctx`, where `s` is the
      state of the handle the context carries, if any. The error the wrapped
      function returns, if any, goes to the error renderer as the last effect. */
  function Wrap(h: Handler, ctx: Context, db: Driver, s: TxState): (r: Outcome<()>)
    ensures r.err.Some? ==> |r.trace| >= 1 && r.trace[|r.trace| - 1] == RenderCall(r.err.value)
    ensures TxOf(ctx).Some? ==>
              var tx := TxOf(ctx).value;
              && Begins(r.trace) == 0 && NeverCommits(r.trace) && OnlyTouches(r.trace, tx)
              && r.handle.Handle? && r.handle.id == tx && (s != Open ==> r.handle.state == s)
    ensures TxOf(ctx).None? ==> Begins(r.trace) == 1
    // the error handed to the renderer is exactly the path's error, and a
    // path without an error renders nothing
    ensures var m := if TxOf(ctx).Some? then Reuse(h, ctx, TxOf(ctx).value, db, s) else Fresh(h, ctx, db);
            && r.err == m.err && r.handle == m.handle
            && (m.err.Some? ==> r.trace == m.trace + [RenderCall(m.err.value)])
            && (m.err.None? ==> r.trace == m.trace)
    decreases h, 3
  {
    var m := match TxOf(ctx)
      case Some(tx) => Reuse(h, ctx, tx, db, s)
      case None => Fresh(h, ctx, db);
    match m.err
    case Some(e) => m.(trace := m.trace + [RenderCall(e)])
    case None => m
  }

  /** The code keeps a failed rollback's original error only as text: a
      no-rows error whose rollback fails is no longer a no-rows error, so it
      is not mapped to 404 anywhere downstream. */
  lemma CompoundLosesNoRows(rerr: Error)
    requires !Is(rerr, TxDone) && !Is(rerr, NoRows)
    ensures var r := RollbackResult(NoRows, Some(rerr));
            !Is(r, NoRows) && r != StatusError(NotFound, NoRows)
  {
    FailedRollbackChain(NoRows, rerr, NoRows);
  }

  /** A handler that succeeds on a fresh request: one begin, one commit,
      nothing rendered. */
  lemma SuccessCommits(ctx: Context, db: Driver)
    requires TxOf(ctx).None? && db.begin.Ok? && db.commit.None?
    ensures var tx := db.begin.value;
            var r := Wrap(Respond(None), ctx, db, Open);
            r.trace == [BeginCall, RunCall(tx), CommitCall(tx)] && r.err.None? && r.handle == Handle(tx, Committed)
  {
    var tx := db.begin.value;
    var h := Respond(None);
    FreshDelegates(h, ctx, db, tx);
    assert RunHandler(h, WithTx(ctx, tx), tx, db, Open) == Work((), None, [], Open);
    var f := Fresh(h, ctx, db);
    assert f.trace == [BeginCall, RunCall(tx)] + [] + [CommitCall(tx)];
  }

  /** A handler that fails on a fresh request whose rollback goes through: the
      renderer gets the error, remapped to 404 exactly when it is a no-rows
      error. */
  lemma FailureRendered(ctx: Context, db: Driver, e: Error)
    requires TxOf(ctx).None? && db.begin.Ok? && db.rollback.None?
    ensures var tx := db.begin.value;
            var r := Wrap(Respond(Some(e)), ctx, db, Open);
            && |r.trace| == 4
            && r.trace[..3] == [BeginCall, RunCall(tx), RollbackCall(tx)]
            && r.handle == Handle(tx, RolledBack)
            && (Is(e, NoRows) ==> r.trace[3] == RenderCall(StatusError(NotFound, e)))
            && (!Is(e, NoRows) ==> r.trace[3] == RenderCall(e))
  {
    var tx := db.begin.value;
    var h := Respond(Some(e));
    FreshDelegates(h, ctx, db, tx);
    var w := RunHandler(h, WithTx(ctx, tx), tx, db, Open);
    assert w == Work((), Some(e), [], Open);
    var f := Fresh(h, ctx, db);
    assert f.err == Some(RollbackResult(e, None)) && f.handle == Handle(tx, RolledBack);
    assert f.trace == [BeginCall, RunCall(tx)] + [] + [RollbackCall(tx)];
    assert Wrap(h, ctx, db, Open).trace == f.trace + [RenderCall(RollbackResult(e, None))];
  }

  /** A nested handler on the same request fails: the inner `Wrap` reuses the
      outer transaction, rolls it back and renders its own error; the outer
      handler sees no error, and its commit meets `sql.ErrTxDone`, which the
      executor takes as success. One begin, one effective rollback, one
      rendered error. */
  lemma NestedFailure(ctx: Context, db: Driver, e: Error)
    requires TxOf(ctx).None? && db.begin.Ok?
    ensures var tx := db.begin.value;
            var r := Wrap(Serve(Respond(Some(e)), Respond(None)), ctx, db, Open);
            && r.trace == [BeginCall, RunCall(tx), RunCall(tx), RollbackCall(tx),
                           RenderCall(RollbackResult(e, db.rollback)), CommitCall(tx)]
            && r.err.None?
            && r.handle == Handle(tx, RolledBack)
  {
    var tx := db.begin.value;
    var h := Serve(Respond(Some(e)), Respond(None));
    var inner := WithTx(ctx, tx);
    var m := Wrap(Respond(Some(e)), inner, db, Open);
    ReuseFailure(inner, tx, db, e);
    var k := RunHandler(Respond(None), inner, tx, db, RolledBack);
    assert k == Work((), None, [], RolledBack);
    var w := RunHandler(h, inner, tx, db, Open);
    assert w == Work((), None, m.trace + k.trace, RolledBack);
    FreshDelegates(h, ctx, db, tx);
    assert HandlerWork(h, ctx, db)(tx) == w;
    var f := Fresh(h, ctx, db);
    assert f.err.None? && f.handle == Handle(tx, RolledBack);
    assert f.trace == [BeginCall, RunCall(tx)] + w.trace + [CommitCall(tx)];
    assert w.trace == m.trace;
    Splice(BeginCall, RunCall(tx), RunCall(tx), RollbackCall(tx), RenderCall(RollbackResult(e, db.rollback)), CommitCall(tx));
    assert Wrap(h, ctx, db, Open) == f;
  }

  /** Sequence-literal identities and the unfolding of `Fresh`, kept as
      separate lemmas so that the scenario proofs using them stay small. */
  lemma Splice3(a: Event, b: Event, c: Event)
    ensures [a] + [] + [b] + [c] == [a, b, c]
  {
  }

  lemma Splice(a: Event, b: Event, c: Event, d: Event, e: Event, f: Event)
    ensures [a, b] + [c, d, e] + [f] == [a, b, c, d, e, f]
  {
  }

  lemma FreshDelegates(h: Handler, ctx: Context, db: Driver, tx: TxId)
    requires TxOf(ctx).None?
    ensures Fresh(h, ctx, db) == WrapFn(db, HandlerWork(h, ctx, db))
    ensures HandlerWork(h, ctx, db)(tx) == RunHandler(h, WithTx(ctx, tx), tx, db, Open)
  {
  }

  /** On the reuse path a failing handler is rolled back on the context's
      handle and the result rendered; nothing is committed. */
  lemma ReuseFailure(ctx: Context, tx: TxId, db: Driver, e: Error)
    requires TxOf(ctx) == Some(tx)
    ensures var r := Wrap(Respond(Some(e)), ctx, db, Open);
            && r.trace == [RunCall(tx), RollbackCall(tx), RenderCall(RollbackResult(e, db.rollback))]
            && r.handle == Handle(tx, RolledBack)
  {
    var h := Respond(Some(e));
    assert RunHandler(h, ctx, tx, db, Open) == Work((), Some(e), [], Open);
    var re := Reuse(h, ctx, tx, db, Open);
    assert re.err == Some(RollbackResult(e, db.rollback)) && re.handle == Handle(tx, RolledBack);
    assert re.trace == [RunCall(tx)] + [] + [RollbackCall(tx)];
    var r := Wrap(h, ctx, db, Open);
    assert r.handle == re.handle;
    assert r.trace == re.trace + [RenderCall(RollbackResult(e, db.rollback))];
    Splice3(RunCall(tx), RollbackCall(tx), RenderCall(RollbackResult(e, db.rollback)));
  }

  /** The begin and run events leave a handle alone; the handle's fate is
      decided by the inner effects and then the executor's own last call. */
  lemma BracketReplay(tx: TxId, inner: seq<Event>, last: Event)
    ensures Replay(Bracket(tx, inner, last), tx, Open) == Apply(last, tx, Replay(inner, tx, Open))
  {
    assert Bracket(tx, inner, last) == ([BeginCall, RunCall(tx)] + inner) + [last];
    assert Replay([BeginCall, RunCall(tx)], tx, Open) == Open by {
      assert [BeginCall, RunCall(tx)][1..] == [RunCall(tx)];
      ReplayOne(RunCall(tx), tx, Open);
    }
    ReplayConcat([BeginCall, RunCall(tx)], inner, tx, Open);
    ReplayConcat([BeginCall, RunCall(tx)] + inner, [last], tx, Open);
    ReplayOne(last, tx, Replay(inner, tx, Open));
  }

  /** `WrapFn` keeps the handle's state in step with the effects: if the unit
      of work reports the state its own effects left the handle in, the
      executor's final handle is the state read off its whole trace. */
  lemma WrapFnFollowsTrace(db: Driver, fn: TxId -> Work<()>)
    requires db.begin.Ok?
    requires fn(db.begin.value).state == Replay(fn(db.begin.value).trace, db.begin.value, Open)
    ensures WrapFn(db, fn).handle.state == Replay(WrapFn(db, fn).trace, db.begin.value, Open)
  {
    var tx := db.begin.value;
    var w := fn(tx);
    BracketReplay(tx, w.trace, if w.err.Some? then RollbackCall(tx) else CommitCall(tx));
  }

  /** On the reuse path the handle's state is the one read off the effects:
      whatever a handler and its nested handlers do, the first Commit or
      Rollback on the shared handle decides its fate. */
  lemma {:induction false} HandlerFollowsTrace(h: Handler, ctx: Context, tx: TxId, db: Driver, s: TxState)
    requires TxOf(ctx) == Some(tx)
    ensures var w := RunHandler(h, ctx, tx, db, s); w.state == Replay(w.trace, tx, s)
    decreases h, 0
  {
    match h
    case Respond(_) =>
    case Serve(inner, next) =>
      var m := Wrap(inner, ctx, db, s);
      WrapFollowsTrace(inner, ctx, tx, db, s);
      HandlerFollowsTrace(next, ctx, tx, db, m.handle.state);
      var k := RunHandler(next, ctx, tx, db, m.handle.state);
      ReplayConcat(m.trace, k.trace, tx, s);
  }

  /** The reuse path's shape: a run, the handler's effects taking the handle
      from `s` to `ws`, and a rollback exactly when the handler failed. */
  lemma RunThenMaybeRollback(r: Outcome<()>, tx: TxId, inner: seq<Event>, failed: bool, s: TxState, ws: TxState)
    requires Replay(inner, tx, s) == ws
    requires r.trace == [RunCall(tx)] + inner + (if failed then [RollbackCall(tx)] else [])
    requires r.handle.Handle? && r.handle.state == (if failed then Apply(RollbackCall(tx), tx, ws) else ws)
    ensures r.handle.state == Replay(r.trace, tx, s)
  {
    var tail := if failed then [RollbackCall(tx)] else [];
    RunThen(r.trace, tx, inner, tail, s, ws);
    ReplayOne(RollbackCall(tx), tx, ws);
  }

  /** The reuse path's effects and handle, in terms of the handler's. */
  lemma ReuseShape(h: Handler, ctx: Context, tx: TxId, db: Driver, s: TxState)
    requires TxOf(ctx) == Some(tx)
    ensures var w := RunHandler(h, ctx, tx, db, s);
            var r := Reuse(h, ctx, tx, db, s);
            && r.trace == [RunCall(tx)] + w.trace + (if w.err.Some? then [RollbackCall(tx)] else [])
            && r.handle == Handle(tx, if w.err.Some? then Apply(RollbackCall(tx), tx, w.state) else w.state)
  {
  }

  lemma {:induction false} ReuseFollowsTrace(h: Handler, ctx: Context, tx: TxId, db: Driver, s: TxState)
    requires TxOf(ctx) == Some(tx)
    ensures Reuse(h, ctx, tx, db, s).handle.state == Replay(Reuse(h, ctx, tx, db, s).trace, tx, s)
    decreases h, 1
  {
    var w := RunHandler(h, ctx, tx, db, s);
    HandlerFollowsTrace(h, ctx, tx, db, s);
    ReuseShape(h, ctx, tx, db, s);
    RunThenMaybeRollback(Reuse(h, ctx, tx, db, s), tx, w.trace, w.err.Some?, s, w.state);
  }

  lemma {:induction false} WrapFollowsTrace(h: Handler, ctx: Context, tx: TxId, db: Driver, s: TxState)
    requires TxOf(ctx) == Some(tx)
    ensures Wrap(h, ctx, db, s).handle.state == Replay(Wrap(h, ctx, db, s).trace, tx, s)
    decreases h, 2
  {
    ReuseFollowsTrace(h, ctx, tx, db, s);
    var re := Reuse(h, ctx, tx, db, s);
    if re.err.Some? {
      RenderKeepsState(re.trace, re.err.value, tx, s);
    }
  }

  /** On the fresh path the handle's final state is the one read off the
      effects, from the open state `BeginTxx` returns. */
  lemma {:induction false} FreshFollowsTrace(h: Handler, ctx: Context, db: Driver)
    requires TxOf(ctx).None? && db.begin.Ok?
    ensures Wrap(h, ctx, db, Open).handle.state == Replay(Wrap(h, ctx, db, Open).trace, db.begin.value, Open)
  {
    var tx := db.begin.value;
    FreshDelegates(h, ctx, db, tx);
    HandlerFollowsTrace(h, WithTx(ctx, tx), tx, db, Open);
    WrapFnFollowsTrace(db, HandlerWork(h, ctx, db));
    var f := Fresh(h, ctx, db);
    if f.err.Some? {
      RenderKeepsState(f.trace, f.err.value, tx, Open);
    }
  }

  /** Any handler, nested handlers included, failing on a fresh request whose
      rollback goes through: the renderer gets the 404 wrapper exactly when the
      error is a no-rows error and the handle was still open, and otherwise the
      handler's error unchanged (a nested handler that already rolled back
      leaves the rollback with `ErrTxDone`, so no remapping happens). */
  lemma FreshFailureRendered(h: Handler, ctx: Context, db: Driver)
    requires TxOf(ctx).None? && db.begin.Ok? && db.rollback.None?
    ensures var tx := db.begin.value;
            var w := RunHandler(h, WithTx(ctx, tx), tx, db, Open);
            var r := Wrap(h, ctx, db, Open);
            w.err.Some? ==>
              && r.err == Some(if w.state == Open && Is(w.err.value, NoRows)
                               then StatusError(NotFound, w.err.value) else w.err.value)
              && r.trace[|r.trace| - 1] == RenderCall(r.err.value)
              && Rollbacks(r.trace, tx) == Rollbacks(w.trace, tx) + 1
  {
    var tx := db.begin.value;
    var w := RunHandler(h, WithTx(ctx, tx), tx, db, Open);
    if w.err.Some? {
      var rb := Rollback(tx, w.state, db.rollback, w.err.value);
      assert w.state == Open ==> rb.err == RollbackResult(w.err.value, None);
      FreshDelegates(h, ctx, db, tx);
      var f := Fresh(h, ctx, db);
      assert f.err == Some(rb.err);
      assert Rollbacks(f.trace, tx) == Rollbacks(w.trace, tx) + 1;
      RenderKeepsRollbacks(f.trace, rb.err, tx);
    }
  }

  /** Any handler succeeding on a fresh request whose commit goes through, or
      meets `ErrTxDone` because a nested handler finished the transaction:
      nothing is rendered and the request's trace ends with the one commit. */
  lemma FreshSuccessRendersNothing(h: Handler, ctx: Context, db: Driver)
    requires TxOf(ctx).None? && db.begin.Ok? && db.commit.None?
    ensures var tx := db.begin.value;
            var w := RunHandler(h, WithTx(ctx, tx), tx, db, Open);
            var r := Wrap(h, ctx, db, Open);
            w.err.None? ==>
              && r.err.None?
              && r.trace == [BeginCall, RunCall(tx)] + w.trace + [CommitCall(tx)]
              && Commits(r.trace, tx) == 1
  {
    var tx := db.begin.value;
    FreshDelegates(h, ctx, db, tx);
  }

  /** A handler's own wrapping keeps the 404 mapping: `fmt.Errorf("get user:
      %w", sql.ErrNoRows)` returned by a handler on a fresh request whose
      rollback goes through is rendered as a 404 wrapper around that error. */
  lemma AppWrappedNoRowsRendersNotFound(ctx: Context, db: Driver)
    requires TxOf(ctx).None? && db.begin.Ok? && db.rollback.None?
    ensures var e := Wrapped("get user: ", NoRows);
            var r := Wrap(Respond(Some(e)), ctx, db, Open);
            r.trace[3] == RenderCall(StatusError(NotFound, e))
  {
    var e := Wrapped("get user: ", NoRows);
    assert Is(e, NoRows);
    FailureRendered(ctx, db, e);
  }
}
