/**
  The part of `database/sql` (through sqlx) that the transactional package
  relies on. The driver's answers are inputs; the only rule modelled is the
  documented one of `sql.Tx`: once a transaction has been committed or rolled
  back, every further Commit or Rollback on it fails with `sql.ErrTxDone`.
  The module also holds the trace of effects every operation returns. Besides
  the calls on the database, that trace records each run of a unit of work and
  each error handed to the HTTP error renderer.
 */
module Sql {
  import opened Options
  import opened Errors

  type TxId = nat

  /** A handle is Open until the first Commit or Rollback call finishes it,
      whatever the driver answers to that call. */
  datatype TxState = Open | Committed | RolledBack

  datatype Handle = NoHandle | Handle(id: TxId, state: TxState)

  /** What the driver answers: to `BeginTxx`, and to a Commit or Rollback on an
      Open handle. */
  datatype Driver = Driver(begin: Result<TxId>, commit: Option<Error>, rollback: Option<Error>)

  /** The observable effects of a request, in order: collaborator calls, the
      invocation of a unit of work or handler with a handle, and errors handed
      to the HTTP error renderer. */
  datatype Event =
    | BeginCall
    | RunCall(tx: TxId)
    | CommitCall(tx: TxId)
    | RollbackCall(tx: TxId)
    | RenderCall(err: Error)

  function Begins(trace: seq<Event>): nat {
    multiset(trace)[BeginCall]
  }

  function Commits(trace: seq<Event>, tx: TxId): nat {
    multiset(trace)[CommitCall(tx)]
  }

  function Rollbacks(trace: seq<Event>, tx: TxId): nat {
    multiset(trace)[RollbackCall(tx)]
  }

  /** No Commit call on any handle appears in `trace`. */
  predicate NeverCommits(trace: seq<Event>) {
    forall e :: e in trace ==> !e.CommitCall?
  }

  /** Every handle mentioned in `trace` is `tx`. */
  predicate OnlyTouches(trace: seq<Event>, tx: TxId) {
    forall e :: e in trace && (e.RunCall? || e.CommitCall? || e.RollbackCall?) ==> e.tx == tx
  }

  datatype Call = Call(err: Option<Error>, state: TxState)

  /** `tx.Commit()` or `tx.Rollback()` on a handle in state `s`: it finishes an
      Open handle and reports the driver's answer, and it reports
      `sql.ErrTxDone` on a finished one, which it leaves as it was. */
  function Finish(s: TxState, ending: TxState, answer: Option<Error>): (c: Call)
    requires ending != Open
    ensures c.state != Open
    // an open handle: the driver's answer is reported and the handle ends as asked
    ensures s == Open ==> c.err == answer && c.state == ending
    // a finished handle: `ErrTxDone`, and the handle is left as it was
    ensures s != Open ==> c.err == Some(TxDone) && c.state == s
  {
    if s == Open then Call(answer, ending) else Call(Some(TxDone), s)
  }

  /** The state of handle `tx` after one event, by the same rule as `Finish`:
      the first Commit or Rollback on it decides its fate. */
  function Apply(e: Event, tx: TxId, s: TxState): TxState {
    if s != Open then s
    else if e == CommitCall(tx) then Committed
    else if e == RollbackCall(tx) then RolledBack
    else s
  }

  /** The state of handle `tx` read off a trace of events, from state `s`. */
  function Replay(trace: seq<Event>, tx: TxId, s: TxState): TxState
    decreases |trace|
  {
    if |trace| == 0 then s else Replay(trace[1..], tx, Apply(trace[0], tx, s))
  }

  lemma {:induction false} ReplayConcat(a: seq<Event>, b: seq<Event>, tx: TxId, s: TxState)
    ensures Replay(a + b, tx, s) == Replay(b, tx, Replay(a, tx, s))
    decreases |a|
  {
    if |a| > 0 {
      assert (a + b)[0] == a[0];
      assert (a + b)[1..] == a[1..] + b;
      ReplayConcat(a[1..], b, tx, Apply(a[0], tx, s));
    } else {
      assert a + b == b;
    }
  }

  /** A one-event trace replays as that event. */
  lemma ReplayOne(e: Event, tx: TxId, s: TxState)
    ensures Replay([e], tx, s) == Apply(e, tx, s)
  {
    assert [e][1..] == [];
  }

  /** Handing an error to the renderer does not change any handle. */
  lemma RenderKeepsState(trace: seq<Event>, e: Error, tx: TxId, s: TxState)
    ensures Replay(trace + [RenderCall(e)], tx, s) == Replay(trace, tx, s)
  {
    ReplayConcat(trace, [RenderCall(e)], tx, s);
    ReplayOne(RenderCall(e), tx, Replay(trace, tx, s));
  }

  /** A run event, effects `inner` that take the handle from `s` to `ws`,
      then `tail`: the handle's fate is decided by `tail` from `ws`. */
  lemma RunThen(trace: seq<Event>, tx: TxId, inner: seq<Event>, tail: seq<Event>, s: TxState, ws: TxState)
    requires trace == [RunCall(tx)] + inner + tail && Replay(inner, tx, s) == ws
    ensures Replay(trace, tx, s) == Replay(tail, tx, ws)
  {
    var head := [RunCall(tx)] + inner;
    assert Replay(head, tx, s) == ws by {
      ReplayOne(RunCall(tx), tx, s);
      assert Apply(RunCall(tx), tx, s) == s;
      ReplayConcat([RunCall(tx)], inner, tx, s);
    }
    ReplayConcat(head, tail, tx, s);
  }

  /** `Finish` and the replay of the call it makes agree on the handle's state. */
  lemma FinishAgreesWithReplay(s: TxState, tx: TxId, ending: TxState, answer: Option<Error>)
    requires ending == Committed || ending == RolledBack
    ensures var call := if ending == Committed then CommitCall(tx) else RollbackCall(tx);
            Finish(s, ending, answer).state == Replay([call], tx, s)
  {
    ReplayOne(if ending == Committed then CommitCall(tx) else RollbackCall(tx), tx, s);
  }

  /** A render is not a Rollback call. */
  lemma RenderKeepsRollbacks(trace: seq<Event>, e: Error, tx: TxId)
    ensures Rollbacks(trace + [RenderCall(e)], tx) == Rollbacks(trace, tx)
  {
    assert multiset(trace + [RenderCall(e)]) == multiset(trace) + multiset{RenderCall(e)};
  }
}
