/**
  Error values seen by the transactional package: the two sentinels of
  `database/sql`, opaque errors of the unit of work or the driver, and the
  wrappers the package builds with `fmt.Errorf("...: %w", ...)` and
  `httperr.Wrap`. `Is` walks the `%w` chain the way Go's `errors.Is` does,
  but compares errors structurally. For the sentinels, the only targets the
  package tests for, that is Go's identity; for two wrappers built separately
  with the same content it is not, since Go compares those by pointer.
 */
module Errors {
  import opened Options

  /** A collaborator call that either yields a value or fails with an error. */
  datatype Result<+T> = Ok(value: T) | Err(error: Error)

  /** `http.StatusNotFound`, the status `rollback` attaches to a no-rows error. */
  const NotFound: nat := 404

  const TxDoneText := "sql: transaction has already been committed or rolled back"
  const NoRowsText := "sql: no rows in result set"
  const BeginPrefix := "failed to begin transaction: "
  const CommitPrefix := "failed to commit transaction: "
  const RollbackPrefix := "failed to rollback: "

  datatype Error =
    | TxDone                                         // sql.ErrTxDone
    | NoRows                                         // sql.ErrNoRows
    | Other(msg: string)                             // any other error, known by its text
    | BeginFailed(cause: Error)                      // "failed to begin transaction: %w"
    | CommitFailed(cause: Error)                     // "failed to commit transaction: %w"
    | RollbackFailed(original: string, cause: Error) // "failed to rollback: %s: %w"
    | StatusError(status: nat, cause: Error)         // httperr.Wrap(err, status)
    | Wrapped(prefix: string, cause: Error)          // an application's fmt.Errorf("…: %w", err)

  /** True of the errors that wrap another one with `%w` (or unwrap to it). */
  predicate Wraps(e: Error) {
    e.BeginFailed? || e.CommitFailed? || e.RollbackFailed? || e.StatusError? || e.Wrapped?
  }

  /** `errors.Unwrap`. */
  function Unwrap(e: Error): Option<Error> {
    if Wraps(e) then Some(e.cause) else None
  }

  /** `errors.Is(e, target)`: `target` is `e` or is found by unwrapping `e`,
      with errors compared structurally (exact for sentinel targets). */
  predicate Is(e: Error, target: Error) {
    e == target || (Wraps(e) && Is(e.cause, target))
  }

  /** The `%w` chain of `e`, outermost first, ending at an error that wraps nothing. */
  function Chain(e: Error): (c: seq<Error>)
    ensures |c| >= 1 && c[0] == e
    ensures forall i :: 0 <= i < |c| - 1 ==> Wraps(c[i]) && c[i + 1] == c[i].cause
    ensures !Wraps(c[|c| - 1])
  {
    if Wraps(e) then [e] + Chain(e.cause) else [e]
  }

  /** `errors.Is` succeeds exactly for the errors on the chain. */
  lemma {:induction false} IsIffOnChain(e: Error, target: Error)
    ensures Is(e, target) <==> target in Chain(e)
  {
    if Wraps(e) {
      IsIffOnChain(e.cause, target);
      assert Chain(e) == [e] + Chain(e.cause);
    }
  }

  /** `err.Error()`: the text of an error. */
  function Message(e: Error): string {
    match e
    case TxDone => TxDoneText
    case NoRows => NoRowsText
    case Other(msg) => msg
    case BeginFailed(c) => BeginPrefix + Message(c)
    case CommitFailed(c) => CommitPrefix + Message(c)
    case RollbackFailed(o, c) => RollbackPrefix + o + ": " + Message(c)
    case StatusError(_, c) => Message(c)
    case Wrapped(p, c) => p + Message(c)
  }

  /** `a` is the tail of the text `b`. */
  predicate EndsWith(b: string, a: string) {
    |a| <= |b| && b[|b| - |a|..] == a
  }

  /** A wrapper's text ends with its cause's text. */
  lemma WrapperEndsWithCause(e: Error)
    requires Wraps(e)
    ensures EndsWith(Message(e), Message(e.cause))
  {
    var m, mc := Message(e), Message(e.cause);
    match e
    case BeginFailed(c) => assert m == BeginPrefix + mc;
    case CommitFailed(c) => assert m == CommitPrefix + mc;
    case RollbackFailed(o, c) => assert m == (RollbackPrefix + o + ": ") + mc;
    case StatusError(_, c) =>
    case Wrapped(p, c) => assert m == p + mc;
  }

  lemma EndsWithTransitive(a: string, b: string, c: string)
    requires EndsWith(a, b) && EndsWith(b, c)
    ensures EndsWith(a, c)
  {
    assert a[|a| - |c|..] == a[|a| - |b|..][|b| - |c|..];
  }

  /** Every error on the chain of `e` still shows as the tail of `e`'s text. */
  lemma {:induction false} ChainMessagesAreSuffixes(e: Error, i: nat)
    requires i < |Chain(e)|
    ensures EndsWith(Message(e), Message(Chain(e)[i]))
  {
    if i > 0 {
      assert Chain(e) == [e] + Chain(e.cause);
      ChainMessagesAreSuffixes(e.cause, i - 1);
      WrapperEndsWithCause(e);
      EndsWithTransitive(Message(e), Message(e.cause), Message(Chain(e)[i]));
    } else {
      assert Message(e)[|Message(e)|..] == [];
    }
  }
}
