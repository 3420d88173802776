# transactional — a Dafny model of the transaction lifecycle

This project models the Go package `transactional`. The package runs a unit
of work inside an sqlx transaction. It begins the transaction, runs the work,
and then commits on success or rolls back on failure. For HTTP handlers it
also reuses a transaction that is already in the request context, and it
turns a "no rows" error into a 404.

The driver's answers are inputs, collected in the `Driver` record: the answer
to `BeginTxx`, and the answers to Commit and Rollback on an open handle. The
one rule of `database/sql` the model keeps is this: after a handle has been
committed or rolled back, every further Commit or Rollback on it fails with
`sql.ErrTxDone`. Every operation is a pure function. Each one returns its
error, the trace of effects it had (`Event`s: begin, run, commit, rollback,
render) and the final state of the handle.

Modules:

- `Errors` (errors.dfy): the error values. These are the sentinels
  `sql.ErrTxDone` and `sql.ErrNoRows`, opaque errors, the wrappers the
  package builds with `fmt.Errorf("…: %w")` and `httperr.Wrap`, and
  `Wrapped(prefix, cause)`. That last one is the wrapper an application or a
  driver builds with its own `fmt.Errorf("…: %w", err)`, such as a handler's
  `fmt.Errorf("get user: %w", sql.ErrNoRows)`. The module
  also defines `Is` (Go's `errors.Is`, which walks the `%w` chain), `Chain`
  and `Message` (`err.Error()`).
- `Sql` (sql.dfy): the handle states, the driver's answers, `Finish` (one
  Commit or Rollback call) and the event trace. `Replay` reads a handle's
  state off a trace: the first Commit or Rollback on it decides. It is the
  reference the executors' reported handle states are proved against.
- `Contexts` (contexts.dfy): the request context as a chain of bindings, with
  the lookup under the private `txKey{}`.
- `Transactional` (transactional.dfy): `rollback`, `WrapFn` and `Wrap`. A
  handler is modelled as a small program: `Respond(err)` is application
  logic, and `Serve(inner, next)` serves a nested wrapped handler on the same
  request and then continues.
- `Typed` (typed.dfy): `Typed[T].WrapFn`.

Behaviours of the code that a reader might not expect, all of which the
model keeps:

- When the unit of work fails, `Typed[T].WrapFn` returns the value `fn`
  returned, not the zero value (typed.go:33-35).
- A rollback that fails for a reason other than "already finished" gives an
  error that wraps only the rollback error. The original error survives only
  as text (transactional.go:79).
- The 404 mapping happens inside `rollback`, so it applies on the function
  path as well as the HTTP path. It applies only when the rollback succeeded.
  It never applies to a begin or commit error (transactional.go:74-86).
- A nested wrapped handler that finds the transaction in its context, when it
  fails, rolls the transaction back itself and sends its own error to the error renderer.
  The outer handler never sees that error. The outer handler's commit then
  meets `sql.ErrTxDone`, which counts as success (transactional.go:35-41,
  61-65). `Transactional.NestedFailure` proves this scenario.

## Model

| member | source | states |
|---|---|---|
| Errors.IsIffOnChain | transactional.go:62 | for the single-`%w` wrappers this package builds and opaque leaf errors, `errors.Is(e, target)` holds exactly when `target` is on the `%w` chain of `e`, which is how a wrapped `ErrTxDone` or `ErrNoRows` is still recognised |
| Errors.Chain | transactional.go:54 | the `%w` chain starts at the error itself, each later link is the cause of the one before, and it ends at an error that wraps nothing |
| Errors.ChainMessagesAreSuffixes | transactional.go:54-79 | wrapping with `fmt.Errorf("…: %w")` or `httperr.Wrap` keeps the text of every error on the chain as the tail of the outer message |
| Contexts.TxOfAbsent | transactional.go:34-35 | `ctx.Value(txKey{})` is absent exactly when no transaction was ever bound to the context |
| Contexts.TxOfInnermost | transactional.go:34-36 | when present, the value found is the most recently bound transaction: some binding holds it and no binding after it holds another |
| Contexts.WithTx | transactional.go:44 | a context extended with the handle carries that handle and keeps all earlier bindings |
| Contexts.ValuesKeepTx | transactional.go:72 | the key is private, so host bindings never hide or replace the transaction |
| Sql.Finish | transactional.go:61 | on an open handle a Commit or Rollback reports the driver's answer and finishes the handle as asked; on a handle already finished it reports `ErrTxDone` and changes nothing |
| Sql.FinishAgreesWithReplay | transactional.go:61 | the state one Commit or Rollback leaves the handle in is the state the replay of that call gives |
| Transactional.RollbackResult | transactional.go:75-85 | if the rollback already finished, the original error comes back unchanged and is never remapped; any other rollback failure gives an error whose chain is the rollback error's, with the original kept only in the message; a successful rollback keeps every classification of the original, and the result is a 404 wrapper exactly when the rollback succeeded and the error is `ErrNoRows` |
| Transactional.FailedRollbackChain | transactional.go:79 | after a rollback that fails other than with `ErrTxDone`, `errors.Is` on the result succeeds for the result itself and for exactly what the rollback error is; the original error's classifications are gone |
| Transactional.RolledBackKeepsClassification | transactional.go:82-85 | after a rollback that goes through, every `errors.Is` classification of the original error still holds of the returned error, 404 wrapper or not |
| Transactional.Rollback | transactional.go:74-86 | issues exactly one Rollback call and leaves the handle finished; on a handle that was already finished it returns the original error unchanged |
| Transactional.CommitResult | transactional.go:61-67 | no error exactly when the commit succeeded or failed with `ErrTxDone`; any other failure comes back wrapped as a commit failure |
| Transactional.WrapFn | transactional.go:51-70 | if begin fails: the wrapped begin error, and fn, commit and rollback are never called. Otherwise fn runs once, on the new handle, right after begin. After fn's effects the executor makes exactly one call that finishes the handle: a rollback with the protocol's error if fn failed, a commit whose answer is read as above if fn succeeded. On every return, the handle is finished |
| Transactional.WrapFnFollowsTrace | transactional.go:51-70 | the handle state the executor reports is the state read off its own calls: in the trace of begin, fn's effects and the executor's commit or rollback, the first Commit or Rollback on the handle decides its fate, so a handle fn already finished keeps fn's verdict |
| Transactional.RunHandler | transactional.go:37 | a handler served with a context that carries `tx` never begins or commits anywhere in its chain of nested `Wrap` handlers and touches no other handle; it cannot reopen a finished handle |
| Transactional.HandlerWork | transactional.go:43-46 | the unit of work of the fresh path gives the handler a context that carries the new handle, so nested handlers begin and commit nothing |
| Transactional.Reuse | transactional.go:35-41 | with a handle in the context, the handler runs on that same handle, and nothing begins or commits. A failing handler adds exactly one rollback on that handle and the path returns `rollback(tx, err)`'s error; a succeeding handler gives no error |
| Transactional.Fresh | transactional.go:43-46 | with no handle in the context: if begin fails, the wrapped begin error and the handler never runs. Otherwise there is exactly one begin in the whole chain, nested `Wrap` handlers included. The handler runs on the new handle, exactly one commit happens exactly when the handler succeeds, and on every return the handle is finished. A failing handler gives the rollback protocol's error, a succeeding one the commit's verdict |
| Transactional.Wrap | transactional.go:31-48 | the error handed to the renderer, as the last effect, is exactly the error of the reuse or fresh path, and a path without an error renders nothing; a request whose context carries a handle never begins or commits; a request without one begins exactly once |
| Transactional.HandlerFollowsTrace | transactional.go:35-41 | a handler served on a context that carries the handle, with nested handlers at any depth, leaves the handle in the state read off its calls: the first Commit or Rollback on it decides |
| Transactional.ReuseFollowsTrace | transactional.go:35-41 | the same holds for the reuse path: the handler's effects, then a rollback exactly when the handler failed |
| Transactional.WrapFollowsTrace | transactional.go:31-41 | the same holds for a whole request whose context carries the handle; sending the error to the renderer changes no handle |
| Transactional.FreshFollowsTrace | transactional.go:31-48 | for a request without a handle whose begin succeeds, the final state of the new handle is the one read off the request's whole trace from the open state |
| Transactional.FreshFailureRendered | transactional.go:43-86 | for any handler on a fresh request whose rollback goes through, a failure is rolled back once more and rendered: as a 404 wrapper exactly when it is a no-rows error and the handle was still open, and otherwise unchanged |
| Transactional.FreshSuccessRendersNothing | transactional.go:43-69 | for any handler on a fresh request whose commit goes through or meets `ErrTxDone`, a success renders nothing, and the trace is begin, run, the handler's effects and the one commit |
| Transactional.CompoundLosesNoRows | transactional.go:79-83 | a no-rows error whose rollback fails for another reason no longer satisfies `Is(_, ErrNoRows)` and is not mapped to 404 |
| Transactional.SuccessCommits | transactional.go:43-69 | a handler that succeeds on a fresh request gives begin, run, commit, nothing rendered, and a committed handle |
| Transactional.FailureRendered | transactional.go:57-85 | a handler that fails on a fresh request, when the rollback succeeds, is rolled back once, and the renderer gets a 404 wrapper exactly for a no-rows error and the error unchanged otherwise |
| Transactional.AppWrappedNoRowsRendersNotFound | transactional.go:82-83 | a handler's own `fmt.Errorf("get user: %w", sql.ErrNoRows)` on a fresh request whose rollback goes through is still recognised as a no-rows error and rendered as a 404 wrapper around it |
| Transactional.NestedFailure | transactional.go:35-65 | a nested handler that fails rolls the shared transaction back and renders its error; the outer handler's commit meets `ErrTxDone` and reports nothing; there is one begin and one rendered error |
| Transactional.ReuseFailure | transactional.go:35-39 | on the reuse path a failing handler is run, rolled back on the context's handle and rendered, and nothing is committed |
| Typed.WrapFn | typed.go:23-47 | if begin fails: the zero value, the wrapped begin error, and fn is never called. Otherwise fn's own value comes back on every path, failure included. A failure gives one rollback, no commit and the rollback protocol's error. A success gives one commit, no rollback, no error when the commit succeeds or meets `ErrTxDone`, and otherwise a wrapped commit error. On every return, the handle is finished by exactly one call |
| Typed.AgreesWithUntyped | typed.go:23-47 | for every driver and unit of work, the typed executor returns the same error, trace and handle as the untyped one |

## Left out

- `WithDB` and `WithDBAndType` (transactional.go:16-18, typed.go:13-15): these only build a struct around the database.
- `WrapF`, `HandlerFunc` and `HandlerFunc.ServeHTTP` (transactional.go:26-28, 93-99): these only adapt a function into a `Handler`. The `Handler` datatype stands for both.
- `BeginTxx`, `Commit` and `Rollback` internals, and the driver: their answers are inputs. Only the `ErrTxDone` rule for a finished handle is modelled.
- Context cancellation and deadlines: these are driver I/O behaviour. A cancelled context shows up only as whatever error the driver answers.
- `httperr.NewFWithHandler`, the `http.ResponseWriter` and the error renderer: the model records only the error handed to the renderer (`RenderCall`). It does not model how that error is written to the response.
- `Errors.Message` of an `httperr` wrapper: the `httperr` package is not part of this model. Its text is taken to be the wrapped error's text, and its `Unwrap` is taken to return the wrapped error.
- Opaque errors are identified by their text (`Other(msg)`). Two distinct Go errors with the same text count as the same error in the model.
- Wrapper errors (`BeginFailed`, `CommitFailed`, `RollbackFailed`, `StatusError`, `Wrapped`) are compared structurally. In Go the wrappers `fmt.Errorf` builds are compared by pointer, so two wrappers built separately with the same content are not `errors.Is` of each other. The package only tests against the sentinels `ErrTxDone` and `ErrNoRows`, so its behaviour is unaffected. But `Errors.IsIffOnChain` and `Transactional.FailedRollbackChain` with a wrapper as the target say more than Go does.
- Handler bodies are modelled only by what they do to the transaction: return an error, or serve a nested wrapped handler on the same request. A handler cannot call `tx.Commit()` or `tx.Rollback()` itself, the case the comment at transactional.go:63 anticipates. Nor can it call `WrapFn` or `Typed[T].WrapFn` directly: those ignore the request context (transactional.go:51-52) and would begin a second transaction. So the single-begin and never-commits guarantees of `Transactional.RunHandler`, `Transactional.Fresh` and `Transactional.Wrap` cover nested `Wrap` handlers only.
- Panics: a unit of work or handler that panics is not modelled. `WrapFn`, `Wrap` and `Typed[T].WrapFn` call it with no deferred rollback and no `recover` (transactional.go:43-46, 57-58; typed.go:33). A panic therefore unwinds with the transaction neither committed nor rolled back, and leaves it to the driver. `Work` and `Handler` only return, so every "the handle is finished" promise in the table holds on return only.
- `Errors.Is` covers only the errors the model can build: leaf errors, the package's own wrappers, and application or driver wrappers with one `%w` cause (`Wrapped`). Go's `errors.Is` also succeeds through an error's own `Is(error) bool` method, and it walks the `Unwrap() []error` trees that `errors.Join` and `fmt.Errorf` with several `%w` produce. Neither case can be represented here. The package itself builds neither kind, and a driver error of either kind is treated as an opaque leaf.
- Concurrency: the package has none.
