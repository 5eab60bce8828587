/**
 * The error values of the outbox package.  The three sentinels of errors.go
 * are constructors; the `%w` wrapping done by `fmt.Errorf` is `Wrapped`, which
 * keeps the operation name that prefixes the message and the wrapped cause.
 * Text appended with `%v` is not part of an error's identity in Go's
 * `errors.Is` and is not modelled.
 */
module Errors {

  /** The two errors a Go context reports once it is done. */
  datatype ContextError = Canceled | DeadlineExceeded

  datatype Error =
    | Internal                              // ErrInternal
    | NoNewEvents                           // ErrNoNewEvents
    | MissUpdate                            // ErrMissUpdate
    | Context(reason: ContextError)         // ctx.Err()
    | Producer(message: string)             // an error reported by the broker client
    | Wrapped(op: string, cause: Error)     // fmt.Errorf("<op>: %w", cause)

  /** Go's `errors.Is`: the error itself or any error down its `%w` chain. */
  predicate Is(e: Error, target: Error)
  {
    e == target || (e.Wrapped? && Is(e.cause, target))
  }

  /** The innermost error of a `%w` chain. */
  function Root(e: Error): (r: Error)
    ensures !r.Wrapped?
  {
    if e.Wrapped? then Root(e.cause) else e
  }

  /** For a sentinel (an error that wraps nothing), `errors.Is` asks exactly
      whether the chain ends in that sentinel. */
  lemma {:induction false} IsSentinel(e: Error, target: Error)
    requires !target.Wrapped?
    ensures Is(e, target) <==> Root(e) == target
  {
    if e.Wrapped? {
      IsSentinel(e.cause, target);
    }
  }
}
