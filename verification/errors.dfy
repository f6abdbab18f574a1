/**
 Error values as the command layer sees them: a root error, possibly wrapped
 by any number of context messages (the `errors.Wrap` / `errors.Cause`
 discipline of the pkg/errors library), plus the small failure-compatible
 datatypes the rest of the model uses.

 Root errors are compared by identity in the Go code (`errors.Cause(err) ==
 wire.ErrFormat`); here the two sentinels the command cares about are
 constructors of their own, so identity is constructor equality, and every
 other root error is a `Plain` error carrying its text.
 */
module Errors {

  datatype Error =
    | Format                               // wire.ErrFormat: not a wharf envelope
    | EndOfFile                            // io.EOF: stream ended immediately
    | Plain(text: string)                  // errors.New / fmt.Errorf and foreign errors
    | Wrapped(context: string, inner: Error)  // errors.Wrap(inner, context)

  /** A Go `error` return: nil or an error. */
  datatype Outcome = Pass | Fail(error: Error)

  /** A Go `(value, error)` return pair in which exactly one side is meaningful. */
  datatype Result<+T> = Ok(value: T) | Err(error: Error)

  datatype Option<+T> = None | Some(value: T)

  /** True when the error is a root, that is, not produced by `Wrap`. */
  predicate IsRoot(e: Error) {
    !e.Wrapped?
  }

  /** errors.Wrap: attach a context message, keeping the root cause. */
  function Wrap(e: Error, context: string): (r: Error)
    ensures Cause(r) == Cause(e)
    ensures Contexts(r) == [context] + Contexts(e)
    ensures r != e
  {
    Wrapped(context, e)
  }

  /** errors.Cause: unwrap until reaching an error that is not a wrapper. */
  function Cause(e: Error): (r: Error)
    ensures IsRoot(r)
    ensures IsRoot(e) ==> r == e
  {
    match e
    case Wrapped(_, inner) => Cause(inner)
    case _ => e
  }

  /** The context messages of a wrapped error, outermost first. */
  function Contexts(e: Error): (cs: seq<string>)
    ensures IsRoot(e) <==> cs == []
  {
    match e
    case Wrapped(c, inner) => [c] + Contexts(inner)
    case _ => []
  }

  /** Wrap `e` in every context of `cs`; `cs[0]` ends up outermost. */
  function WrapAll(e: Error, cs: seq<string>): (r: Error)
    decreases |cs|
  {
    if cs == [] then e else Wrap(WrapAll(e, cs[1..]), cs[0])
  }

  /** However many contexts are added, the root cause is the same. */
  lemma {:induction false} WrapAllKeepsCause(e: Error, cs: seq<string>)
    ensures Cause(WrapAll(e, cs)) == Cause(e)
    ensures Contexts(WrapAll(e, cs)) == cs + Contexts(e)
    decreases |cs|
  {
    if cs != [] {
      WrapAllKeepsCause(e, cs[1..]);
      assert [cs[0]] + (cs[1..] + Contexts(e)) == cs + Contexts(e);
    }
  }

  /** Every error is exactly its root cause wrapped in its contexts. */
  lemma {:induction false} ErrorIsWrappedCause(e: Error)
    ensures WrapAll(Cause(e), Contexts(e)) == e
  {
    match e
    case Wrapped(c, inner) =>
      ErrorIsWrappedCause(inner);
      assert Contexts(e)[1..] == Contexts(inner);
    case _ =>
  }

  /** Two errors are equal exactly when their causes and context chains are. */
  lemma ErrorDeterminedByCauseAndContexts(a: Error, b: Error)
    ensures a == b <==> Cause(a) == Cause(b) && Contexts(a) == Contexts(b)
  {
    ErrorIsWrappedCause(a);
    ErrorIsWrappedCause(b);
  }
}
