/**
 * The error records of lib/adama/errors.rb: `BaseError` with its three read-only fields
 * `error`, `command` and `invoker`, and the three subclasses that differ only in kind.
 */
module Errors {
  import opened Wrappers

  /** Which subclass of `BaseError` was raised. */
  datatype Kind = CommandError | InvokerError | InvokerRollbackError

  /**
   * Anything a `rescue` can catch: an exception raised by user code inside a `call` or
   * `rollback` (opaque, told apart only by a tag), or one of the library's own errors.
   */
  datatype Cause = Foreign(tag: nat) | Framework(err: BaseError)

  /**
   * An immutable error record. `command` and `invoker` name the objects involved
   * (a command or invoker instance), `nil` when absent.
   */
  datatype BaseError = BaseError(kind: Kind, error: Option<Cause>, command: Option<object>, invoker: Option<object>)

  /** `Kind.new(error: .., command: .., invoker: ..)`; every keyword not supplied is `nil`. */
  function NewError(kind: Kind, error: Option<Cause> := None, command: Option<object> := None,
                    invoker: Option<object> := None): (e: BaseError)
    ensures e.kind == kind && e.error == error && e.command == command && e.invoker == invoker
  {
    BaseError(kind, error, command, invoker)
  }

  /** `error.respond_to?(:command) ? error.command : nil`: only the library's errors have a `command`. */
  function CommandOf(e: Cause): Option<object>
  {
    match e
    case Foreign(_) => None
    case Framework(b) => b.command
  }

  /** A constructor call that supplies no keyword leaves all three fields `nil`. */
  lemma OmittedFieldsAreNil(kind: Kind)
    ensures NewError(kind).error == None && NewError(kind).command == None && NewError(kind).invoker == None
  {
  }

  /** The three kinds share one field shape: the same keywords give records that differ only in kind. */
  lemma KindsShareFields(k1: Kind, k2: Kind, error: Option<Cause>, command: Option<object>, invoker: Option<object>)
    ensures NewError(k1, error, command, invoker) == NewError(k2, error, command, invoker) <==> k1 == k2
  {
  }
}
