/**
 * The single-step lifecycle of lib/adama/command.rb. A command is constructed from a
 * keyword-argument hash, and `run` invokes its `call` hook; when `call` raises, `run`
 * optionally invokes the `rollback` hook and then raises a `CommandError` naming the
 * command. The bodies of `call` and `rollback` are user code: each invocation's outcome
 * is an input (`None` for a normal return, `Some(e)` when it raises `e`), and the
 * command records which hooks were invoked, in order.
 */
module Commands {
  import opened Wrappers
  import opened Errors

  type Symbol = string
  type ClassName = string

  /** A keyword-argument value; `Nil` is Ruby's `nil`. */
  datatype Value = Nil | Val(repr: string)

  type Kwargs = map<Symbol, Value>

  /** A user hook invoked on a command instance. */
  datatype Hook = CallHook | RollbackHook

  /** The error `run` raises when `call` raised `error`: a `CommandError` naming the command, no invoker. */
  function CommandFailure(error: Cause, command: object): (e: Cause)
    ensures e.Framework? && e.err.kind == CommandError
    ensures e.err.error == Some(error) && e.err.command == Some(command) && e.err.invoker == None
  {
    Framework(NewError(CommandError, error := Some(error), command := Some(command)))
  }

  class Command {
    /** The Ruby class of the instance (`Command1`, ...). */
    const klass: ClassName
    /** `attr_reader :kwargs`, set once in `initialize`. */
    const kwargs: Kwargs

    /** `initialize(kwargs = {})` stores the hash unchanged and runs nothing. */
    constructor (klass: ClassName, kwargs: Kwargs := map[])
      ensures this.klass == klass && this.kwargs == kwargs
    {
      this.klass := klass;
      this.kwargs := kwargs;
    }

    /**
     * `run(enable_rollback: true)`: invoke `call`; if it raises, invoke `rollback` when
     * enabled and raise a `CommandError` wrapping the caught error. If that `rollback`
     * itself raises, its error escapes the `rescue` clause instead. `invoked` lists the
     * user hooks invoked, in order.
     */
    method Run(callRaises: Option<Cause>, rollbackRaises: Option<Cause>, enableRollback: bool := true)
      returns (raised: Option<Cause>, invoked: seq<Hook>)
      ensures callRaises == None ==> invoked == [CallHook] && raised == None
      ensures callRaises != None && !enableRollback ==>
                invoked == [CallHook] && raised == Some(CommandFailure(callRaises.value, this))
      ensures callRaises != None && enableRollback ==>
                invoked == [CallHook, RollbackHook] &&
                raised == (if rollbackRaises == None then Some(CommandFailure(callRaises.value, this))
                           else rollbackRaises)
    {
      invoked := [CallHook];
      var error := callRaises;
      if error == None {
        return None, invoked;
      }
      if enableRollback {
        invoked := invoked + [RollbackHook];
        var rollbackError := rollbackRaises;
        if rollbackError != None {
          return rollbackError, invoked;
        }
      }
      raised := Some(CommandFailure(error.value, this));
    }
  }

  /**
   * The class method `call(kwargs = {})`: `new(kwargs).tap(&:run)`. One instance is
   * constructed and run once with rollback enabled. Ruby hands the instance back only
   * when `run` returns normally; the model returns it in both cases so that what
   * happened to it can be stated.
   */
  method ClassCall(klass: ClassName, callRaises: Option<Cause>, rollbackRaises: Option<Cause>,
                   kwargs: Kwargs := map[])
    returns (command: Command, raised: Option<Cause>, invoked: seq<Hook>)
    ensures fresh(command) && command.klass == klass && command.kwargs == kwargs
    ensures callRaises == None ==> invoked == [CallHook] && raised == None
    ensures callRaises != None ==>
              invoked == [CallHook, RollbackHook] &&
              raised == (if rollbackRaises == None then Some(CommandFailure(callRaises.value, command))
                         else rollbackRaises)
  {
    command := new Command(klass, kwargs);
    raised, invoked := command.Run(callRaises, rollbackRaises);
  }

  /** A bare command (default, empty `call` and `rollback`) runs to completion, invoking only `call`. */
  method RunBareCommand(klass: ClassName, kwargs: Kwargs) returns (raised: Option<Cause>, invoked: seq<Hook>)
    ensures raised == None && invoked == [CallHook]
  {
    var command;
    command, raised, invoked := ClassCall(klass, None, None, kwargs);
  }
}
