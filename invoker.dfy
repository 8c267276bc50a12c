/**
 * The orchestrator of lib/adama/invoker.rb. An invoker class holds an ordered list of
 * command classes (`invoke`). An invoker instance's `call` constructs each command
 * with the invoker's own kwargs, appends it to `_called` BEFORE running it, and runs it
 * with rollback disabled; the first failure stops the loop. `rollback` unwinds
 * `_called` in reverse order and stops at the first `rollback` hook that raises,
 * raising an `InvokerRollbackError`. `run` is `call`, and on failure `rollback`
 * followed by an `InvokerError`.
 *
 * Commands are identified by their position in `_called`. The outcome of each user hook
 * is an input: `callRaises[p]` is what the `call` of the command at position `p` raises
 * (absent: it returns normally), `rollbackRaises[p]` likewise for its `rollback`.
 * `trace` records what the invoker does, in order.
 */
module Invoking {
  import opened Wrappers
  import opened Errors
  import opened Nesting
  import opened Commands

  datatype Event =
    | Constructed(pos: nat, klass: ClassName)   // `command_klass.new(kwargs)`, appended at `pos`
    | Called(pos: nat)                          // the command's `call` hook was invoked (it may raise)
    | RolledBack(pos: nat)                      // the command's `rollback` hook was invoked (it may raise)

  /** The event recording that hook `h` of the command at position `pos` was invoked. */
  function HookEvent(pos: nat, h: Hook): Event
  {
    match h
    case CallHook => Called(pos)
    case RollbackHook => RolledBack(pos)
  }

  function Lookup(outcomes: map<nat, Cause>, pos: nat): (r: Option<Cause>)
  {
    if pos in outcomes then Some(outcomes[pos]) else None
  }

  // ---------------------------------------------------------------------------
  // Which hook fails first, forwards and backwards

  /**
   * The index, within a run of `count` commands appended from position `n0`, of the first
   * command whose `call` raises; `count` when none does.
   */
  function FirstFailure(callRaises: map<nat, Cause>, n0: nat, count: nat): (k: nat)
    ensures k <= count
    ensures k < count ==> n0 + k in callRaises
    decreases count
  {
    if count == 0 then 0
    else if n0 in callRaises then 0
    else 1 + FirstFailure(callRaises, n0 + 1, count - 1)
  }

  /**
   * Unwinding positions `n-1` down to `0`, the first (that is, highest) position whose
   * `rollback` raises, if any.
   */
  function FailingRollback(rollbackRaises: map<nat, Cause>, n: nat): (f: Option<nat>)
    ensures f.Some? ==> f.value < n && f.value in rollbackRaises
  {
    if n == 0 then None
    else if n - 1 in rollbackRaises then Some(n - 1)
    else FailingRollback(rollbackRaises, n - 1)
  }

  /** The lowest position whose `rollback` is invoked when `n` entries are unwound. */
  function UnwindLow(rollbackRaises: map<nat, Cause>, n: nat): (lo: nat)
    ensures lo <= n
  {
    match FailingRollback(rollbackRaises, n)
    case Some(p) => p
    case None => 0
  }

  /** No `call` before the first failure raises. */
  lemma {:induction false} FirstFailureSpec(callRaises: map<nat, Cause>, n0: nat, count: nat)
    ensures forall p :: n0 <= p < n0 + FirstFailure(callRaises, n0, count) ==> p !in callRaises
    decreases count
  {
    if count > 0 && n0 !in callRaises {
      FirstFailureSpec(callRaises, n0 + 1, count - 1);
    }
  }

  /**
   * The unwind stops at the highest position whose `rollback` raises; when none raises,
   * no position below `n` has a raising `rollback`.
   */
  lemma {:induction false} FailingRollbackSpec(rollbackRaises: map<nat, Cause>, n: nat)
    ensures var f := FailingRollback(rollbackRaises, n);
            && (f.Some? ==> forall p :: f.value < p < n ==> p !in rollbackRaises)
            && (f.None? ==> forall p :: 0 <= p < n ==> p !in rollbackRaises)
  {
    if n > 0 && n - 1 !in rollbackRaises {
      FailingRollbackSpec(rollbackRaises, n - 1);
    }
  }

  /** The first failure is the one the loop meets: any `i` with all earlier calls normal and call `i` raising. */
  lemma {:induction false} FirstFailureAt(callRaises: map<nat, Cause>, n0: nat, count: nat, i: nat)
    requires i < count && n0 + i in callRaises
    requires forall p :: n0 <= p < n0 + i ==> p !in callRaises
    ensures FirstFailure(callRaises, n0, count) == i
    decreases i
  {
    if i > 0 {
      FirstFailureAt(callRaises, n0 + 1, count - 1, i - 1);
    }
  }

  /** With no `call` raising, the loop runs to the end. */
  lemma {:induction false} FirstFailureNone(callRaises: map<nat, Cause>, n0: nat, count: nat)
    requires forall p :: n0 <= p < n0 + count ==> p !in callRaises
    ensures FirstFailure(callRaises, n0, count) == count
    decreases count
  {
    if count > 0 {
      FirstFailureNone(callRaises, n0 + 1, count - 1);
    }
  }

  /** The unwind stops at the highest position whose `rollback` raises. */
  lemma FailingRollbackAt(rollbackRaises: map<nat, Cause>, n: nat, p: nat)
    requires p < n && p in rollbackRaises
    requires forall q :: p < q < n ==> q !in rollbackRaises
    ensures FailingRollback(rollbackRaises, n) == Some(p)
  {
  }

  // ---------------------------------------------------------------------------
  // Traces

  /**
   * The forward part of a run over the first `count` classes of `ks`, appended from
   * position `n0`: each is constructed, then run.
   */
  function Forward(n0: nat, ks: seq<ClassName>, count: nat): (r: seq<Event>)
    requires count <= |ks|
    ensures |r| == 2 * count
  {
    if count == 0 then []
    else Forward(n0, ks, count - 1) + [Constructed(n0 + count - 1, ks[count - 1]), Called(n0 + count - 1)]
  }

  /** The unwind of positions `n-1` down to `lo`. */
  function Backward(lo: nat, n: nat): (r: seq<Event>)
    ensures |r| == if n <= lo then 0 else n - lo
    decreases n
  {
    if n <= lo then [] else [RolledBack(n - 1)] + Backward(lo, n - 1)
  }

  /** Everything one `run` does, starting with `n0` entries already in `_called`. */
  function RunTrace(cmds: seq<ClassName>, callRaises: map<nat, Cause>, rollbackRaises: map<nat, Cause>,
                    n0: nat): seq<Event>
  {
    var k := FirstFailure(callRaises, n0, |cmds|);
    if k == |cmds| then Forward(n0, cmds, |cmds|)
    else Forward(n0, cmds, k + 1) + Backward(UnwindLow(rollbackRaises, n0 + k + 1), n0 + k + 1)
  }

  /**
   * Construction order, execution order and append order coincide: the t-th command is
   * constructed, then run, before the (t+1)-th is constructed.
   */
  lemma {:induction false} ForwardAt(n0: nat, ks: seq<ClassName>, count: nat, t: nat)
    requires t < count <= |ks|
    ensures Forward(n0, ks, count)[2 * t] == Constructed(n0 + t, ks[t])
    ensures Forward(n0, ks, count)[2 * t + 1] == Called(n0 + t)
  {
    if t < count - 1 {
      ForwardAt(n0, ks, count - 1, t);
    }
  }

  /** A forward part only touches positions `n0 .. n0+count-1`, and never rolls back. */
  lemma {:induction false} ForwardPositions(n0: nat, ks: seq<ClassName>, count: nat, e: Event)
    requires count <= |ks| && e in Forward(n0, ks, count)
    ensures !e.RolledBack? && n0 <= e.pos < n0 + count
  {
    if e in Forward(n0, ks, count - 1) {
      ForwardPositions(n0, ks, count - 1, e);
    }
  }

  /** The unwind visits positions in exact reverse order. */
  lemma {:induction false} BackwardAt(lo: nat, n: nat, t: nat)
    requires lo <= n && t < n - lo
    ensures Backward(lo, n)[t] == RolledBack(n - 1 - t)
    decreases n
  {
    if t > 0 {
      BackwardAt(lo, n - 1, t - 1);
    }
  }

  /** Unwinding one entry further down appends one more `RolledBack` at the end. */
  lemma {:induction false} BackwardExtend(lo: nat, n: nat)
    requires lo < n
    ensures Backward(lo, n) == Backward(lo + 1, n) + [RolledBack(lo)]
    decreases n
  {
    if lo + 1 < n {
      BackwardExtend(lo, n - 1);
    }
  }

  /** No entry is rolled back twice in one unwind. */
  lemma BackwardOnce(lo: nat, n: nat, t1: nat, t2: nat)
    requires lo <= n && t1 < t2 < n - lo
    ensures Backward(lo, n)[t1] != Backward(lo, n)[t2]
  {
    BackwardAt(lo, n, t1);
    BackwardAt(lo, n, t2);
  }

  lemma {:induction false} BackwardRollsBack(lo: nat, n: nat, e: Event)
    requires e in Backward(lo, n)
    ensures e.RolledBack? && lo <= e.pos < n
    decreases n
  {
    if e != RolledBack(n - 1) {
      BackwardRollsBack(lo, n - 1, e);
    }
  }

  /** When every `call` returns normally, a run is exactly the forward part over the whole list. */
  lemma CompletedRunTrace(cmds: seq<ClassName>, callRaises: map<nat, Cause>, rollbackRaises: map<nat, Cause>,
                          n0: nat)
    requires forall p :: n0 <= p < n0 + |cmds| ==> p !in callRaises
    ensures RunTrace(cmds, callRaises, rollbackRaises, n0) == Forward(n0, cmds, |cmds|)
  {
    FirstFailureNone(callRaises, n0, |cmds|);
  }

  /**
   * When command `k` fails, the run is the forward part over the first `k+1` commands
   * (nothing after the failing one is constructed or run), then the unwind, which starts
   * with the failing command itself and, when no `rollback` raises, reaches position 0.
   */
  lemma FailedRunTrace(cmds: seq<ClassName>, callRaises: map<nat, Cause>, rollbackRaises: map<nat, Cause>,
                       n0: nat, k: nat)
    requires k < |cmds| && n0 + k in callRaises
    requires forall p :: n0 <= p < n0 + k ==> p !in callRaises
    ensures var lo := UnwindLow(rollbackRaises, n0 + k + 1);
            && RunTrace(cmds, callRaises, rollbackRaises, n0) == Forward(n0, cmds, k + 1) + Backward(lo, n0 + k + 1)
            && Backward(lo, n0 + k + 1)[0] == RolledBack(n0 + k)
            && ((forall p :: 0 <= p <= n0 + k ==> p !in rollbackRaises) ==> lo == 0)
  {
    FirstFailureAt(callRaises, n0, |cmds|, k);
  }

  /** Every entry of a forward part constructs or runs one of the commands at positions `n0 .. n0+count-1`. */
  lemma ForwardIndex(n0: nat, ks: seq<ClassName>, count: nat, t: nat)
    requires count <= |ks| && t < |Forward(n0, ks, count)|
    ensures !Forward(n0, ks, count)[t].RolledBack? && n0 <= Forward(n0, ks, count)[t].pos < n0 + count
  {
    var h := t / 2;
    assert t == 2 * h || t == 2 * h + 1;
    ForwardAt(n0, ks, count, h);
  }

  /** A run in which no `call` raises is its forward part over the whole list. */
  lemma CompletedRunSplit(cmds: seq<ClassName>, callRaises: map<nat, Cause>, rollbackRaises: map<nat, Cause>, n0: nat)
    requires FirstFailure(callRaises, n0, |cmds|) == |cmds|
    ensures RunTrace(cmds, callRaises, rollbackRaises, n0) == Forward(n0, cmds, |cmds|)
  {
  }

  /** A failed run's trace is its forward part up to the failing command, then the unwind. */
  lemma FailedRunSplit(cmds: seq<ClassName>, callRaises: map<nat, Cause>, rollbackRaises: map<nat, Cause>, n0: nat)
    requires FirstFailure(callRaises, n0, |cmds|) < |cmds|
    ensures var k := FirstFailure(callRaises, n0, |cmds|);
            RunTrace(cmds, callRaises, rollbackRaises, n0)
              == Forward(n0, cmds, k + 1) + Backward(UnwindLow(rollbackRaises, n0 + k + 1), n0 + k + 1)
  {
  }

  /** An entry of a failed run's trace that is not a rollback lies in its forward part. */
  lemma FailedTraceEntry(n0: nat, ks: seq<ClassName>, k: nat, lo: nat, t: nat)
    requires k < |ks| && lo <= n0 + k + 1
    requires t < |Forward(n0, ks, k + 1) + Backward(lo, n0 + k + 1)|
    requires !(Forward(n0, ks, k + 1) + Backward(lo, n0 + k + 1))[t].RolledBack?
    ensures n0 <= (Forward(n0, ks, k + 1) + Backward(lo, n0 + k + 1))[t].pos <= n0 + k
  {
    var fw, bw := Forward(n0, ks, k + 1), Backward(lo, n0 + k + 1);
    if t < |fw| {
      assert (fw + bw)[t] == fw[t];
      ForwardIndex(n0, ks, k + 1, t);
    } else {
      assert (fw + bw)[t] == bw[t - |fw|];
      BackwardAt(lo, n0 + k + 1, t - |fw|);
    }
  }

  /**
   * The entries of a trace shaped like a run that stops after command `k` (or completes,
   * when `k` is the list's length) that are not rollbacks lie at positions `n0 .. n0+k`.
   */
  lemma TraceEntry(tr: seq<Event>, n0: nat, ks: seq<ClassName>, k: nat, lo: nat, t: nat)
    requires k <= |ks|
    requires k == |ks| ==> tr == Forward(n0, ks, |ks|)
    requires k < |ks| ==> lo <= n0 + k + 1 && tr == Forward(n0, ks, k + 1) + Backward(lo, n0 + k + 1)
    requires t < |tr| && !tr[t].RolledBack?
    ensures n0 <= tr[t].pos <= n0 + k && tr[t].pos < n0 + |ks|
  {
    if k == |ks| {
      ForwardIndex(n0, ks, |ks|, t);
    } else {
      FailedTraceEntry(n0, ks, k, lo, t);
    }
  }

  /**
   * Only the commands up to the failing one are ever constructed or run: every entry of a
   * run's trace that is not a rollback concerns a position from `n0` up to the first failure.
   */
  lemma NothingRunsAfterFailure(cmds: seq<ClassName>, callRaises: map<nat, Cause>,
                                rollbackRaises: map<nat, Cause>, n0: nat, t: nat)
    requires t < |RunTrace(cmds, callRaises, rollbackRaises, n0)|
    requires !RunTrace(cmds, callRaises, rollbackRaises, n0)[t].RolledBack?
    ensures var e := RunTrace(cmds, callRaises, rollbackRaises, n0)[t];
            n0 <= e.pos <= n0 + FirstFailure(callRaises, n0, |cmds|) && e.pos < n0 + |cmds|
  {
    var k := FirstFailure(callRaises, n0, |cmds|);
    var lo := UnwindLow(rollbackRaises, n0 + k + 1);
    if k == |cmds| {
      CompletedRunSplit(cmds, callRaises, rollbackRaises, n0);
    } else {
      FailedRunSplit(cmds, callRaises, rollbackRaises, n0);
    }
    TraceEntry(RunTrace(cmds, callRaises, rollbackRaises, n0), n0, cmds, k, lo, t);
  }

  /** In a trace shaped like a failed run, the rollbacks come after the forward part, in reverse order. */
  lemma FailedTraceRollbacks(n0: nat, ks: seq<ClassName>, k: nat, lo: nat, t1: nat, t2: nat)
    requires k < |ks| && lo <= n0 + k + 1
    requires t1 < t2 < |Forward(n0, ks, k + 1) + Backward(lo, n0 + k + 1)|
    requires (Forward(n0, ks, k + 1) + Backward(lo, n0 + k + 1))[t1].RolledBack?
    ensures (Forward(n0, ks, k + 1) + Backward(lo, n0 + k + 1))[t2].RolledBack?
    ensures (Forward(n0, ks, k + 1) + Backward(lo, n0 + k + 1))[t1].pos
          > (Forward(n0, ks, k + 1) + Backward(lo, n0 + k + 1))[t2].pos
  {
    var fw, bw := Forward(n0, ks, k + 1), Backward(lo, n0 + k + 1);
    if t1 < |fw| {
      assert (fw + bw)[t1] == fw[t1];
      ForwardIndex(n0, ks, k + 1, t1);
      assert false;
    }
    assert (fw + bw)[t1] == bw[t1 - |fw|] && (fw + bw)[t2] == bw[t2 - |fw|];
    BackwardAt(lo, n0 + k + 1, t1 - |fw|);
    BackwardAt(lo, n0 + k + 1, t2 - |fw|);
  }

  /**
   * `reverse_each` over `_called`: within one run, every entry after a rollback is a
   * rollback of a strictly lower position, so no command is rolled back twice and the
   * unwind runs in exact reverse order of append.
   */
  lemma RollbacksInReverse(cmds: seq<ClassName>, callRaises: map<nat, Cause>,
                           rollbackRaises: map<nat, Cause>, n0: nat, t1: nat, t2: nat)
    requires t1 < t2 < |RunTrace(cmds, callRaises, rollbackRaises, n0)|
    requires RunTrace(cmds, callRaises, rollbackRaises, n0)[t1].RolledBack?
    ensures RunTrace(cmds, callRaises, rollbackRaises, n0)[t2].RolledBack?
    ensures RunTrace(cmds, callRaises, rollbackRaises, n0)[t1].pos > RunTrace(cmds, callRaises, rollbackRaises, n0)[t2].pos
  {
    var k := FirstFailure(callRaises, n0, |cmds|);
    if k == |cmds| {
      CompletedRunSplit(cmds, callRaises, rollbackRaises, n0);
      ForwardIndex(n0, cmds, |cmds|, t1);
      assert false;
    }
    FailedRunSplit(cmds, callRaises, rollbackRaises, n0);
    FailedTraceRollbacks(n0, cmds, k, UnwindLow(rollbackRaises, n0 + k + 1), t1, t2);
  }

  // ---------------------------------------------------------------------------
  // Errors raised

  /** `InvokerError.new(error: error, command: error.respond_to?(:command) ? error.command : nil, invoker: self)` */
  function InvocationFailure(error: Cause, invoker: object): (e: Cause)
    ensures e.Framework? && e.err.kind == InvokerError && e.err.error == Some(error)
    ensures e.err.command == (if error.Framework? then error.err.command else None)
    ensures e.err.invoker == Some(invoker)
  {
    Framework(NewError(InvokerError, error := Some(error), command := CommandOf(error), invoker := Some(invoker)))
  }

  /** `InvokerRollbackError.new(error: error, command: command, invoker: self)` */
  function RollbackFailure(error: Cause, command: object, invoker: object): (e: Cause)
    ensures e.Framework? && e.err.kind == InvokerRollbackError && e.err.error == Some(error)
    ensures e.err.command == Some(command) && e.err.invoker == Some(invoker)
  {
    Framework(NewError(InvokerRollbackError, error := Some(error), command := Some(command), invoker := Some(invoker)))
  }

  // ---------------------------------------------------------------------------
  // Class-level and instance state

  /** Appending `a` and then `b` appends `r`, their concatenation. */
  lemma AppendBoth<T>(s0: seq<T>, s1: seq<T>, s2: seq<T>, a: seq<T>, b: seq<T>, r: seq<T>)
    requires s1 == s0 + a && s2 == s1 + b && r == a + b
    ensures s2 == s0 + r
  {
  }

  /** The trace of a failed `call` followed by the trace of its `rollback` is the run's trace. */
  lemma FailedRunAppends(cmds: seq<ClassName>, callRaises: map<nat, Cause>, rollbackRaises: map<nat, Cause>,
                         n0: nat, k: nat, t0: seq<Event>, t1: seq<Event>, t2: seq<Event>)
    requires k == FirstFailure(callRaises, n0, |cmds|) && k < |cmds|
    requires t1 == t0 + Forward(n0, cmds, k + 1)
    requires t2 == t1 + Backward(UnwindLow(rollbackRaises, n0 + k + 1), n0 + k + 1)
    ensures t2 == t0 + RunTrace(cmds, callRaises, rollbackRaises, n0)
  {
    FailedRunSplit(cmds, callRaises, rollbackRaises, n0);
    AppendBoth(t0, t1, t2, Forward(n0, cmds, k + 1), Backward(UnwindLow(rollbackRaises, n0 + k + 1), n0 + k + 1),
               RunTrace(cmds, callRaises, rollbackRaises, n0));
  }

  /**
   * What a failed `call` followed by `rollback` raises, from what each of them establishes:
   * the rollback's error when one raises, and otherwise the `InvokerError` wrapping the
   * failing command's error.
   */
  lemma FailedRunOutcome(cmds: seq<ClassName>, callRaises: map<nat, Cause>, rollbackRaises: map<nat, Cause>,
                         n0: nat, k: nat, called: seq<Command>, error: Option<Cause>, rollbackError: Option<Cause>,
                         raised: Option<Cause>, invoker: object)
    requires k == FirstFailure(callRaises, n0, |cmds|) && k < |cmds|
    requires |called| == n0 + k + 1 && error == Some(CommandFailure(callRaises[n0 + k], called[n0 + k]))
    requires rollbackError == match FailingRollback(rollbackRaises, |called|)
                              case Some(f) => Some(RollbackFailure(rollbackRaises[f], called[f], invoker))
                              case None => None
    requires raised == if rollbackError != None then rollbackError else Some(InvocationFailure(error.value, invoker))
    ensures var k := FirstFailure(callRaises, n0, |cmds|);
            raised == if k == |cmds| then None
                      else Some(match FailingRollback(rollbackRaises, n0 + k + 1)
                                case Some(f) => RollbackFailure(rollbackRaises[f], called[f], invoker)
                                case None => InvocationFailure(CommandFailure(callRaises[n0 + k], called[n0 + k]), invoker))
  {
  }

  /** The class-level side of an invoker: `@commands`, the command list set by `invoke`. */
  class InvokerClass {
    var commands: seq<ClassName>

    /** `commands` is `@commands ||= []`: empty until `invoke` is called. */
    constructor ()
      ensures commands == []
    {
      commands := [];
    }

    /** `invoke(*command_list)` replaces the list with the flattened arguments. */
    method Invoke(commandList: seq<Nested<ClassName>>)
      modifies this
      ensures commands == Flatten(commandList)
    {
      commands := Flatten(commandList);
    }

    /**
     * The inherited class method `call(kwargs = {})`: `new(kwargs).tap(&:run)`. The
     * instance is returned in both outcomes so that what happened to it can be stated.
     */
    method Call(callRaises: map<nat, Cause>, rollbackRaises: map<nat, Cause>, kwargs: Kwargs := map[])
      returns (invoker: Invoker, raised: Option<Cause>)
      ensures fresh(invoker) && invoker.cls == this && invoker.kwargs == kwargs
      ensures invoker.trace == RunTrace(commands, callRaises, rollbackRaises, 0)
      ensures var k := FirstFailure(callRaises, 0, |commands|);
              && |invoker.called| == (if k < |commands| then k + 1 else |commands|)
              && (forall p | 0 <= p < |invoker.called| ::
                    fresh(invoker.called[p]) && invoker.called[p].klass == commands[p] &&
                    invoker.called[p].kwargs == kwargs)
      ensures var k := FirstFailure(callRaises, 0, |commands|);
              raised == if k == |commands| then None
                        else Some(match FailingRollback(rollbackRaises, k + 1)
                                  case Some(f) => RollbackFailure(rollbackRaises[f], invoker.called[f], invoker)
                                  case None => InvocationFailure(CommandFailure(callRaises[k], invoker.called[k]), invoker))
    {
      invoker := new Invoker(this, kwargs);
      raised := invoker.Run(callRaises, rollbackRaises);
    }
  }

  class Invoker {
    const cls: InvokerClass
    /** The kwargs every command of a run is constructed with. */
    const kwargs: Kwargs
    /** `_called`: the constructed commands, in append order. */
    var called: seq<Command>
    /** Every user hook the invoker has caused, and every construction, in order. */
    var trace: seq<Event>

    /** `initialize(kwargs = {})`, inherited from Command; `_called` starts empty. */
    constructor (cls: InvokerClass, kwargs: Kwargs := map[])
      ensures this.cls == cls && this.kwargs == kwargs && called == [] && trace == []
    {
      this.cls := cls;
      this.kwargs := kwargs;
      called := [];
      trace := [];
    }

    /**
     * `call`: for each command class in order, construct it with `kwargs`, append it to
     * `_called`, and run it with rollback disabled; stop at the first `CommandError`.
     */
    method Call(callRaises: map<nat, Cause>, rollbackRaises: map<nat, Cause>) returns (raised: Option<Cause>)
      modifies this
      ensures var k := FirstFailure(callRaises, |old(called)|, |cls.commands|);
              |called| == |old(called)| + (if k < |cls.commands| then k + 1 else |cls.commands|)
      ensures called[..|old(called)|] == old(called)
      ensures forall p | |old(called)| <= p < |called| ::
                fresh(called[p]) && called[p].klass == cls.commands[p - |old(called)|] && called[p].kwargs == kwargs
      ensures trace == old(trace) + Forward(|old(called)|, cls.commands, |called| - |old(called)|)
      ensures var n0 := |old(called)|; var k := FirstFailure(callRaises, n0, |cls.commands|);
              raised == (if k < |cls.commands| then Some(CommandFailure(callRaises[n0 + k], called[n0 + k])) else None)
    {
      var cmds := cls.commands;
      var n0 := |called|;
      var i := 0;
      raised := None;
      while i < |cmds| && raised == None
        invariant 0 <= i <= |cmds|
        invariant |called| == n0 + i && called[..n0] == old(called)
        invariant raised == None ==> forall p :: n0 <= p < n0 + i ==> p !in callRaises
        invariant raised != None ==> 0 < i && FirstFailure(callRaises, n0, |cmds|) == i - 1 &&
                                     raised == Some(CommandFailure(callRaises[n0 + i - 1], called[n0 + i - 1]))
        invariant forall p | n0 <= p < |called| ::
                    fresh(called[p]) && called[p].klass == cmds[p - n0] && called[p].kwargs == kwargs
        invariant trace == old(trace) + Forward(n0, cmds, i)
      {
        ghost var before := trace;
        raised := CallNext(callRaises, rollbackRaises, i);
        AppendBoth(old(trace), before, trace, Forward(n0, cmds, i), [Constructed(n0 + i, cmds[i]), Called(n0 + i)],
                   Forward(n0, cmds, i + 1));
        if raised != None {
          FirstFailureAt(callRaises, n0, |cmds|, i);
        }
        i := i + 1;
      }
      if raised == None {
        FirstFailureNone(callRaises, n0, |cmds|);
      }
    }

    /**
     * One turn of `call`'s loop: construct the command class at index `i`, append the new
     * command to `_called` (at position `p`) and run it with rollback disabled. The trace
     * records every hook that `run` invoked, so only `call` is recorded.
     */
    method CallNext(callRaises: map<nat, Cause>, rollbackRaises: map<nat, Cause>, i: nat) returns (raised: Option<Cause>)
      requires i < |cls.commands|
      modifies this
      ensures var p := |old(called)|;
              && |called| == p + 1 && called[..p] == old(called)
              && fresh(called[p]) && called[p].klass == cls.commands[i] && called[p].kwargs == kwargs
              && trace == old(trace) + [Constructed(p, cls.commands[i]), Called(p)]
              && raised == if p in callRaises then Some(CommandFailure(callRaises[p], called[p])) else None
    {
      var p := |called|;
      var command := new Command(cls.commands[i], kwargs);
      trace := trace + [Constructed(p, cls.commands[i])];
      called := called + [command];
      var invoked;
      raised, invoked := command.Run(Lookup(callRaises, p), Lookup(rollbackRaises, p), false);
      trace := trace + seq(|invoked|, t requires 0 <= t < |invoked| => HookEvent(p, invoked[t]));
    }

    /**
     * `rollback`: invoke `rollback` on the entries of `_called` from last to first; when
     * one raises, stop at once and raise an `InvokerRollbackError` naming that command.
     */
    method Rollback(rollbackRaises: map<nat, Cause>) returns (raised: Option<Cause>)
      modifies this
      ensures called == old(called)
      ensures trace == old(trace) + Backward(UnwindLow(rollbackRaises, |called|), |called|)
      ensures raised == match FailingRollback(rollbackRaises, |called|)
                        case Some(f) => Some(RollbackFailure(rollbackRaises[f], called[f], this))
                        case None => None
    {
      var n := |called|;
      var p := n;
      while p > 0
        invariant 0 <= p <= n && called == old(called)
        invariant forall q :: p <= q < n ==> q !in rollbackRaises
        invariant trace == old(trace) + Backward(p, n)
      {
        BackwardExtend(p - 1, n);
        p := p - 1;
        var command := called[p];
        // the `rollback` hook of `command`; its default body is empty
        var error := Lookup(rollbackRaises, p);
        trace := trace + [RolledBack(p)];
        if error != None {
          FailingRollbackAt(rollbackRaises, n, p);
          return Some(RollbackFailure(error.value, command, this));
        }
      }
      assert FailingRollback(rollbackRaises, n) == None;
      raised := None;
    }

    /**
     * `run`: `call`; if it raises, `rollback` and then raise an `InvokerError`. A failing
     * `rollback` raises its `InvokerRollbackError` instead, and no `InvokerError` is raised.
     */
    method Run(callRaises: map<nat, Cause>, rollbackRaises: map<nat, Cause>) returns (raised: Option<Cause>)
      modifies this
      ensures var k := FirstFailure(callRaises, |old(called)|, |cls.commands|);
              |called| == |old(called)| + (if k < |cls.commands| then k + 1 else |cls.commands|)
      ensures called[..|old(called)|] == old(called)
      ensures forall p | |old(called)| <= p < |called| ::
                fresh(called[p]) && called[p].klass == cls.commands[p - |old(called)|] && called[p].kwargs == kwargs
      ensures trace == old(trace) + RunTrace(cls.commands, callRaises, rollbackRaises, |old(called)|)
      ensures var n0 := |old(called)|; var k := FirstFailure(callRaises, n0, |cls.commands|);
              raised == if k == |cls.commands| then None
                        else Some(match FailingRollback(rollbackRaises, n0 + k + 1)
                                  case Some(f) => RollbackFailure(rollbackRaises[f], called[f], this)
                                  case None => InvocationFailure(CommandFailure(callRaises[n0 + k], called[n0 + k]), this))
    {
      ghost var n0 := |called|;
      ghost var cmds := cls.commands;
      var error := Call(callRaises, rollbackRaises);
      assert cls.commands == cmds;
      ghost var k := FirstFailure(callRaises, n0, |cmds|);
      if error == None {
        CompletedRunSplit(cmds, callRaises, rollbackRaises, n0);
        return None;
      }
      assert k < |cmds|;
      ghost var mid, c := trace, called;
      assert |c| == n0 + k + 1 && error == Some(CommandFailure(callRaises[n0 + k], c[n0 + k]));
      assert mid == old(trace) + Forward(n0, cmds, k + 1);
      var rollbackError := Rollback(rollbackRaises);
      assert called == c;
      FailedRunAppends(cmds, callRaises, rollbackRaises, n0, k, old(trace), mid, trace);
      raised := if rollbackError != None then rollbackError else Some(InvocationFailure(error.value, this));
      FailedRunOutcome(cmds, callRaises, rollbackRaises, n0, k, c, error, rollbackError, raised, this);
    }
  }
}
