# adama: commands, invokers and presence validation, in Dafny

adama is a small Ruby library for the "command with compensating rollback" pattern.
This project models its core and proves properties of the model.

- **Command** (`Commands`). A command is constructed from a keyword-argument hash. Its
  `run` invokes the user's `call` hook. When `call` raises, `run` optionally invokes
  `rollback` and then raises a `CommandError` naming the command.
- **Invoker** (`Invoking`). An invoker class holds an ordered list of command classes,
  set by `invoke`. An invoker instance's `call` constructs each command with the
  invoker's kwargs, appends it to `_called` and only then runs it, with rollback
  disabled. The first failure stops the loop. `rollback` unwinds `_called` in reverse
  and stops at the first `rollback` hook that raises, raising an `InvokerRollbackError`.
  `run` is `call`; on failure it runs `rollback` and then raises an `InvokerError`.
- **Validator** (`Validation`, `ErrorMerge`). A class keeps rule groups, one per
  `validates_presence_of` call. `create_attributes` turns each kwarg into an instance
  variable and adds an accessor for it to the class. `validate!` runs every group
  against the instance, ANDs their verdicts and merges each group's error map into the
  instance's. `merge_errors` keeps the old list of a shared key, followed by the new
  messages with duplicates removed.
- **Errors** (`Errors`). There are three error kinds, each with the fields `error`,
  `command` and `invoker`.

How the model represents Ruby's dynamic parts:

- **User hooks as inputs.** The outcome of every user hook is an input, never
  behaviour. For a single command, `callRaises` and `rollbackRaises` are `Option<Cause>`:
  `None` when the hook returns normally, `Some(e)` when it raises `e`. For an invoker,
  they are maps from a command's position in `_called` to what its hook raises.
  Commands are told apart by that position.
- **Exceptions as results.** A raised exception becomes the `raised: Option<Cause>`
  result of the method that lets it escape.
- **The trace.** `Invoker.trace` records, in order, every construction (`Constructed`)
  and every invocation of a command's `call` hook (`Called`) or `rollback` hook
  (`RolledBack`). The ordering claims are stated over this sequence. `Command.Run`
  returns the hooks it invoked, in order, and the invoker records exactly those.
- **Reflection as sets.** The accessor names the library itself creates are two
  class-level sets: `readers` (methods `a`) and `writers` (methods `a=`). These are the
  `attr_accessor` calls of `create_attributes` and the `attr_reader :kwargs` of the
  `included` hook. `respond_to?` is modelled as membership in these sets; the methods an
  instance inherits from elsewhere are not tracked (see "## Left out"). The ivars set
  from kwargs are a map of their own.
- **Errors as a datatype.** A `BaseError` is a `datatype` with a `Kind`.

Where the repository's tests and its code disagree, the model follows the code.

- `lib/adama/invoker.rb:110-111` appends a command to `_called` before running it. The
  comment at lines 104-106 says this is deliberate, so the command whose `call` raises
  is rolled back too. `spec/adama/invoker_spec.rb:166` expects the fourth command not to
  be rolled back. `Scenarios.FourthCallFails` proves that under the code it is rolled
  back, right after its `call` and before the third.

## Model

| member | source | states |
|---|---|---|
| Nesting.Flatten | lib/adama/invoker.rb:52 | `Array#flatten` on an argument list of items and nested arrays: the items in order, each nested array expanded in place (also `attributes.flatten` at validator.rb:64). Characterised by the `FlattenItems`, `FlattenAppend` and `FlattenArrayArgument` rows |
| Nesting.FlattenItems | lib/adama/invoker.rb:51-53 | flattening a plain argument list gives back the arguments in order |
| Nesting.FlattenAppend | lib/adama/invoker.rb:52 | `flatten` distributes over concatenation of argument lists |
| Nesting.FlattenArrayArgument | lib/adama/validator.rb:64 | an array argument contributes exactly its own flattening, so passing `[a, b], c` is the same as passing `a, b, c` |
| Errors.NewError | lib/adama/errors.rb:6-10 | the record holds `error`, `command` and `invoker` exactly as given, and the kind asked for |
| Errors.OmittedFieldsAreNil | lib/adama/errors.rb:6 | a constructor call that supplies no keyword leaves all three fields nil |
| Errors.KindsShareFields | lib/adama/errors.rb:12-14 | records built from the same keywords are equal if and only if their kinds are equal, so the three subclasses differ only in kind |
| Errors.CommandOf | lib/adama/invoker.rb:77 | `error.respond_to?(:command) ? error.command : nil`: a library error gives its own `command` field, any other error gives nil. Used by the `InvocationFailure` row |
| Commands.CommandFailure | lib/adama/command.rb:42 | the error raised by `run` is a `CommandError` holding the caught error, with `command` the command itself and no invoker |
| Commands.Command.constructor | lib/adama/command.rb:31-33 | `initialize` stores the kwargs hash unchanged, and the `kwargs` reader returns it |
| Commands.Command.Run | lib/adama/command.rb:38-43 | if `call` returns normally, only `call` is invoked and nothing is raised. If `call` raises and rollback is disabled, `rollback` is not invoked and a `CommandError` is still raised. If `call` raises and rollback is enabled, `rollback` is invoked exactly once after `call`, and the `CommandError` is raised unless `rollback` itself raises, in which case that error escapes |
| Commands.ClassCall | lib/adama/command.rb:26-28 | one fresh instance is constructed with exactly the given kwargs (default `{}`) and is run once with rollback enabled, with the same outcomes as `run` |
| Commands.RunBareCommand | lib/adama/command.rb:45-51 | a command with the default no-op `call` and `rollback` runs to completion, raising nothing and invoking only `call` |
| ErrorMerge.Uniq | lib/adama/validator.rb:56 | `uniq` returns a list with no duplicates, holding exactly the elements of its input |
| ErrorMerge.UniqOfNoDup | lib/adama/validator.rb:56 | `uniq` leaves a list that has no duplicates unchanged |
| ErrorMerge.UniqPrefix | lib/adama/validator.rb:56 | appending elements to a list only extends its `uniq` result, so first-occurrence order is kept |
| ErrorMerge.MergedErrors | lib/adama/validator.rb:54-58 | the merged map's keys are those of both maps |
| ErrorMerge.Combined | lib/adama/validator.rb:55-57 | the `merge!` block: `(old + new).uniq` for a key on both sides, otherwise the one list there is. Characterised by the `MergedEntry` and `UniqAfterPrefix` rows |
| ErrorMerge.MergedEntry | lib/adama/validator.rb:54-58 | per key, the merged list holds exactly the messages of both sides. An old list without duplicates is a prefix of the merged list. For a key on both sides, that prefix is followed by the first occurrences of the new messages it lacks, in their new order, and the list has no duplicates. A key only in the new map takes its new list |
| ErrorMerge.UniqAfterPrefix | lib/adama/validator.rb:56 | `(old + new).uniq` for an old list without duplicates is the old list followed by the first occurrences of the new elements it lacks, in their order in the new list |
| ErrorMerge.MergeKeepsShape | lib/adama/validator.rb:54-58 | merging two maps whose every entry is `['attribute missing']` gives such a map again |
| ErrorMerge.MergeAll | lib/adama/validator.rb:45-47 | the instance error map after merging the groups' maps one after another, in group order. Characterised by the `MergeAllKeys`, `MergeAllGrows`, `MergeAllKeepsShape`, `MergeAllEmpty` and `MergeAllKeepsMessages` rows, and tied to the loop by `Validation.ValidatedInstance.Validate` |
| ErrorMerge.MergeAllKeys | lib/adama/validator.rb:45-49 | after merging a pass's group maps in order, the keys are exactly those before the pass plus those of some group |
| ErrorMerge.MergeAllGrows | lib/adama/validator.rb:47 | the instance errors are never cleared: an old list without duplicates survives the pass as a prefix of its new list |
| ErrorMerge.MergeAllKeepsShape | lib/adama/validator.rb:45-49 | a pass over maps of `['attribute missing']` entries keeps every list exactly that |
| ErrorMerge.MergeAllEmpty | lib/adama/validator.rb:45-49 | groups with empty error maps leave the instance errors as they were |
| ErrorMerge.MergeAllKeepsMessages | lib/adama/validator.rb:45-49 | a message in an instance entry before the pass, or in any group's entry, is in that instance entry after the pass |
| Validation.HasAccessor | lib/adama/validator.rb:80-81 | an attribute passes the `respond_to?` test when the class has both its reader and its writer. Used by the `MissingErrors` and `PresenceValidator.AttrAccessorExists` rows; what it does not track is under "## Left out" |
| Validation.MissingErrors | lib/adama/validator.rb:79-84 | one pass of a group records a key if and only if that attribute lacks its reader or its writer, always with `['attribute missing']` |
| Validation.NoMissingIffPresent | lib/adama/validator.rb:72-84 | a group records nothing if and only if every one of its attributes has both accessors |
| Validation.CheckStep | lib/adama/validator.rb:74-76 | checking one more attribute ANDs its presence into the verdict and records it exactly when it is missing |
| Validation.GroupsPresentStep | lib/adama/validator.rb:45-48 | running one more group ANDs that group's verdict into the instance verdict |
| Validation.PassRecordsMissing | lib/adama/validator.rb:43-50 | an attribute of any group that lacks an accessor ends up in the instance errors, with `'attribute missing'` in its list |
| Validation.PassWithAllPresent | lib/adama/validator.rb:43-50 | with fresh groups and every attribute present, no group records anything and the instance errors stay as they were (`{}` on a fresh instance) |
| Validation.PassOnlyAdds | lib/adama/validator.rb:35-37 | a pass never removes a key from a group's map, and an instance list without duplicates stays a prefix of its new list |
| Validation.PassKeepsShape | lib/adama/validator.rb:82 | if every list is `['attribute missing']` before a pass, then so is every list after it, in the groups and in the instance |
| Validation.PassOnFreshGroups | lib/adama/validator.rb:43-50 | a first pass leaves the instance errors holding exactly the attributes some group misses, each with `['attribute missing']` |
| Validation.ValidatedClass.constructor | lib/adama/validator.rb:3-17 | a fresh class has no rule groups, and of the accessors the library creates it has only the `kwargs` reader |
| Validation.ValidatedClass.AddAccessor | lib/adama/validator.rb:29-31 | `attr_accessor key` adds `key` to both the readers and the writers and leaves the rule groups alone |
| Validation.ValidatedClass.ValidatesPresenceOf | lib/adama/validator.rb:11-13 | exactly one fresh rule group over the flattened names is appended, the existing groups are kept, and the accessors do not change |
| Validation.PresenceValidator.constructor | lib/adama/validator.rb:63-66 | a new group holds the flattened names, an empty error map and no verdict |
| Validation.PresenceValidator.AttrAccessorExists | lib/adama/validator.rb:79-84 | the result is whether the attribute has both a reader and a writer. When it does not, its key is set to `['attribute missing']` |
| Validation.PresenceValidator.Validate | lib/adama/validator.rb:72-77 | the verdict is whether every attribute is present, and every missing attribute is added to the group's errors. Each attribute is checked, even after a miss |
| Validation.ValidatedInstance.constructor | lib/adama/validator.rb:35-37 | a fresh instance has no ivars, an empty error map and no verdict |
| Validation.ValidatedInstance.Read | lib/adama/validator.rb:27-31 | `send(key)` through the reader `attr_accessor` creates: the ivar's value, nil for a reader whose ivar this instance never set, and no answer without a reader. Characterised by the `CreateAttributes` and `AccessorsCarryOver` rows |
| Validation.ValidatedInstance.CreateAttributes | lib/adama/validator.rb:25-33 | each kwarg becomes an ivar holding its value, and the class gains a reader and a writer for each key, so every key reads back its value. Nothing else changes |
| Validation.ValidatedInstance.MergeErrors | lib/adama/validator.rb:54-58 | the instance errors become the merge of the old map with the new one, and nothing else changes |
| Validation.ValidatedInstance.RunGroup | lib/adama/validator.rb:46-48 | one loop iteration: the group records its pass, its errors are merged into the instance's, and its verdict is ANDed into `valid?` |
| Validation.ValidatedInstance.Validate | lib/adama/validator.rb:43-50 | every group records one pass in order. `valid?` is the AND over all groups of "every attribute has both accessors". The instance errors are the old map with each group's map merged in, in order |
| Validation.ValidatedInstance.ValidateAttributes | lib/adama/validator.rb:20-23 | `create_attributes` and then `validate!`: every kwarg reads back, and the verdict and errors are as for `validate!` against the enlarged accessor sets |
| Invoking.FirstFailure | lib/adama/invoker.rb:108-111 | an index no larger than the list length, marking a command whose `call` raises whenever it is less |
| Invoking.FirstFailureSpec | lib/adama/invoker.rb:108-111 | no `call` before the first failure raises |
| Invoking.FirstFailureAt | lib/adama/invoker.rb:108-111 | the first failure is the first command whose `call` raises after all earlier ones returned |
| Invoking.FirstFailureNone | lib/adama/invoker.rb:108-111 | if no `call` raises, the loop reaches the end of the list |
| Invoking.FailingRollback | lib/adama/invoker.rb:92-97 | the position where the unwind stops, if any, is one of the unwound positions, and its `rollback` raises |
| Invoking.FailingRollbackSpec | lib/adama/invoker.rb:92-97 | no `rollback` above the stopping position raises. If there is no stop, no `rollback` raises at all |
| Invoking.FailingRollbackAt | lib/adama/invoker.rb:92-97 | the unwind stops at the highest position whose `rollback` raises |
| Invoking.Forward | lib/adama/invoker.rb:107-113 | the trace of `call` over the first `count` classes: construct, then run, one class at a time in list order, with twice as many events as classes. Characterised by the `ForwardAt` and `ForwardPositions` rows |
| Invoking.ForwardAt | lib/adama/invoker.rb:108-111 | the t-th command is constructed, then run, and both happen before the next one is constructed, so construction, append and execution order all follow the list |
| Invoking.ForwardPositions | lib/adama/invoker.rb:108-111 | the forward part never rolls back, and it touches only the positions it appends |
| Invoking.Backward | lib/adama/invoker.rb:91-98 | the trace of an unwind over positions `lo .. n-1`: one `rollback` per position, from the last down to `lo`, as many events as positions. Characterised by the `BackwardAt`, `BackwardExtend`, `BackwardOnce` and `BackwardRollsBack` rows |
| Invoking.BackwardAt | lib/adama/invoker.rb:92 | the unwind visits the positions in exact reverse order of append |
| Invoking.BackwardExtend | lib/adama/invoker.rb:92-97 | unwinding one more entry adds one `rollback` at the end, for the lower position |
| Invoking.BackwardOnce | lib/adama/invoker.rb:92-97 | no entry is rolled back twice in one unwind |
| Invoking.BackwardRollsBack | lib/adama/invoker.rb:92-97 | the unwind only invokes `rollback`, and only on positions in its range |
| Invoking.RunTrace | lib/adama/invoker.rb:71-113 | the trace of `run`: the forward part up to and including the first failing `call`, then the unwind from that command down, stopping at the first raising `rollback`. Characterised by the `CompletedRunTrace`, `FailedRunTrace`, `NothingRunsAfterFailure` and `RollbacksInReverse` rows |
| Invoking.CompletedRunTrace | lib/adama/invoker.rb:107-113 | when no `call` raises, a run constructs and runs every command of the list, in order, and rolls back nothing |
| Invoking.FailedRunTrace | lib/adama/invoker.rb:71-80 | when command k fails, exactly the first k+1 commands are constructed and run, then the unwind starts with the failing command itself, and it reaches position 0 when no `rollback` raises |
| Invoking.NothingRunsAfterFailure | lib/adama/invoker.rb:108-111 | every construction or run in a run's trace concerns a command up to the first failing one, so no later command is constructed or run |
| Invoking.RollbacksInReverse | lib/adama/invoker.rb:91-98 | once a run starts rolling back, it does nothing else, and each rollback is of a strictly lower position than the previous one. So each command is rolled back at most once per run, in reverse order |
| Invoking.InvocationFailure | lib/adama/invoker.rb:75-79 | an `InvokerError` holding the caught error, that error's `command` when it has one (nil otherwise) and the invoker |
| Invoking.RollbackFailure | lib/adama/invoker.rb:96 | an `InvokerRollbackError` holding the caught error, the command whose `rollback` raised, and the invoker |
| Invoking.InvokerClass.constructor | lib/adama/invoker.rb:57-59 | the command list defaults to empty |
| Invoking.InvokerClass.Invoke | lib/adama/invoker.rb:51-53 | `invoke` replaces the command list with its flattened arguments, and does not append to it |
| Invoking.InvokerClass.Call | lib/adama/command.rb:26-28 | the class-level `call` constructs one fresh invoker with the given kwargs and runs it. Its trace is the run's trace, its `_called` holds one fresh command per class up to the first failure, each built with those kwargs. It raises nothing when no `call` raises. Otherwise it raises the failing rollback's `InvokerRollbackError` if one raises, and else the `InvokerError` wrapping the failing command's `CommandError`, both naming the returned invoker |
| Invoking.Invoker.constructor | lib/adama/invoker.rb:83-85 | a new invoker stores its kwargs and starts with `_called` empty and nothing done |
| Invoking.Invoker.CallNext | lib/adama/invoker.rb:108-111 | one loop iteration: a fresh command is built with the invoker's kwargs and appended to `_called` before it is run. The trace records every hook that `run` invoked, and it holds only `call`, so the command never rolls itself back. A raising `call` gives a `CommandError` naming that command |
| Invoking.Invoker.Call | lib/adama/invoker.rb:107-113 | `_called` gains exactly the commands up to and including the first failing one (all of them when none fails). Each is fresh, of the listed class and built with the invoker's kwargs. Its trace is the forward part, and the result is the failing command's `CommandError` |
| Invoking.Invoker.Rollback | lib/adama/invoker.rb:91-99 | `_called` is unchanged. `rollback` is invoked on its entries from last to first, stopping right after the first one that raises. The result is an `InvokerRollbackError` naming that command and the invoker, or nothing when none raises |
| Invoking.Invoker.Run | lib/adama/invoker.rb:71-80 | the trace grows by exactly the run's trace. On success nothing is raised. On failure the rollback happens before raising: if a `rollback` raised, its `InvokerRollbackError` escapes and no `InvokerError` is raised; otherwise an `InvokerError` wrapping the failing command's `CommandError` is raised |
| Scenarios.PresentKwarg | spec/adama/validator_examples.rb:8-16 | `validates_presence_of :foo` and an instance given `foo` validate with `valid?` true and empty errors |
| Scenarios.ExampleOutcome | spec/adama/validator_examples.rb:18-32 | with groups `[foo, key, jar]` and `[jar, jar, binks]` and only `foo` given, `valid?` is false and the errors are exactly `key`, `jar` and `binks`, each with one `'attribute missing'` |
| Scenarios.MissingAttributes | spec/adama/validator_examples.rb:18-32 | the same run, built through the class and instance methods |
| Scenarios.WorkedExample | spec/adama/validator_examples.rb:18-32 | the worked example with its own names, `:foo`, `:key`, `:jar` and `:binks` |
| Scenarios.AccessorsCarryOver | lib/adama/validator.rb:29-31 | an accessor created for one instance is present for later instances of the class: a second instance given no kwargs passes, and its `foo` reads nil |
| Scenarios.CarryFirst | lib/adama/validator.rb:82 | the first pass of a group over an absent `foo` records `foo` in the group and the instance |
| Scenarios.CarrySecond | lib/adama/validator.rb:65 | a second pass with `foo` present is valid, yet the group still holds the first error |
| Scenarios.ErrorsCarryOver | lib/adama/validator.rb:65 | a group's errors are never cleared, so a valid later instance of the class still receives the earlier instance's error |
| Scenarios.EmptyInvokerRuns | lib/adama/invoker.rb:57-59 | an invoker whose list was never set runs successfully with `_called` empty |
| Scenarios.ForwardFour | spec/adama/invoker_spec.rb:49-62 | four commands are constructed and run in declared order |
| Scenarios.FourthCallTrace | spec/adama/invoker_spec.rb:142-167 | with the fourth `call` raising, the run invokes `rollback` on the fourth, third, second and first commands, in that order |
| Scenarios.FourthCallFails | spec/adama/invoker_spec.rb:150-167 | the same run through the class-level `call`: four commands are called and the trace is as above. The error raised is an `InvokerError` carrying the fourth command's `CommandError`, that command and the invoker. The fourth command is rolled back, unlike the expectation at line 166. The command named in the error is an instance of the fourth class |
| Scenarios.FourthRollbackFails | spec/adama/invoker_spec.rb:186-209 | after a successful run of four commands, an explicit `rollback` whose fourth hook raises invokes only that hook and raises an `InvokerRollbackError` naming the fourth command and the invoker. The command named in the error is an instance of the fourth class |

## Left out

- Ruby metaprogramming (`class_eval`, `attr_accessor`, `instance_variable_set`, `respond_to?`, the `included` hooks) is modelled as two class-level sets of accessor names and an ivar map, not as reflection.
- The bodies of user `call` and `rollback` hooks are foreign code. Only their outcomes are modelled, as inputs. A hook is assumed not to change the invoker or command state.
- Raise and rescue are modelled as returned `Option<Cause>` values. Backtraces, messages and exception classes other than the three error kinds are left out. A raised foreign exception is identified only by a tag.
- Constructors of user command classes are assumed not to raise. So the path where `command_klass.new(kwargs)` raises at invoker.rb:109, which is rescued at invoker.rb:73 into an `InvokerError` with `command: nil`, is not modelled.
- `to_s` of the errors is left out. errors.rb defines none, so the format expected by spec/adama/errors_spec.rb:10-16 has no source here.
- Instance-level `invoke` is left out. spec/adama/invoker_spec.rb:101 and 110 use it, but no core file defines it.
- The validator is wired into `Command#initialize` in a file that is not part of this model. command.rb:31-33 only stores the kwargs, so the accessors expected by spec/adama/command_examples.rb:23-28 belong to `Validation.ValidatedInstance.CreateAttributes`, which is modelled standalone.
- The `oldval << newval` branch of `merge_errors` (validator.rb:56) is unreachable, because rule groups only produce arrays. Only the array branch is modelled.
- Ruby hash iteration order in `create_attributes` is abstracted: the loop takes the keys in an unspecified order, and its result does not depend on that order.
- Object identity, mocks and RSpec are left out. Commands are identified by their position in `_called`.
- Commands.ClassCall: Ruby returns the instance only when `run` returns normally. The model returns it in both cases, so the contract can say what happened to it.
- Invoking.InvokerClass.Call: as for `ClassCall`, the invoker is returned whether or not `run` raised, so that the error can name it.
- Validation.ValidatedInstance.Validate: this member requires the class's rule groups to be distinct objects. A class built with `ValidatedClass.constructor` and `ValidatesPresenceOf` always satisfies this, since `ValidatedClass.Valid` is preserved.
- CreateAttributes: the contract says the instance errors and verdict are unchanged and every key is accepted. In Ruby, a kwarg named `errors` or `valid` overwrites the library's own `@errors` or `@valid` (validator.rb:27, 36, 40), and `attr_accessor :errors` replaces `errors`. For example, `validate_attributes!(errors: 'x')` then fails in `merge_errors` with `NoMethodError`. A key that is not a valid instance-variable name (such as `foo?` or `a-b`) raises `NameError` at validator.rb:27, after the earlier keys were applied. Kwarg names are treated as separate from the library's own state and always valid.
- ValidateAttributes: inherits the key collisions and `NameError` cases of `CreateAttributes`. For such keys, Ruby raises where the model gives a verdict and an error map.
- Validation.HasAccessor: presence is checked only against the accessors the library creates (`kwargs`, and the kwarg names). Methods an instance has from elsewhere, such as `errors`, `valid?`, `validate!` or those of `Object`, are not tracked. So `validates_presence_of :!` passes in Ruby, where `!` and `!=` exist, but the model records it as missing.
- Invoking.Invoker.CallNext: every listed class is treated as a plain command whose `run` takes `enable_rollback:`. Ruby would raise `ArgumentError` for a listed invoker class, whose `run` takes no arguments (invoker.rb:71, 111), after appending it. The unwind would then run and the `InvokerError` would have `command: nil`, one way to reach the nil branch at invoker.rb:77. Any exception raised by a command class's `new` at invoker.rb:109 (a `NameError` from `create_attributes`, an `ArgumentError` from an `initialize` that takes no arguments, a `NoMethodError` for a listed object without `new`) reaches that branch too, before any command exists; the model leaves it out with the other constructor failures (see the line on constructors). The model does not capture that path. Its `CommandOf` and `InvocationFailure` still state the nil case for any error without a `command`.
- Exceptions outside `StandardError`: only `StandardError` is rescued (command.rb:40, invoker.rb:73, 95). A hook raising something else, such as `NotImplementedError`, escapes with no rollback and no wrapping. The model treats every raised cause as rescued.
- Symbol names: attribute names, kwarg names and error-map keys are Ruby symbols or strings, modelled as one `string` type (`Commands.Symbol`, command.dfy). A symbol and the string with the same name are different hash keys in Ruby, but `respond_to?` accepts either (validator.rb:80-81), and `@errors[attribute]` (validator.rb:82) and `merge!` (validator.rb:55) keep the two apart. So `validates_presence_of :foo` together with `validates_presence_of 'foo'`, on an instance without `foo`, gives two error keys in Ruby and one in the model. Mixing string and symbol names is not modelled, and `Validation.PassOnFreshGroups` holds only for names given in one form.
- Integer widths play no part in the source, and the model uses unbounded integers throughout.
