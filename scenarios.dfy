/**
 * Concrete runs of the validator on a fresh class, as in spec/adama/validator_examples.rb,
 * and two consequences of the class-level state: accessors and errors carry over from
 * one instance of a class to the next.
 */
module Scenarios {
  import opened Wrappers
  import opened Errors
  import opened Nesting
  import opened Commands
  import opened ErrorMerge
  import opened Validation
  import opened Invoking

  /** `validates_presence_of :foo` on a fresh class, then an instance given `foo: 'bar'`. */
  method PresentKwarg() returns (valid: Option<bool>, errors: ErrorMap)
    ensures valid == Some(true) && errors == map[]
  {
    var klass := new ValidatedClass();
    klass.ValidatesPresenceOf([Item("foo")]);
    var instance := new ValidatedInstance(klass);
    ghost var before, after := instance.ValidateAttributes(map["foo" := Val("bar")]);
    PassWithAllPresent(map[], before, after, klass.validators, klass.readers, klass.writers);
    valid, errors := instance.valid, instance.errors;
  }

  /** Two maps of `['attribute missing']` entries with the same keys are equal. */
  lemma SameKeysSameMap(x: ErrorMap, y: ErrorMap)
    requires AllMissing(x) && AllMissing(y) && forall k :: k in x <==> k in y
    ensures x == y
  {
  }

  /** The names of the worked example: distinct, and none of them is `kwargs`. */
  predicate ExampleNames(foo: Symbol, key: Symbol, jar: Symbol, binks: Symbol)
  {
    && foo != key && foo != jar && foo != binks && key != jar && key != binks && jar != binks
    && "kwargs" !in {foo, key, jar, binks}
  }

  /** With only `kwargs` and `foo` readable and `foo` writable, the groups miss `key`, `jar` and `binks`. */
  lemma ExampleMissing(foo: Symbol, key: Symbol, jar: Symbol, binks: Symbol, vs: seq<PresenceValidator>, r: set<Symbol>, w: set<Symbol>)
    requires ExampleNames(foo, key, jar, binks)
    requires |vs| == 2 && vs[0].attributes == [foo, key, jar] && vs[1].attributes == [jar, jar, binks]
    requires r == {"kwargs", foo} && w == {foo}
    ensures forall k :: MissingSomewhere(vs, r, w, k) <==> k in {key, jar, binks}
    ensures !GroupsPresent(vs, r, w)
  {
    forall k
      ensures MissingSomewhere(vs, r, w, k) <==> k in {key, jar, binks}
    {
      if k == key || k == jar {
        assert k in vs[0].attributes;
      } else if k == binks {
        assert k in vs[1].attributes;
      }
    }
    assert key in vs[0].attributes && !HasAccessor(r, w, key);
  }

  /** What the pass of the worked example leaves, from the facts `validate_attributes!` establishes. */
  lemma ExampleOutcome(foo: Symbol, key: Symbol, jar: Symbol, binks: Symbol, kwargs: Kwargs,
                       before: seq<ErrorMap>, after: seq<ErrorMap>, vs: seq<PresenceValidator>,
                       r: set<Symbol>, w: set<Symbol>, valid: Option<bool>, errors: ErrorMap)
    requires ExampleNames(foo, key, jar, binks) && kwargs.Keys == {foo}
    requires |vs| == 2 && vs[0].attributes == [foo, key, jar] && vs[1].attributes == [jar, jar, binks]
    requires r == {"kwargs"} + kwargs.Keys && w == {} + kwargs.Keys
    requires |before| == 2 && forall j | 0 <= j < |before| :: before[j] == map[]
    requires Recorded(before, after, vs, r, w)
    requires valid == Some(GroupsPresent(vs, r, w)) && errors == MergeAll(map[], after)
    ensures valid == Some(false)
    ensures errors == map[key := [AttributeMissing], jar := [AttributeMissing], binks := [AttributeMissing]]
  {
    assert r == {"kwargs", foo} && w == {foo};
    ExampleMissing(foo, key, jar, binks, vs, r, w);
    PassOnFreshGroups(before, after, vs, r, w);
    ExampleErrors(key, jar, binks, errors, vs, r, w);
  }

  /** An error map of `['attribute missing']` entries keyed by the missing names `key`, `jar` and `binks`. */
  lemma ExampleErrors(key: Symbol, jar: Symbol, binks: Symbol, errors: ErrorMap, vs: seq<PresenceValidator>, r: set<Symbol>, w: set<Symbol>)
    requires AllMissing(errors)
    requires forall k :: k in errors <==> MissingSomewhere(vs, r, w, k)
    requires forall k :: MissingSomewhere(vs, r, w, k) <==> k in {key, jar, binks}
    ensures errors == map[key := [AttributeMissing], jar := [AttributeMissing], binks := [AttributeMissing]]
  {
    var expected := map[key := [AttributeMissing], jar := [AttributeMissing], binks := [AttributeMissing]];
    forall k
      ensures k in errors <==> k in expected.Keys
    {
      assert k in expected.Keys <==> k in {key, jar, binks};
    }
    SameKeysSameMap(errors, expected);
  }

  /**
   * `validates_presence_of :foo, :key, :jar` and `validates_presence_of :jar, :jar, :binks`
   * on a fresh class, then an instance given only `foo`: each missing name is recorded once.
   */
  method MissingAttributes(foo: Symbol, key: Symbol, jar: Symbol, binks: Symbol, bar: Value) returns (valid: Option<bool>, errors: ErrorMap)
    requires ExampleNames(foo, key, jar, binks)
    ensures valid == Some(false)
    ensures errors == map[key := [AttributeMissing], jar := [AttributeMissing], binks := [AttributeMissing]]
  {
    var klass := new ValidatedClass();
    FlattenItems([foo, key, jar]);
    FlattenItems([jar, jar, binks]);
    klass.ValidatesPresenceOf(Items([foo, key, jar]));
    var g0 := klass.validators[0];
    klass.ValidatesPresenceOf(Items([jar, jar, binks]));
    var g1 := klass.validators[1];
    assert klass.validators == [g0, g1] && g0.errors == map[] && g1.errors == map[];
    var kwargs := map[foo := bar];
    assert kwargs.Keys == {foo};
    var instance := new ValidatedInstance(klass);
    assert forall j | 0 <= j < |klass.validators| :: klass.validators[j].errors == map[];
    ghost var before, after := instance.ValidateAttributes(kwargs);
    assert |klass.validators| == 2 && klass.validators[0].attributes == [foo, key, jar] && klass.validators[1].attributes == [jar, jar, binks];
    assert klass.readers == {"kwargs"} + kwargs.Keys && klass.writers == {} + kwargs.Keys;
    assert |before| == 2 && forall j | 0 <= j < |before| :: before[j] == map[];
    assert Recorded(before, after, klass.validators, klass.readers, klass.writers);
    ExampleOutcome(foo, key, jar, binks, kwargs, before, after, klass.validators, klass.readers, klass.writers,
                   instance.valid, instance.errors);
    valid, errors := instance.valid, instance.errors;
  }

  /** The worked example with the names of spec/adama/validator_examples.rb:18-32. */
  method WorkedExample() returns (valid: Option<bool>, errors: ErrorMap)
    ensures valid == Some(false)
    ensures errors == map["key" := [AttributeMissing], "jar" := [AttributeMissing], "binks" := [AttributeMissing]]
  {
    valid, errors := MissingAttributes("foo", "key", "jar", "binks", Val("bar"));
  }

  /**
   * An accessor created for one instance is present for every later instance of the class:
   * an instance given no kwargs passes `validates_presence_of :foo` once another instance
   * was given `foo`, and its `foo` reads nil.
   */
  method AccessorsCarryOver() returns (firstValid: Option<bool>, secondValid: Option<bool>, secondFoo: Option<Value>)
    ensures firstValid == Some(true) && secondValid == Some(true)
    ensures secondFoo == Some(Nil)
  {
    var klass := new ValidatedClass();
    klass.ValidatesPresenceOf([Item("foo")]);
    var a := new ValidatedInstance(klass);
    ghost var _, _ := a.ValidateAttributes(map["foo" := Val("bar")]);
    var b := new ValidatedInstance(klass);
    ghost var _, _ := b.ValidateAttributes(map[]);
    firstValid, secondValid, secondFoo := a.valid, b.valid, b.Read("foo");
  }

  /** A pass over a single group leaves a fresh instance holding that group's error map. */
  lemma SingleGroupMerge(x: ErrorMap)
    ensures MergeAll(map[], [x]) == x
  {
    assert [x][..0] == [];
    var m := MergedErrors(map[], x);
    assert forall k | k in m :: m[k] == x[k];
  }

  /** First instance: no kwargs, so `foo` is missing and recorded in the group and the instance. */
  lemma CarryFirst(foo: Symbol, before: seq<ErrorMap>, after: seq<ErrorMap>, vs: seq<PresenceValidator>,
                   r: set<Symbol>, w: set<Symbol>, valid: Option<bool>, errors: ErrorMap)
    requires |vs| == 1 && vs[0].attributes == [foo] && foo !in r
    requires before == [map[]] && Recorded(before, after, vs, r, w)
    requires valid == Some(GroupsPresent(vs, r, w)) && errors == MergeAll(map[], after)
    ensures after == [map[foo := [AttributeMissing]]]
    ensures valid == Some(false) && errors == map[foo := [AttributeMissing]]
  {
    var m := MissingErrors(vs[0].attributes, r, w);
    assert foo in m;
    assert forall k | k in m :: k == foo;
    assert after[0] == map[] + m;
    SameKeysSameMap(after[0], map[foo := [AttributeMissing]]);
    assert after == [after[0]];
    SingleGroupMerge(after[0]);
    assert !HasAccessor(r, w, vs[0].attributes[0]);
  }

  /** Second instance: `foo` is present, yet the group still holds the first instance's error. */
  lemma CarrySecond(foo: Symbol, before: seq<ErrorMap>, after: seq<ErrorMap>, vs: seq<PresenceValidator>,
                    r: set<Symbol>, w: set<Symbol>, valid: Option<bool>, errors: ErrorMap)
    requires |vs| == 1 && vs[0].attributes == [foo] && foo in r && foo in w
    requires before == [map[foo := [AttributeMissing]]] && Recorded(before, after, vs, r, w)
    requires valid == Some(GroupsPresent(vs, r, w)) && errors == MergeAll(map[], after)
    ensures valid == Some(true) && errors == map[foo := [AttributeMissing]]
  {
    NoMissingIffPresent(vs[0].attributes, r, w);
    assert after[0] == before[0] + map[];
    SameKeysSameMap(after[0], before[0]);
    assert after == [before[0]];
    SingleGroupMerge(before[0]);
  }

  /**
   * A rule group's error map is never cleared, so an instance that has every attribute
   * still receives the errors recorded for an earlier instance of its class.
   */
  method ErrorsCarryOver(foo: Symbol, bar: Value) returns (firstErrors: ErrorMap, secondValid: Option<bool>, secondErrors: ErrorMap)
    requires foo != "kwargs"
    ensures firstErrors == map[foo := [AttributeMissing]]
    ensures secondValid == Some(true)
    ensures secondErrors == map[foo := [AttributeMissing]]
  {
    var klass := new ValidatedClass();
    FlattenItems([foo]);
    klass.ValidatesPresenceOf(Items([foo]));
    var g := klass.validators[0];
    assert klass.validators == [g] && g.errors == map[];
    var a := new ValidatedInstance(klass);
    ghost var before, after := a.ValidateAttributes(map[]);
    assert klass.readers == {"kwargs"} && klass.validators == [g];
    assert before == [map[]];
    CarryFirst(foo, before, after, klass.validators, klass.readers, klass.writers, a.valid, a.errors);
    assert g.errors == map[foo := [AttributeMissing]];
    firstErrors := a.errors;
    var kwargs := map[foo := bar];
    var b := new ValidatedInstance(klass);
    ghost var before', after' := b.ValidateAttributes(kwargs);
    assert foo in klass.readers && foo in klass.writers && klass.validators == [g];
    assert before' == [map[foo := [AttributeMissing]]];
    CarrySecond(foo, before', after', klass.validators, klass.readers, klass.writers, b.valid, b.errors);
    secondValid, secondErrors := b.valid, b.errors;
  }

  /** An invoker class whose list was never set runs nothing and raises nothing. */
  method EmptyInvokerRuns() returns (called: seq<Command>, trace: seq<Event>, raised: Option<Cause>)
    ensures called == [] && trace == [] && raised == None
  {
    var cls := new InvokerClass();
    var invoker;
    invoker, raised := cls.Call(map[], map[]);
    called, trace := invoker.called, invoker.trace;
  }

  /** Four commands constructed and run in order. */
  lemma ForwardFour(ks: seq<ClassName>)
    requires |ks| == 4
    ensures Forward(0, ks, 4) ==
            [Constructed(0, ks[0]), Called(0), Constructed(1, ks[1]), Called(1),
             Constructed(2, ks[2]), Called(2), Constructed(3, ks[3]), Called(3)]
  {
    assert Forward(0, ks, 2) == [Constructed(0, ks[0]), Called(0), Constructed(1, ks[1]), Called(1)];
  }

  /** The run trace of four commands whose fourth `call` raises, nothing raising on rollback. */
  lemma FourthCallTrace(ks: seq<ClassName>, e: Cause)
    requires |ks| == 4
    ensures RunTrace(ks, map[3 := e], map[], 0) ==
            [Constructed(0, ks[0]), Called(0), Constructed(1, ks[1]), Called(1),
             Constructed(2, ks[2]), Called(2), Constructed(3, ks[3]), Called(3),
             RolledBack(3), RolledBack(2), RolledBack(1), RolledBack(0)]
  {
    assert FirstFailure(map[3 := e], 0, 4) == 3;
    assert UnwindLow(map[], 4) == 0;
    ForwardFour(ks);
    assert Backward(0, 4) == [RolledBack(3), RolledBack(2), RolledBack(1), RolledBack(0)];
  }

  /**
   * Four commands, the fourth `call` raising: all four are constructed and run in order,
   * then rolled back from the fourth down to the first, and an `InvokerError` carrying the
   * fourth command's `CommandError` is raised. The fourth command is rolled back too, as
   * `call` appends it before running it.
   */
  method FourthCallFails(c1: ClassName, c2: ClassName, c3: ClassName, c4: ClassName, e: Cause)
    returns (invoker: Invoker, raised: Option<Cause>)
    ensures |invoker.called| == 4
    ensures invoker.trace == [Constructed(0, c1), Called(0), Constructed(1, c2), Called(1),
                              Constructed(2, c3), Called(2), Constructed(3, c4), Called(3),
                              RolledBack(3), RolledBack(2), RolledBack(1), RolledBack(0)]
    ensures raised == Some(InvocationFailure(CommandFailure(e, invoker.called[3]), invoker))
    ensures invoker.called[3].klass == c4
  {
    var cls := new InvokerClass();
    cls.Invoke(Items([c1, c2, c3, c4]));
    FlattenItems([c1, c2, c3, c4]);
    assert cls.commands == [c1, c2, c3, c4];
    FourthCallTrace(cls.commands, e);
    invoker, raised := cls.Call(map[3 := e], map[]);
    assert FirstFailure(map[3 := e], 0, 4) == 3;
    assert FailingRollback(map[], 4) == None;
  }

  /**
   * Four commands that all run, then an explicit `rollback` whose fourth command raises:
   * only the fourth command's `rollback` is invoked, and an `InvokerRollbackError` naming
   * it is raised.
   */
  method FourthRollbackFails(c1: ClassName, c2: ClassName, c3: ClassName, c4: ClassName, e: Cause)
    returns (invoker: Invoker, ran: Option<Cause>, raised: Option<Cause>)
    ensures |invoker.called| == 4 && ran == None
    ensures invoker.trace == [Constructed(0, c1), Called(0), Constructed(1, c2), Called(1),
                              Constructed(2, c3), Called(2), Constructed(3, c4), Called(3),
                              RolledBack(3)]
    ensures raised == Some(RollbackFailure(e, invoker.called[3], invoker))
    ensures invoker.called[3].klass == c4
  {
    var cls := new InvokerClass();
    cls.Invoke(Items([c1, c2, c3, c4]));
    FlattenItems([c1, c2, c3, c4]);
    assert cls.commands == [c1, c2, c3, c4];
    assert FirstFailure(map[], 0, 4) == 4;
    invoker, ran := cls.Call(map[], map[3 := e]);
    ForwardFour(cls.commands);
    assert FailingRollback(map[3 := e], 4) == Some(3);
    assert UnwindLow(map[3 := e], 4) == 3;
    raised := invoker.Rollback(map[3 := e]);
  }
}
