/**
 * The presence validator of lib/adama/validator.rb.
 *
 * A class that includes the validator keeps a list of rule groups (`validators`), one
 * per `validates_presence_of` call, and the accessor names it responds to. Ruby's
 * reflection is modelled as two class-level sets: `readers` (methods `name`) and
 * `writers` (methods `name=`). `create_attributes` stores each kwarg in an instance
 * variable and adds an accessor for it to the CLASS, so names given to one instance are
 * present for every instance of that class. `validate!` runs every rule group against the
 * instance, ANDs their verdicts and merges each group's error map into the instance's.
 * Neither map is ever cleared.
 */
module Validation {
  import opened Wrappers
  import opened Nesting
  import opened Commands
  import opened ErrorMerge

  /** `instance.respond_to?(attribute) && instance.respond_to?("#{attribute}=")`. */
  predicate HasAccessor(readers: set<Symbol>, writers: set<Symbol>, attribute: Symbol)
  {
    attribute in readers && attribute in writers
  }

  /** Every attribute of a rule group has both a reader and a writer. */
  predicate AllPresent(attributes: seq<Symbol>, readers: set<Symbol>, writers: set<Symbol>)
  {
    forall a | a in attributes :: HasAccessor(readers, writers, a)
  }

  /** What one pass of a rule group records: `['attribute missing']` under each missing attribute. */
  function MissingErrors(attributes: seq<Symbol>, readers: set<Symbol>, writers: set<Symbol>): (m: ErrorMap)
    ensures forall a :: a in m <==> a in attributes && !HasAccessor(readers, writers, a)
    ensures AllMissing(m)
  {
    map a | a in attributes && !HasAccessor(readers, writers, a) :: [AttributeMissing]
  }

  /** A rule group records nothing exactly when all of its attributes are present. */
  lemma NoMissingIffPresent(attributes: seq<Symbol>, readers: set<Symbol>, writers: set<Symbol>)
    ensures MissingErrors(attributes, readers, writers) == map[] <==> AllPresent(attributes, readers, writers)
  {
    var m := MissingErrors(attributes, readers, writers);
    if !AllPresent(attributes, readers, writers) {
      var a :| a in attributes && !HasAccessor(readers, writers, a);
      assert a in m;
    } else {
      assert m.Keys == {};
    }
  }

  /**
   * One more attribute checked: the verdict also requires that attribute, and the errors
   * gain it exactly when it is missing.
   */
  lemma CheckStep(e: ErrorMap, attributes: seq<Symbol>, i: nat, readers: set<Symbol>, writers: set<Symbol>)
    requires i < |attributes|
    ensures AllPresent(attributes[..i + 1], readers, writers)
        == (AllPresent(attributes[..i], readers, writers) && HasAccessor(readers, writers, attributes[i]))
    ensures e + MissingErrors(attributes[..i + 1], readers, writers)
         == if HasAccessor(readers, writers, attributes[i]) then e + MissingErrors(attributes[..i], readers, writers)
            else (e + MissingErrors(attributes[..i], readers, writers))[attributes[i] := [AttributeMissing]]
  {
    assert attributes[..i + 1] == attributes[..i] + [attributes[i]];
  }

  /** No rule group object appears twice. */
  predicate Distinct(vs: seq<PresenceValidator>)
  {
    forall i, j :: 0 <= i < j < |vs| ==> vs[i] != vs[j]
  }

  /** Every attribute of every group is present: the verdict of `validate!`. */
  predicate GroupsPresent(vs: seq<PresenceValidator>, readers: set<Symbol>, writers: set<Symbol>)
  {
    forall j | 0 <= j < |vs| :: AllPresent(vs[j].attributes, readers, writers)
  }

  /** One more group checked: the verdict also requires that group's attributes. */
  lemma GroupsPresentStep(vs: seq<PresenceValidator>, i: nat, readers: set<Symbol>, writers: set<Symbol>)
    requires i < |vs|
    ensures GroupsPresent(vs[..i + 1], readers, writers)
        == (GroupsPresent(vs[..i], readers, writers) && AllPresent(vs[i].attributes, readers, writers))
  {
    var p, q := vs[..i + 1], vs[..i];
    assert forall j | 0 <= j < i :: p[j] == q[j];
    assert p[i] == vs[i];
  }

  /**
   * `after[j]` is `before[j]` with what one pass of group `vs[j]` records added: the error
   * maps of the groups across one `validate!`.
   */
  predicate Recorded(before: seq<ErrorMap>, after: seq<ErrorMap>, vs: seq<PresenceValidator>, readers: set<Symbol>, writers: set<Symbol>)
  {
    && |before| == |after| == |vs|
    && forall j | 0 <= j < |vs| :: after[j] == before[j] + MissingErrors(vs[j].attributes, readers, writers)
  }

  lemma RecordedStep(before: seq<ErrorMap>, after: seq<ErrorMap>, vs: seq<PresenceValidator>, i: nat, x: ErrorMap, readers: set<Symbol>, writers: set<Symbol>)
    requires |before| == |vs| && i < |vs|
    requires Recorded(before[..i], after, vs[..i], readers, writers)
    requires x == before[i] + MissingErrors(vs[i].attributes, readers, writers)
    ensures Recorded(before[..i + 1], after + [x], vs[..i + 1], readers, writers)
  {
  }

  /**
   * A pass records every missing attribute: an attribute of any group without reader or
   * writer ends up in the instance errors, with `'attribute missing'` in its list.
   */
  lemma PassRecordsMissing(e: ErrorMap, before: seq<ErrorMap>, after: seq<ErrorMap>, vs: seq<PresenceValidator>,
                           readers: set<Symbol>, writers: set<Symbol>, j: nat, a: Symbol)
    requires Recorded(before, after, vs, readers, writers)
    requires j < |vs| && a in vs[j].attributes && !HasAccessor(readers, writers, a)
    ensures a in MergeAll(e, after) && AttributeMissing in MergeAll(e, after)[a]
  {
    assert a in after[j] && after[j][a] == [AttributeMissing];
    MergeAllKeepsMessages(e, after, a, AttributeMissing);
  }

  /**
   * Rule groups with empty error maps whose attributes are all present record nothing, so
   * the instance errors stay as they were (`{}` for a fresh instance).
   */
  lemma PassWithAllPresent(e: ErrorMap, before: seq<ErrorMap>, after: seq<ErrorMap>, vs: seq<PresenceValidator>,
                           readers: set<Symbol>, writers: set<Symbol>)
    requires Recorded(before, after, vs, readers, writers)
    requires forall j | 0 <= j < |before| :: before[j] == map[]
    requires GroupsPresent(vs, readers, writers)
    ensures forall j | 0 <= j < |after| :: after[j] == map[]
    ensures MergeAll(e, after) == e
  {
    forall j | 0 <= j < |after|
      ensures after[j] == map[]
    {
      NoMissingIffPresent(vs[j].attributes, readers, writers);
    }
    MergeAllEmpty(e, after);
  }

  /**
   * A pass never clears an error: every key of a group's map and of the instance map stays,
   * and an instance list without duplicates stays a prefix of its new list.
   */
  lemma PassOnlyAdds(e: ErrorMap, before: seq<ErrorMap>, after: seq<ErrorMap>, vs: seq<PresenceValidator>,
                     readers: set<Symbol>, writers: set<Symbol>, k: string)
    requires Recorded(before, after, vs, readers, writers)
    requires k in e && NoDup(e[k])
    ensures forall j | 0 <= j < |before| :: before[j].Keys <= after[j].Keys
    ensures k in MergeAll(e, after) && e[k] <= MergeAll(e, after)[k]
  {
    MergeAllGrows(e, after, k);
  }

  /**
   * When every list is `['attribute missing']` before a pass, so is every list after it,
   * in the groups and in the instance.
   */
  lemma PassKeepsShape(e: ErrorMap, before: seq<ErrorMap>, after: seq<ErrorMap>, vs: seq<PresenceValidator>,
                       readers: set<Symbol>, writers: set<Symbol>)
    requires Recorded(before, after, vs, readers, writers)
    requires AllMissing(e) && forall j | 0 <= j < |before| :: AllMissing(before[j])
    ensures forall j | 0 <= j < |after| :: AllMissing(after[j])
    ensures AllMissing(MergeAll(e, after))
  {
    MergeAllKeepsShape(e, after);
  }

  /** Some group of `vs` names `k` and `k` has no reader or no writer. */
  predicate MissingSomewhere(vs: seq<PresenceValidator>, readers: set<Symbol>, writers: set<Symbol>, k: Symbol)
  {
    exists j :: 0 <= j < |vs| && k in vs[j].attributes && !HasAccessor(readers, writers, k)
  }

  /**
   * A first pass, with groups and instance errors still empty, leaves the instance errors
   * holding exactly the missing attributes, each with `['attribute missing']`.
   */
  lemma PassOnFreshGroups(before: seq<ErrorMap>, after: seq<ErrorMap>, vs: seq<PresenceValidator>,
                          readers: set<Symbol>, writers: set<Symbol>)
    requires Recorded(before, after, vs, readers, writers)
    requires forall j | 0 <= j < |before| :: before[j] == map[]
    ensures AllMissing(MergeAll(map[], after))
    ensures forall k :: k in MergeAll(map[], after) <==> MissingSomewhere(vs, readers, writers, k)
  {
    PassKeepsShape(map[], before, after, vs, readers, writers);
    MergeAllKeys(map[], after);
    forall k
      ensures InSomeGroup(after, k) <==> MissingSomewhere(vs, readers, writers, k)
    {
      if InSomeGroup(after, k) {
        GroupKeyIsMissing(before, after, vs, readers, writers, k);
      }
      if MissingSomewhere(vs, readers, writers, k) {
        MissingIsGroupKey(before, after, vs, readers, writers, k);
      }
    }
  }

  /** On fresh groups, a key a group records after the pass is an attribute it misses. */
  lemma GroupKeyIsMissing(before: seq<ErrorMap>, after: seq<ErrorMap>, vs: seq<PresenceValidator>,
                          readers: set<Symbol>, writers: set<Symbol>, k: Symbol)
    requires Recorded(before, after, vs, readers, writers)
    requires forall j | 0 <= j < |before| :: before[j] == map[]
    requires InSomeGroup(after, k)
    ensures MissingSomewhere(vs, readers, writers, k)
  {
    var j :| 0 <= j < |after| && k in after[j];
    var m := MissingErrors(vs[j].attributes, readers, writers);
    assert after[j] == map[] + m;
    assert k in m;
  }

  /** An attribute some group misses is a key of that group's map after the pass. */
  lemma MissingIsGroupKey(before: seq<ErrorMap>, after: seq<ErrorMap>, vs: seq<PresenceValidator>,
                          readers: set<Symbol>, writers: set<Symbol>, k: Symbol)
    requires Recorded(before, after, vs, readers, writers)
    requires MissingSomewhere(vs, readers, writers, k)
    ensures InSomeGroup(after, k)
  {
    var j :| 0 <= j < |vs| && k in vs[j].attributes && !HasAccessor(readers, writers, k);
    var m := MissingErrors(vs[j].attributes, readers, writers);
    assert k in m;
    assert k in after[j];
  }

  /** Rule group `v` holds the error map `e` and the verdict of a pass against `readers` and `writers`. */
  predicate Holds(v: PresenceValidator, e: ErrorMap, readers: set<Symbol>, writers: set<Symbol>)
    reads v
  {
    v.errors == e && v.valid == Some(AllPresent(v.attributes, readers, writers))
  }

  /** The state a class acquires by `include Adama::Validator`. */
  class ValidatedClass {
    /** `validators`: the rule groups, in declaration order. */
    var validators: seq<PresenceValidator>
    /** The names the instances respond to. */
    var readers: set<Symbol>
    /** The names `n` for which the instances respond to `n=`. */
    var writers: set<Symbol>

    /** Every rule group object appears once. */
    predicate Valid()
      reads this
    {
      Distinct(validators)
    }

    /** `@validators ||= []`; the `included` hook adds `attr_reader :kwargs`. */
    constructor ()
      ensures validators == [] && readers == {"kwargs"} && writers == {} && Valid()
    {
      validators := [];
      readers := {"kwargs"};
      writers := {};
    }

    /** `class_eval { attr_accessor key }`: instances now respond to `key` and `key=`. */
    method AddAccessor(key: Symbol)
      modifies this
      ensures readers == old(readers) + {key} && writers == old(writers) + {key}
      ensures validators == old(validators)
    {
      readers := readers + {key};
      writers := writers + {key};
    }

    /** `validates_presence_of(*attributes)`: append one new rule group over the flattened names. */
    method ValidatesPresenceOf(attributes: seq<Nested<Symbol>>)
      requires Valid()
      modifies this
      ensures Valid()
      ensures |validators| == |old(validators)| + 1 && validators[..|old(validators)|] == old(validators)
      ensures var v := validators[|validators| - 1];
              fresh(v) && v.attributes == Flatten(attributes) && v.errors == map[] && v.valid == None
      ensures readers == old(readers) && writers == old(writers)
    {
      var v := new PresenceValidator(attributes);
      validators := validators + [v];
    }
  }

  /** `PresenceValidator`: one rule group. */
  class PresenceValidator {
    const attributes: seq<Symbol>
    /** `attr_accessor :errors`; written per missing attribute, never cleared. */
    var errors: ErrorMap
    /** `valid?`: nil until the first `validate!`. */
    var valid: Option<bool>

    /** `initialize(*attributes)`: the flattened names and an empty error map. */
    constructor (attributes: seq<Nested<Symbol>>)
      ensures this.attributes == Flatten(attributes) && errors == map[] && valid == None
    {
      this.attributes := Flatten(attributes);
      errors := map[];
      valid := None;
    }

    /** `attr_accessor_exists?`: whether `attribute` has reader and writer; records it when not. */
    method AttrAccessorExists(instance: ValidatedInstance, attribute: Symbol) returns (present: bool)
      modifies this
      ensures present == HasAccessor(instance.klass.readers, instance.klass.writers, attribute)
      ensures errors == if present then old(errors) else old(errors)[attribute := [AttributeMissing]]
      ensures valid == old(valid)
    {
      present := attribute in instance.klass.readers && attribute in instance.klass.writers;
      if !present {
        errors := errors[attribute := [AttributeMissing]];
      }
    }

    /**
     * `validate!(instance)`: the verdict is whether every attribute is present, and every
     * missing one is added to the errors. Each attribute is checked, even after a miss.
     */
    method Validate(instance: ValidatedInstance)
      modifies this
      ensures valid == Some(AllPresent(attributes, instance.klass.readers, instance.klass.writers))
      ensures errors == old(errors) + MissingErrors(attributes, instance.klass.readers, instance.klass.writers)
    {
      ghost var readers, writers := instance.klass.readers, instance.klass.writers;
      valid := Some(true);
      var i := 0;
      while i < |attributes|
        invariant 0 <= i <= |attributes|
        invariant valid == Some(AllPresent(attributes[..i], readers, writers))
        invariant errors == old(errors) + MissingErrors(attributes[..i], readers, writers)
      {
        CheckStep(old(errors), attributes, i, readers, writers);
        var present := AttrAccessorExists(instance, attributes[i]);
        valid := Some(present && valid.value);
        i := i + 1;
      }
      assert attributes[..i] == attributes;
    }
  }

  /** An instance of a class that includes the validator. */
  class ValidatedInstance {
    const klass: ValidatedClass
    /** The instance variables. */
    var ivars: map<Symbol, Value>
    /** `errors`: `@errors ||= {}`. */
    var errors: ErrorMap
    /** `valid?`: nil until the first `validate!`. */
    var valid: Option<bool>

    constructor (klass: ValidatedClass)
      ensures this.klass == klass && ivars == map[] && errors == map[] && valid == None
    {
      this.klass := klass;
      ivars := map[];
      errors := map[];
      valid := None;
    }

    /** `send(key)`: `None` when there is no reader; a reader of an unset variable gives nil. */
    function Read(key: Symbol): Option<Value>
      reads this, klass
    {
      if key !in klass.readers then None
      else if key in ivars then Some(ivars[key])
      else Some(Nil)
    }

    /**
     * `create_attributes(kwargs)`: each key becomes an instance variable holding its value,
     * and the class gains `attr_accessor` for it; afterwards every key reads back its value.
     */
    method CreateAttributes(kwargs: Kwargs)
      modifies this, klass
      ensures ivars == old(ivars) + kwargs
      ensures klass.readers == old(klass.readers) + kwargs.Keys
      ensures klass.writers == old(klass.writers) + kwargs.Keys
      ensures klass.validators == old(klass.validators)
      ensures errors == old(errors) && valid == old(valid)
      ensures forall key | key in kwargs :: Read(key) == Some(kwargs[key]) && HasAccessor(klass.readers, klass.writers, key)
    {
      var rest := kwargs.Keys;
      ghost var done: set<Symbol> := {};
      while rest != {}
        invariant done + rest == kwargs.Keys && done !! rest
        invariant ivars.Keys == old(ivars).Keys + done
        invariant forall k | k in done :: ivars[k] == kwargs[k]
        invariant forall k | k in old(ivars) && k !in done :: ivars[k] == old(ivars)[k]
        invariant klass.readers == old(klass.readers) + done && klass.writers == old(klass.writers) + done
        invariant klass.validators == old(klass.validators)
        invariant errors == old(errors) && valid == old(valid)
        decreases rest
      {
        var key :| key in rest;
        ivars := ivars[key := kwargs[key]];
        klass.AddAccessor(key);
        rest := rest - {key};
        done := done + {key};
      }
    }

    /** The private `merge_errors(new_errors)`. */
    method MergeErrors(newErrors: ErrorMap)
      modifies this
      ensures errors == MergedErrors(old(errors), newErrors)
      ensures ivars == old(ivars) && valid == old(valid)
    {
      errors := MergedErrors(errors, newErrors);
    }

    /**
     * One iteration of `validate!`: `validator.validate! self`, then
     * `merge_errors validator.errors`, then `@valid = validator.valid? && @valid`.
     */
    method RunGroup(v: PresenceValidator)
      requires valid.Some?
      modifies this, v
      ensures Holds(v, old(v.errors) + MissingErrors(v.attributes, klass.readers, klass.writers), klass.readers, klass.writers)
      ensures errors == MergedErrors(old(errors), v.errors)
      ensures valid == Some(AllPresent(v.attributes, klass.readers, klass.writers) && old(valid).value)
      ensures ivars == old(ivars) && klass.readers == old(klass.readers) && klass.writers == old(klass.writers)
    {
      v.Validate(this);
      MergeErrors(v.errors);
      valid := Some(v.valid.value && valid.value);
    }

    /**
     * The bookkeeping around one iteration of `validate!`: running group `vs[i]` extends
     * what is known about the groups before it to that group as well.
     */
    method Advance(vs: seq<PresenceValidator>, i: nat, ghost before: seq<ErrorMap>, ghost after: seq<ErrorMap>, ghost e0: ErrorMap)
      returns (ghost after': seq<ErrorMap>)
      requires i < |vs| == |before| && |after| == i
      requires forall j | 0 <= j < |vs| && j != i :: vs[j] != vs[i]
      requires valid == Some(GroupsPresent(vs[..i], klass.readers, klass.writers))
      requires Recorded(before[..i], after, vs[..i], klass.readers, klass.writers)
      requires forall j | 0 <= j < i :: Holds(vs[j], after[j], klass.readers, klass.writers)
      requires forall j | i <= j < |vs| :: vs[j].errors == before[j]
      requires errors == MergeAll(e0, after)
      modifies this, vs[i]
      ensures |after'| == i + 1
      ensures valid == Some(GroupsPresent(vs[..i + 1], klass.readers, klass.writers))
      ensures Recorded(before[..i + 1], after', vs[..i + 1], klass.readers, klass.writers)
      ensures forall j | 0 <= j < i + 1 :: Holds(vs[j], after'[j], klass.readers, klass.writers)
      ensures forall j | i + 1 <= j < |vs| :: vs[j].errors == before[j]
      ensures errors == MergeAll(e0, after')
      ensures ivars == old(ivars) && klass.readers == old(klass.readers) && klass.writers == old(klass.writers)
    {
      GroupsPresentStep(vs, i, klass.readers, klass.writers);
      var v := vs[i];
      RunGroup(v);
      RecordedStep(before, after, vs, i, v.errors, klass.readers, klass.writers);
      after' := after + [v.errors];
      assert after'[..i] == after;
    }

    /**
     * `validate!`: run every rule group in order, merge its errors into the instance's
     * and AND its verdict into `valid?`. `before` and `after` are the groups' error maps
     * before and after the pass.
     */
    method Validate() returns (ghost before: seq<ErrorMap>, ghost after: seq<ErrorMap>)
      requires klass.Valid()
      modifies this, klass.validators
      ensures |before| == |klass.validators| && forall j | 0 <= j < |before| :: before[j] == old(klass.validators[j].errors)
      ensures Recorded(before, after, klass.validators, klass.readers, klass.writers)
      ensures forall j | 0 <= j < |after| ::
                klass.validators[j].errors == after[j]
                && klass.validators[j].valid == Some(AllPresent(klass.validators[j].attributes, klass.readers, klass.writers))
      ensures valid == Some(GroupsPresent(klass.validators, klass.readers, klass.writers))
      ensures errors == MergeAll(old(errors), after)
      ensures ivars == old(ivars)
    {
      var vs := klass.validators;
      ghost var readers, writers := klass.readers, klass.writers;
      before := seq(|vs|, j requires 0 <= j < |vs| reads vs => vs[j].errors);
      after := [];
      valid := Some(true);
      var i := 0;
      while i < |vs|
        invariant 0 <= i <= |vs| && |after| == i
        invariant valid == Some(GroupsPresent(vs[..i], readers, writers))
        invariant Recorded(before[..i], after, vs[..i], readers, writers)
        invariant forall j | 0 <= j < i :: Holds(vs[j], after[j], readers, writers)
        invariant forall j | i <= j < |vs| :: vs[j].errors == before[j]
        invariant errors == MergeAll(old(errors), after)
        invariant ivars == old(ivars) && klass.readers == readers && klass.writers == writers
      {
        after := Advance(vs, i, before, after, old(errors));
        i := i + 1;
      }
      assert vs[..i] == vs && before[..i] == before;
    }

    /** `validate_attributes!(kwargs)`: `create_attributes` then `validate!`. */
    method ValidateAttributes(kwargs: Kwargs) returns (ghost before: seq<ErrorMap>, ghost after: seq<ErrorMap>)
      requires klass.Valid()
      modifies this, klass, klass.validators
      ensures klass.validators == old(klass.validators)
      ensures klass.readers == old(klass.readers) + kwargs.Keys && klass.writers == old(klass.writers) + kwargs.Keys
      ensures ivars == old(ivars) + kwargs
      ensures forall key | key in kwargs :: Read(key) == Some(kwargs[key])
      ensures |before| == |klass.validators| && forall j | 0 <= j < |before| :: before[j] == old(klass.validators[j].errors)
      ensures Recorded(before, after, klass.validators, klass.readers, klass.writers)
      ensures forall j | 0 <= j < |after| ::
                klass.validators[j].errors == after[j]
                && klass.validators[j].valid == Some(AllPresent(klass.validators[j].attributes, klass.readers, klass.writers))
      ensures valid == Some(GroupsPresent(klass.validators, klass.readers, klass.writers))
      ensures errors == MergeAll(old(errors), after)
    {
      CreateAttributes(kwargs);
      before, after := Validate();
    }
  }
}
