/**
 * The error maps of lib/adama/validator.rb and `merge_errors`, which merges a rule
 * group's error map into an instance's: a key present on both sides gets the old list
 * followed by the new one with duplicates removed (Ruby's `Array#uniq`, which keeps the
 * first occurrence); any other key keeps whichever side has it.
 */
module ErrorMerge {

  /** The message a rule group records for a missing attribute. */
  const AttributeMissing := "attribute missing"

  /** An error map: attribute name to its list of messages. */
  type ErrorMap = map<string, seq<string>>

  predicate NoDup<T(==)>(s: seq<T>)
  {
    forall i, j :: 0 <= i < j < |s| ==> s[i] != s[j]
  }

  /** Ruby's `Array#uniq`: the first occurrence of each element, in order. */
  function Uniq<T(==)>(s: seq<T>): (r: seq<T>)
    ensures NoDup(r)
    ensures forall x | x in r :: x in s
    ensures forall x | x in s :: x in r
    ensures |r| <= |s|
  {
    if s == [] then []
    else
      var init, x := s[..|s| - 1], s[|s| - 1];
      assert forall y | y in s :: y in init || y == x;
      if x in init then Uniq(init) else Uniq(init) + [x]
  }

  /** `uniq` leaves a list without duplicates as it is. */
  lemma {:induction false} UniqOfNoDup<T>(s: seq<T>)
    requires NoDup(s)
    ensures Uniq(s) == s
  {
    if s != [] {
      var init := s[..|s| - 1];
      assert NoDup(init);
      UniqOfNoDup(init);
      assert s == init + [s[|s| - 1]];
    }
  }

  /**
   * Appending can only extend the result of `uniq`: what survives of `a` comes first and
   * in the same order, so each element sits where its first occurrence puts it.
   */
  lemma {:induction false} UniqPrefix<T>(a: seq<T>, b: seq<T>)
    ensures Uniq(a) <= Uniq(a + b)
    decreases |b|
  {
    if b != [] {
      var b' := b[..|b| - 1];
      assert (a + b)[..|a + b| - 1] == a + b';
      UniqPrefix(a, b');
    } else {
      assert a + b == a;
    }
  }

  /** The elements of `b` that are not in `a`, in their order in `b`. */
  function Without<T(==)>(b: seq<T>, a: seq<T>): (r: seq<T>)
    ensures forall x | x in r :: x in b && x !in a
    ensures forall x | x in b && x !in a :: x in r
  {
    if b == [] then []
    else
      var init, x := b[..|b| - 1], b[|b| - 1];
      assert forall y | y in b :: y in init || y == x;
      Without(init, a) + (if x in a then [] else [x])
  }

  /**
   * `(a + b).uniq` for a list `a` without duplicates is `a` followed by the first
   * occurrences of the elements of `b` that `a` lacks, in their order in `b`.
   */
  lemma {:induction false} UniqAfterPrefix<T>(a: seq<T>, b: seq<T>)
    requires NoDup(a)
    ensures Uniq(a + b) == a + Uniq(Without(b, a))
    decreases |b|
  {
    if b == [] {
      assert a + b == a;
      UniqOfNoDup(a);
    } else {
      var b', x := b[..|b| - 1], b[|b| - 1];
      UniqAfterPrefix(a, b');
      assert b == b' + [x];
      if x in a {
        StepKnown(a, b', x);
      } else if x in Without(b', a) {
        StepSeen(a, b', x);
      } else {
        StepFresh(a, b', x);
      }
    }
  }

  /** Appending one element to a list's `uniq` keeps it only when it is new. */
  lemma UniqSnoc<T>(s: seq<T>, x: T)
    ensures Uniq(s + [x]) == if x in s then Uniq(s) else Uniq(s) + [x]
  {
    assert (s + [x])[..|s|] == s;
  }

  /** Appending one element to `b` appends it to `Without(b, a)` exactly when `a` lacks it. */
  lemma WithoutSnoc<T>(b: seq<T>, a: seq<T>, x: T)
    ensures x in a ==> Without(b + [x], a) == Without(b, a)
    ensures x !in a ==> Without(b + [x], a) == Without(b, a) + [x]
  {
    assert (b + [x])[..|b|] == b;
    assert Without(b, a) + [] == Without(b, a);
  }

  /** Concatenation is associative. */
  lemma Associates<T>(a: seq<T>, b: seq<T>, c: seq<T>)
    ensures a + (b + c) == (a + b) + c
  {
  }

  /** The step of `UniqAfterPrefix` for an element already in `a`: nothing is added. */
  lemma StepKnown<T>(a: seq<T>, b: seq<T>, x: T)
    requires Uniq(a + b) == a + Uniq(Without(b, a)) && x in a
    ensures Uniq(a + (b + [x])) == a + Uniq(Without(b + [x], a))
  {
    assert x in a + b;
    Associates(a, b, [x]);
    UniqSnoc(a + b, x);
    WithoutSnoc(b, a, x);
  }

  /** The step for an element of `b` not in `a` that was seen before: nothing is added. */
  lemma StepSeen<T>(a: seq<T>, b: seq<T>, x: T)
    requires Uniq(a + b) == a + Uniq(Without(b, a)) && x !in a && x in Without(b, a)
    ensures Uniq(a + (b + [x])) == a + Uniq(Without(b + [x], a))
  {
    assert x in a + b;
    Associates(a, b, [x]);
    UniqSnoc(a + b, x);
    UniqSnoc(Without(b, a), x);
    WithoutSnoc(b, a, x);
  }

  /** The step for an element in neither `a` nor `b`: it is added at the end. */
  lemma StepFresh<T>(a: seq<T>, b: seq<T>, x: T)
    requires Uniq(a + b) == a + Uniq(Without(b, a)) && x !in a && x !in Without(b, a)
    ensures Uniq(a + (b + [x])) == a + Uniq(Without(b + [x], a))
  {
    assert x !in b;
    assert x !in a + b;
    Associates(a, b, [x]);
    UniqSnoc(a + b, x);
    UniqSnoc(Without(b, a), x);
    WithoutSnoc(b, a, x);
    Associates(a, Uniq(Without(b, a)), [x]);
  }

  /** `errors.merge!(new_errors) { |key, oldval, newval| (oldval + newval).uniq }`. */
  function MergedErrors(current: ErrorMap, incoming: ErrorMap): (m: ErrorMap)
    ensures m.Keys == current.Keys + incoming.Keys
  {
    map k | k in current.Keys + incoming.Keys :: Combined(current, incoming, k)
  }

  function Combined(current: ErrorMap, incoming: ErrorMap, k: string): seq<string>
    requires k in current || k in incoming
  {
      if k in current && k in incoming then Uniq(current[k] + incoming[k])
      else if k in incoming then incoming[k]
      else current[k]
  }

  /**
   * Per key, the merged list is the old list followed by the new messages it lacks: the
   * old list (when it has no duplicates) is a prefix, followed by the first occurrences
   * of the new messages it lacks, in their new order; the elements are those of both
   * sides, and a list touched by the merge has no duplicates.
   */
  lemma MergedEntry(current: ErrorMap, incoming: ErrorMap, k: string)
    requires k in current || k in incoming
    ensures var m := MergedErrors(current, incoming);
            && k in m
            && (forall x :: x in m[k] <==> (k in current && x in current[k]) || (k in incoming && x in incoming[k]))
            && (k in current && NoDup(current[k]) ==> current[k] <= m[k])
            && (k in current && k in incoming && NoDup(current[k]) ==>
                  m[k] == current[k] + Uniq(Without(incoming[k], current[k])))
            && (k in current && k in incoming ==> NoDup(m[k]))
            && (k !in current ==> m[k] == incoming[k])
  {
    if k in current && k in incoming && NoDup(current[k]) {
      UniqOfNoDup(current[k]);
      UniqPrefix(current[k], incoming[k]);
      UniqAfterPrefix(current[k], incoming[k]);
    }
  }

  /** Every entry is exactly `['attribute missing']`. */
  predicate AllMissing(e: ErrorMap)
  {
    forall k | k in e :: e[k] == [AttributeMissing]
  }

  /** `(['attribute missing'] + ['attribute missing']).uniq` is `['attribute missing']`. */
  lemma UniqRepeated(x: string)
    ensures Uniq([x] + [x]) == [x]
  {
    assert ([x] + [x])[..1] == [x];
  }

  /** Merging maps of `['attribute missing']` entries gives such a map again. */
  lemma MergeKeepsShape(current: ErrorMap, incoming: ErrorMap)
    requires AllMissing(current) && AllMissing(incoming)
    ensures AllMissing(MergedErrors(current, incoming))
  {
    UniqRepeated(AttributeMissing);
    forall k | k in current.Keys + incoming.Keys
      ensures Combined(current, incoming, k) == [AttributeMissing]
    {
    }
  }

  /** `merge_errors` applied once per group, in order. */
  function MergeAll(e: ErrorMap, groups: seq<ErrorMap>): ErrorMap
  {
    if groups == [] then e
    else MergedErrors(MergeAll(e, groups[..|groups| - 1]), groups[|groups| - 1])
  }

  /** Some group of `groups` has an entry for `k`. */
  predicate InSomeGroup(groups: seq<ErrorMap>, k: string)
  {
    exists i :: 0 <= i < |groups| && k in groups[i]
  }

  /** The keys after a pass are those before and those of every group; none is removed. */
  lemma {:induction false} MergeAllKeys(e: ErrorMap, groups: seq<ErrorMap>)
    ensures forall k :: k in MergeAll(e, groups) <==> k in e || InSomeGroup(groups, k)
  {
    if groups != [] {
      var init := groups[..|groups| - 1];
      MergeAllKeys(e, init);
      forall k
        ensures InSomeGroup(groups, k) <==> InSomeGroup(init, k) || k in groups[|groups| - 1]
      {
        if exists i :: 0 <= i < |groups| && k in groups[i] {
          var i :| 0 <= i < |groups| && k in groups[i];
          if i < |init| {
            assert k in init[i];
          }
        }
        if exists i :: 0 <= i < |init| && k in init[i] {
          var i :| 0 <= i < |init| && k in init[i];
          assert k in groups[i];
        }
      }
    }
  }

  /** Errors are never cleared: every old list survives a pass as a prefix of its new list. */
  lemma {:induction false} MergeAllGrows(e: ErrorMap, groups: seq<ErrorMap>, k: string)
    requires k in e && NoDup(e[k])
    ensures k in MergeAll(e, groups) && e[k] <= MergeAll(e, groups)[k] && NoDup(MergeAll(e, groups)[k])
  {
    if groups != [] {
      var init := groups[..|groups| - 1];
      MergeAllGrows(e, init, k);
      var before := MergeAll(e, init);
      MergedEntry(before, groups[|groups| - 1], k);
      if k !in groups[|groups| - 1] {
        assert MergeAll(e, groups)[k] == before[k];
      }
    }
  }

  /** Passes over maps of `['attribute missing']` entries keep every list exactly that. */
  lemma {:induction false} MergeAllKeepsShape(e: ErrorMap, groups: seq<ErrorMap>)
    requires AllMissing(e) && forall i :: 0 <= i < |groups| ==> AllMissing(groups[i])
    ensures AllMissing(MergeAll(e, groups))
  {
    if groups != [] {
      MergeAllKeepsShape(e, groups[..|groups| - 1]);
      MergeKeepsShape(MergeAll(e, groups[..|groups| - 1]), groups[|groups| - 1]);
    }
  }

  /** Groups without errors leave the instance map as it was. */
  lemma {:induction false} MergeAllEmpty(e: ErrorMap, groups: seq<ErrorMap>)
    requires forall i :: 0 <= i < |groups| ==> groups[i] == map[]
    ensures MergeAll(e, groups) == e
  {
    if groups != [] {
      MergeAllEmpty(e, groups[..|groups| - 1]);
    }
  }

  /** A message in any entry before a pass, or in any group's entry, is in that entry after it. */
  lemma {:induction false} MergeAllKeepsMessages(e: ErrorMap, groups: seq<ErrorMap>, k: string, x: string)
    requires (k in e && x in e[k]) || exists i :: 0 <= i < |groups| && k in groups[i] && x in groups[i][k]
    ensures k in MergeAll(e, groups) && x in MergeAll(e, groups)[k]
  {
    if groups != [] {
      var init, last := groups[..|groups| - 1], groups[|groups| - 1];
      if !(k in last && x in last[k]) {
        if !(k in e && x in e[k]) {
          var i :| 0 <= i < |groups| && k in groups[i] && x in groups[i][k];
          assert k in init[i] && x in init[i][k];
        }
        MergeAllKeepsMessages(e, init, k, x);
      }
      MergedEntry(MergeAll(e, init), last, k);
    }
  }
}
