/**
 * Ruby's `Array#flatten` applied to a splat argument list. Both `invoke(*command_list)`
 * and `validates_presence_of(*attributes)` accept items and (nested) arrays of items
 * and flatten them into one ordered list.
 */
module Nesting {

  /** One argument of a splat: a plain item, or an array that may nest further. */
  datatype Nested<T> = Item(value: T) | Array(items: seq<Nested<T>>)

  /** The items of `xs`, left to right, with every nested array expanded in place. */
  function Flatten<T>(xs: seq<Nested<T>>): seq<T>
    decreases xs
  {
    if xs == [] then [] else FlattenOne(xs[0]) + Flatten(xs[1..])
  }

  function FlattenOne<T>(x: Nested<T>): seq<T>
    decreases x
  {
    match x
    case Item(v) => [v]
    case Array(ys) => Flatten(ys)
  }

  /** The plain argument list `f(a, b, c)`: every argument is an item. */
  function Items<T>(vs: seq<T>): (xs: seq<Nested<T>>)
    ensures |xs| == |vs|
    ensures forall i :: 0 <= i < |vs| ==> xs[i] == Item(vs[i])
  {
    if vs == [] then [] else [Item(vs[0])] + Items(vs[1..])
  }

  /** Flattening a list of plain items gives back those items, in order. */
  lemma {:induction false} FlattenItems<T>(vs: seq<T>)
    ensures Flatten(Items(vs)) == vs
  {
    if vs != [] {
      FlattenItems(vs[1..]);
      assert Items(vs)[1..] == Items(vs[1..]);
    }
  }

  /** Flattening distributes over concatenation of argument lists. */
  lemma {:induction false} FlattenAppend<T>(xs: seq<Nested<T>>, ys: seq<Nested<T>>)
    ensures Flatten(xs + ys) == Flatten(xs) + Flatten(ys)
  {
    if xs == [] {
      assert xs + ys == ys;
    } else {
      var zs := xs + ys;
      assert zs[0] == xs[0];
      assert zs[1..] == xs[1..] + ys;
      FlattenAppend(xs[1..], ys);
      calc {
        Flatten(zs);
        FlattenOne(xs[0]) + Flatten(xs[1..] + ys);
        FlattenOne(xs[0]) + (Flatten(xs[1..]) + Flatten(ys));
        (FlattenOne(xs[0]) + Flatten(xs[1..])) + Flatten(ys);
      }
    }
  }

  /** An array argument contributes exactly its own flattening: `f([a, b], c) == f(a, b, c)`. */
  lemma {:induction false} FlattenArrayArgument<T>(ys: seq<Nested<T>>, rest: seq<Nested<T>>)
    ensures Flatten([Array(ys)] + rest) == Flatten(ys + rest)
  {
    FlattenAppend(ys, rest);
    assert ([Array(ys)] + rest)[1..] == rest;
  }
}
