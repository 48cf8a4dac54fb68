/**
 * The iterator adaptors the purpose extraction is built from, over finite
 * sequences: `flat_map` and `filter`. An iterator is modelled by the
 * sequence of the items it yields, in order.
 */
module Iterators {

  /** `flat_map`: the items `f` yields for each element, one element after another. */
  function FlatMap<A, B>(xs: seq<A>, f: A -> seq<B>): (r: seq<B>)
    ensures xs == [] ==> r == []
  {
    if xs == [] then [] else f(xs[0]) + FlatMap(xs[1..], f)
  }

  /** `filter`: the elements `p` keeps, in their order. */
  function Filter<A>(xs: seq<A>, p: A -> bool): (r: seq<A>)
    ensures |r| <= |xs|
  {
    if xs == [] then [] else (if p(xs[0]) then [xs[0]] else []) + Filter(xs[1..], p)
  }

  lemma FlatMapSingle<A, B>(x: A, f: A -> seq<B>)
    ensures FlatMap([x], f) == f(x)
  {
    assert [x][1..] == [];
    assert f(x) + [] == f(x);
  }

  /** Iterating over a concatenation yields the items of each part in turn. */
  lemma {:induction false} FlatMapAppend<A, B>(xs: seq<A>, ys: seq<A>, f: A -> seq<B>)
    ensures FlatMap(xs + ys, f) == FlatMap(xs, f) + FlatMap(ys, f)
  {
    if xs == [] {
      assert xs + ys == ys;
    } else {
      assert (xs + ys)[0] == xs[0] && (xs + ys)[1..] == xs[1..] + ys;
      FlatMapAppend(xs[1..], ys, f);
    }
  }

  lemma {:induction false} FilterAppend<A>(xs: seq<A>, ys: seq<A>, p: A -> bool)
    ensures Filter(xs + ys, p) == Filter(xs, p) + Filter(ys, p)
  {
    if xs == [] {
      assert xs + ys == ys;
    } else {
      var head := if p(xs[0]) then [xs[0]] else [];
      assert (xs + ys)[0] == xs[0] && (xs + ys)[1..] == xs[1..] + ys;
      calc {
        Filter(xs + ys, p);
        head + Filter(xs[1..] + ys, p);
        { FilterAppend(xs[1..], ys, p); }
        head + (Filter(xs[1..], p) + Filter(ys, p));
        Filter(xs, p) + Filter(ys, p);
      }
    }
  }

  /** Every item of a `flat_map` is an item `f` yields for some element. */
  lemma {:induction false} FlatMapItems<A, B>(xs: seq<A>, f: A -> seq<B>, q: B -> bool)
    requires forall x, j :: x in xs && 0 <= j < |f(x)| ==> q(f(x)[j])
    ensures forall i :: 0 <= i < |FlatMap(xs, f)| ==> q(FlatMap(xs, f)[i])
  {
    if xs != [] {
      assert forall x :: x in xs[1..] ==> x in xs;
      FlatMapItems(xs[1..], f, q);
      var head := f(xs[0]);
      var r := FlatMap(xs, f);
      forall i | 0 <= i < |r|
        ensures q(r[i])
      {
        if i < |head| {
          assert r[i] == head[i];
        } else {
          assert r[i] == FlatMap(xs[1..], f)[i - |head|];
        }
      }
    }
  }
}
