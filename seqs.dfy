/**
 * Sequences used as insertion-ordered sets: the way the scraper fills a
 * JavaScript `Set` (or a `{[key]: true}` object) and reads it back with
 * `Array.from`.
 */
module Seqs {

  /** No element occurs twice. */
  predicate NoDup<T(==)>(s: seq<T>) {
    forall i, j :: 0 <= i < j < |s| ==> s[i] != s[j]
  }

  /** The elements of `s`, as a set. */
  function Elems<T>(s: seq<T>): set<T> {
    set x | x in s
  }

  /** `Set.prototype.add`: appends `x` unless it is already present. */
  function Add<T(==)>(acc: seq<T>, x: T): seq<T> {
    if x in acc then acc else acc + [x]
  }

  /** Adds the elements of `xs` one by one, in order, as a `forEach` over `xs` calling `add` does. */
  function AddAll<T(==)>(acc: seq<T>, xs: seq<T>): (r: seq<T>)
    ensures acc <= r
    ensures NoDup(acc) ==> NoDup(r)
    ensures Elems(r) == Elems(acc) + Elems(xs)
    decreases |xs|
  {
    if xs == [] then acc
    else
      var init, x := xs[..|xs| - 1], xs[|xs| - 1];
      assert xs == init + [x];
      assert Elems(xs) == Elems(init) + {x};
      var prior := AddAll(acc, init);
      assert Elems(prior + [x]) == Elems(prior) + {x};
      Add(prior, x)
  }

  /** `Array.from(new Set(xs))`: the first occurrence of every element, in order. */
  function Dedup<T(==)>(xs: seq<T>): (r: seq<T>)
    ensures NoDup(r) && Elems(r) == Elems(xs)
  {
    AddAll([], xs)
  }

  /** Adding one more element is one more `add`. */
  lemma AddAllSnoc<T>(acc: seq<T>, xs: seq<T>, x: T)
    ensures AddAll(acc, xs + [x]) == Add(AddAll(acc, xs), x)
  {
    assert (xs + [x])[..|xs|] == xs;
  }

  /** Adding two runs one after the other is adding their concatenation. */
  lemma {:induction false} AddAllAppend<T>(acc: seq<T>, xs: seq<T>, ys: seq<T>)
    ensures AddAll(acc, xs + ys) == AddAll(AddAll(acc, xs), ys)
    decreases |ys|
  {
    if ys == [] {
      assert xs + ys == xs;
    } else {
      var init, y := ys[..|ys| - 1], ys[|ys| - 1];
      assert ys == init + [y];
      assert xs + ys == (xs + init) + [y];
      AddAllAppend(acc, xs, init);
      AddAllSnoc(acc, xs + init, y);
      AddAllSnoc(AddAll(acc, xs), init, y);
    }
  }

  /** The runs `f` gives for the elements of `xs`, one after the other. */
  function Flatten<T, U>(xs: seq<T>, f: T -> seq<U>): seq<U>
    decreases |xs|
  {
    if xs == [] then [] else Flatten(xs[..|xs| - 1], f) + f(xs[|xs| - 1])
  }

  /** One more element adds its own run after the others. */
  lemma FlattenSnoc<T, U>(xs: seq<T>, x: T, f: T -> seq<U>)
    ensures Flatten(xs + [x], f) == Flatten(xs, f) + f(x)
  {
    assert (xs + [x])[..|xs|] == xs;
  }

  /** Flattening consecutive parts gives the concatenation of their flattenings. */
  lemma {:induction false} FlattenAppend<T, U>(xs: seq<T>, ys: seq<T>, f: T -> seq<U>)
    ensures Flatten(xs + ys, f) == Flatten(xs, f) + Flatten(ys, f)
    decreases |ys|
  {
    if ys == [] {
      assert xs + ys == xs;
    } else {
      var init, y := ys[..|ys| - 1], ys[|ys| - 1];
      calc {
        Flatten(xs + ys, f);
        == { assert xs + ys == (xs + init) + [y]; FlattenSnoc(xs + init, y, f); }
        Flatten(xs + init, f) + f(y);
        == { FlattenAppend(xs, init, f); }
        Flatten(xs, f) + Flatten(init, f) + f(y);
        == { assert ys == init + [y]; FlattenSnoc(init, y, f); }
        Flatten(xs, f) + Flatten(ys, f);
      }
    }
  }

  /** In a sequence without duplicates every element occurs exactly once. */
  lemma {:induction false} NoDupOccurrences<T>(s: seq<T>, x: T)
    requires NoDup(s)
    ensures multiset(s)[x] == if x in s then 1 else 0
  {
    if s != [] {
      var t := s[..|s| - 1];
      assert s == t + [s[|s| - 1]];
      assert NoDup(t);
      NoDupOccurrences(t, x);
      assert s[|s| - 1] !in t;
    }
  }

  /** `xs.forEach(x => set.add(x))` on a set holding `acc`. */
  method AddEach<T(==)>(acc: seq<T>, xs: seq<T>) returns (r: seq<T>)
    ensures r == AddAll(acc, xs)
  {
    r := acc;
    for i := 0 to |xs|
      invariant r == AddAll(acc, xs[..i])
    {
      assert xs[..i + 1][..i] == xs[..i];
      if xs[i] !in r {
        r := r + [xs[i]];
      }
    }
    assert xs[..|xs|] == xs;
  }
}
