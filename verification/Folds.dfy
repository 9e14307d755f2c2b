/** Left folds and flattened maps, as the loops over streams and lists compute them. */
module Folds {
  function Fold<S, T>(f: (S, T) -> S, s: S, ts: seq<T>): S {
    if |ts| == 0 then s else f(Fold(f, s, ts[..|ts| - 1]), ts[|ts| - 1])
  }

  lemma {:induction false} FoldConcat<S, T>(f: (S, T) -> S, s: S, a: seq<T>, b: seq<T>)
    ensures Fold(f, s, a + b) == Fold(f, Fold(f, s, a), b)
  {
    if |b| == 0 {
      assert a + b == a;
    } else {
      var n := |b| - 1;
      FoldConcat(f, s, a, b[..n]);
      assert (a + b)[..|a + b| - 1] == a + b[..n];
    }
  }

  lemma FoldOne<S, T>(f: (S, T) -> S, s: S, t: T)
    ensures Fold(f, s, [t]) == f(s, t)
  {
    assert [t][..0] == [];
  }

  function Flat<S, T>(f: S -> seq<T>, xs: seq<S>): seq<T> {
    if |xs| == 0 then [] else f(xs[0]) + Flat(f, xs[1..])
  }

  lemma {:induction false} FlatConcat<S, T>(f: S -> seq<T>, a: seq<S>, b: seq<S>)
    ensures Flat(f, a + b) == Flat(f, a) + Flat(f, b)
  {
    if |a| == 0 {
      assert a + b == b;
    } else {
      FlatConcat(f, a[1..], b);
      assert (a + b)[1..] == a[1..] + b;
      ConcatGroups(f(a[0]), Flat(f, a[1..]), Flat(f, b));
    }
  }

  lemma FlatOne<S, T>(f: S -> seq<T>, x: S)
    ensures Flat(f, [x]) == f(x)
  {
    assert [x][1..] == [];
  }

  lemma ConcatGroups<T>(a: seq<T>, b: seq<T>, c: seq<T>)
    ensures a + (b + c) == a + b + c
  {
  }

  function Kept<T>(p: T -> bool, xs: seq<T>): seq<T> {
    if |xs| == 0 then [] else
      Kept(p, xs[..|xs| - 1]) + if p(xs[|xs| - 1]) then [xs[|xs| - 1]] else []
  }

  predicate Rising(at: seq<nat>) {
    forall k, l :: 0 <= k < l < |at| ==> at[k] < at[l]
  }

  // Place i is among those listed.
  predicate Listed(at: seq<nat>, i: nat) {
    exists k :: 0 <= k < |at| && at[k] == i
  }

  // The places of those that are kept, in order.
  ghost predicate Places<T>(p: T -> bool, xs: seq<T>, at: seq<nat>) {
    && Rising(at) && (forall k :: 0 <= k < |at| ==> at[k] < |xs|)
    && (forall i :: 0 <= i < |xs| ==> (p(xs[i]) <==> Listed(at, i)))
  }

  lemma ListedNext(at: seq<nat>, n: nat)
    ensures forall i :: Listed(at + [n], i) <==> i == n || Listed(at, i)
  {
    forall i: nat ensures Listed(at + [n], i) <==> i == n || Listed(at, i) {
      if k :| 0 <= k < |at| && at[k] == i {
        assert (at + [n])[k] == i;
      }
      assert (at + [n])[|at|] == n;
    }
  }

  lemma PlacesNext<T>(p: T -> bool, xs: seq<T>, at: seq<nat>, x: T)
    requires Places(p, xs, at)
    ensures Places(p, xs + [x], if p(x) then at + [|xs|] else at)
  {
    ListedNext(at, |xs|);
    assert !Listed(at, |xs|);
  }

  // What stands at those places.
  ghost predicate StandsAt<T>(xs: seq<T>, at: seq<nat>, ys: seq<T>) {
    |at| == |ys| && forall k :: 0 <= k < |at| ==> at[k] < |xs| && ys[k] == xs[at[k]]
  }

  lemma StandsNext<T>(xs: seq<T>, at: seq<nat>, ys: seq<T>, x: T)
    requires StandsAt(xs, at, ys)
    ensures StandsAt(xs + [x], at, ys) && StandsAt(xs + [x], at + [|xs|], ys + [x])
  {
  }

  lemma KeptNext<T>(p: T -> bool, xs: seq<T>, x: T)
    ensures Kept(p, xs + [x]) == if p(x) then Kept(p, xs) + [x] else Kept(p, xs)
  {
    assert (xs + [x])[..|xs|] == xs;
  }

  lemma KeptPlacesNext<T>(p: T -> bool, xs: seq<T>, at: seq<nat>, x: T) returns (next: seq<nat>)
    requires Places(p, xs, at) && StandsAt(xs, at, Kept(p, xs))
    ensures Places(p, xs + [x], next) && StandsAt(xs + [x], next, Kept(p, xs + [x]))
  {
    PlacesNext(p, xs, at, x);
    StandsNext(xs, at, Kept(p, xs), x);
    KeptNext(p, xs, x);
    next := if p(x) then at + [|xs|] else at;
  }

  lemma {:induction false} KeptPlaces<T>(p: T -> bool, xs: seq<T>) returns (at: seq<nat>)
    ensures Places(p, xs, at) && StandsAt(xs, at, Kept(p, xs))
  {
    if |xs| == 0 {
      at := [];
    } else {
      at := KeptPlaces(p, xs[..|xs| - 1]);
      at := KeptPlacesNext(p, xs[..|xs| - 1], at, xs[|xs| - 1]);
      InitLast(xs);
    }
  }

  lemma InitLast<T>(xs: seq<T>)
    requires |xs| > 0
    ensures xs[..|xs| - 1] + [xs[|xs| - 1]] == xs
  {
  }

  lemma {:induction false} KeptPass<T>(p: T -> bool, xs: seq<T>)
    ensures forall x :: x in Kept(p, xs) ==> p(x)
  {
    if |xs| > 0 {
      KeptPass(p, xs[..|xs| - 1]);
    }
  }

  lemma TakeDrop<T>(s: seq<T>, n: nat)
    requires n <= |s|
    ensures s[..n] + s[n..] == s
  {
  }

  lemma WholeSlice<T>(s: seq<T>)
    ensures s[..|s|] == s
  {
  }
}
