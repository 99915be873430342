/** The array operations the pages build their state updates from: `filter`, `map`, `flatMap` and `Array.from(new Set(...))`. */
module Lists {

  /** `r` is `xs` with some elements left out and the rest in their original order. */
  predicate Subsequence<T(==)>(r: seq<T>, xs: seq<T>)
    decreases |xs|
  {
    if r == [] then true
    else if xs == [] then false
    else if r[0] == xs[0] then Subsequence(r[1..], xs[1..])
    else Subsequence(r, xs[1..])
  }

  /** Every element occurs exactly once. */
  predicate NoDuplicates<T(==)>(xs: seq<T>) {
    forall x | x in xs :: multiset(xs)[x] == 1
  }

  /** `xs.filter(keep)`: exactly the elements `keep` accepts, each as often as in `xs`, in their order. */
  function Filter<T(==,!new)>(xs: seq<T>, keep: T -> bool): (r: seq<T>)
    ensures forall x :: multiset(r)[x] == if keep(x) then multiset(xs)[x] else 0
    ensures forall x :: x in r <==> x in xs && keep(x)
    ensures Subsequence(r, xs)
    ensures |r| <= |xs|
  {
    if xs == [] then []
    else
      var rest := Filter(xs[1..], keep);
      assert xs == [xs[0]] + xs[1..];
      if keep(xs[0]) then [xs[0]] + rest
      else
        SkipRejected(rest, xs, keep);
        rest
  }

  lemma SkipRejected<T(!new)>(rest: seq<T>, xs: seq<T>, keep: T -> bool)
    requires xs != [] && !keep(xs[0])
    requires forall x | x in rest :: keep(x)
    requires Subsequence(rest, xs[1..])
    ensures Subsequence(rest, xs)
  {
    if rest != [] {
      assert keep(rest[0]);
    }
  }

  /** When `keep` accepts every element, filtering changes nothing. */
  lemma {:induction false} FilterKeepsAll<T(!new)>(xs: seq<T>, keep: T -> bool)
    requires forall x | x in xs :: keep(x)
    ensures Filter(xs, keep) == xs
  {
    if xs != [] {
      FilterKeepsAll(xs[1..], keep);
    }
  }

  /** Filtering never brings back a duplicate. */
  lemma FilterNoDuplicates<T(!new)>(xs: seq<T>, keep: T -> bool)
    ensures NoDuplicates(xs) ==> NoDuplicates(Filter(xs, keep))
  {
    var r := Filter(xs, keep);
    if NoDuplicates(xs) {
      forall x | x in r ensures multiset(r)[x] == 1 {
        assert keep(x) && x in xs;
      }
    }
  }

  /** `xs.map(x => hit(x) ? update(x) : x)`: the same positions, with `update` applied exactly where `hit` holds. */
  function MapWhere<T>(xs: seq<T>, hit: T -> bool, update: T -> T): (r: seq<T>)
    ensures |r| == |xs|
    ensures forall i | 0 <= i < |xs| :: r[i] == if hit(xs[i]) then update(xs[i]) else xs[i]
  {
    if xs == [] then []
    else [if hit(xs[0]) then update(xs[0]) else xs[0]] + MapWhere(xs[1..], hit, update)
  }

  /** `lists.flat()`: every element of every list (the order is not stated, since the tag cloud sorts it). */
  function Flatten<T(!new)>(lists: seq<seq<T>>): (r: seq<T>)
    ensures forall x :: x in r <==> exists i | 0 <= i < |lists| :: x in lists[i]
  {
    if lists == [] then []
    else
      var rest := Flatten(lists[1..]);
      assert forall i | 1 <= i < |lists| :: lists[i] == lists[1..][i - 1];
      lists[0] + rest
  }

  /** `Array.from(new Set(xs))`: each distinct element once (the order is not stated, since the tag cloud sorts it). */
  function Dedup<T(==,!new)>(xs: seq<T>): (r: seq<T>)
    ensures NoDuplicates(r)
    ensures forall x :: x in r <==> x in xs
  {
    if xs == [] then []
    else
      var last := xs[|xs| - 1];
      var rest := Dedup(xs[..|xs| - 1]);
      assert xs == xs[..|xs| - 1] + [last];
      if last in rest then rest
      else
        AppendFresh(rest, last);
        rest + [last]
  }

  lemma AppendFresh<T>(xs: seq<T>, y: T)
    requires y !in xs
    ensures NoDuplicates(xs) ==> NoDuplicates(xs + [y])
  {
    var r := xs + [y];
    assert multiset(r) == multiset(xs) + multiset{y};
    if NoDuplicates(xs) {
      forall x | x in r ensures multiset(r)[x] == 1 {
        if x != y { assert x in xs; }
      }
    }
  }

  /** A permutation of a list without duplicates has none either. */
  lemma PermutationNoDuplicates<T>(xs: seq<T>, ys: seq<T>)
    requires NoDuplicates(xs) && multiset(xs) == multiset(ys)
    ensures NoDuplicates(ys)
  {
    forall x | x in ys ensures multiset(ys)[x] == 1 {
      assert x in multiset(ys);
    }
  }

  /** Two permutations of each other hold the same elements. */
  lemma PermutationSameElements<T>(xs: seq<T>, ys: seq<T>)
    requires multiset(xs) == multiset(ys)
    ensures forall x :: x in xs <==> x in ys
  {
    forall x ensures x in xs <==> x in ys {
      assert x in xs <==> x in multiset(xs);
      assert x in ys <==> x in multiset(ys);
    }
  }
}
