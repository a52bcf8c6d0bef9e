/** Counting over sequences: the two shapes of Python's `sum` over a generator
    that the analysis uses, `sum(p(x) for x in xs)` over booleans (a count) and
    `sum(f(x) for x in xs)` over natural numbers (a sum). */
module Counting {

  /** Number of elements of `xs` that satisfy `p` (each `True` adds one). */
  function CountWhere<T>(xs: seq<T>, p: T -> bool): (n: nat)
    ensures n <= |xs|
    ensures n == 0 <==> forall i :: 0 <= i < |xs| ==> !p(xs[i])
  {
    if xs == [] then 0 else (if p(xs[0]) then 1 else 0) + CountWhere(xs[1..], p)
  }

  /** Sum of `f` over the elements of `xs`. */
  function SumOf<T>(xs: seq<T>, f: T -> nat): nat
  {
    if xs == [] then 0 else f(xs[0]) + SumOf(xs[1..], f)
  }

  /** The positions of `xs` whose element satisfies `p`: an independent
      description of what `CountWhere` counts. */
  ghost function Witnesses<T>(xs: seq<T>, p: T -> bool): set<int>
  {
    set i | 0 <= i < |xs| && p(xs[i])
  }

  lemma {:induction false} CountWhereAppend<T>(xs: seq<T>, ys: seq<T>, p: T -> bool)
    ensures CountWhere(xs + ys, p) == CountWhere(xs, p) + CountWhere(ys, p)
  {
    if xs == [] {
      assert xs + ys == ys;
    } else {
      assert (xs + ys)[1..] == xs[1..] + ys;
      CountWhereAppend(xs[1..], ys, p);
    }
  }

  lemma {:induction false} SumOfAppend<T>(xs: seq<T>, ys: seq<T>, f: T -> nat)
    ensures SumOf(xs + ys, f) == SumOf(xs, f) + SumOf(ys, f)
  {
    if xs == [] {
      assert xs + ys == ys;
    } else {
      assert (xs + ys)[1..] == xs[1..] + ys;
      SumOfAppend(xs[1..], ys, f);
    }
  }

  /** The count is the number of positions whose element satisfies `p`. */
  lemma {:induction false} CountWhereIsWitnessCount<T>(xs: seq<T>, p: T -> bool)
    ensures CountWhere(xs, p) == |Witnesses(xs, p)|
  {
    if xs != [] {
      var n := |xs| - 1;
      var front := xs[..n];
      assert xs == front + [xs[n]];
      CountWhereIsWitnessCount(front, p);
      CountWhereAppend(front, [xs[n]], p);
      assert [xs[n]][1..] == [];
      assert n !in Witnesses(front, p);
      if p(xs[n]) {
        assert Witnesses(xs, p) == Witnesses(front, p) + {n};
      } else {
        assert Witnesses(xs, p) == Witnesses(front, p);
      }
    }
  }

  /** Two predicates that never hold together on `xs` count at most `|xs|` between them. */
  lemma {:induction false} CountWhereDisjoint<T>(xs: seq<T>, p: T -> bool, q: T -> bool)
    requires forall i :: 0 <= i < |xs| ==> !(p(xs[i]) && q(xs[i]))
    ensures CountWhere(xs, p) + CountWhere(xs, q) <= |xs|
  {
    if xs != [] {
      CountWhereDisjoint(xs[1..], p, q);
    }
  }

  /** Predicates that agree on every element of `xs` give the same count. */
  lemma {:induction false} CountWhereAgree<T>(xs: seq<T>, p: T -> bool, q: T -> bool)
    requires forall i :: 0 <= i < |xs| ==> p(xs[i]) == q(xs[i])
    ensures CountWhere(xs, p) == CountWhere(xs, q)
  {
    if xs != [] {
      CountWhereAgree(xs[1..], p, q);
    }
  }

  /** The sum does not depend on the order of the elements: it depends only on
      the multiset of the elements. */
  lemma {:induction false} SumOfPermutation<T>(xs: seq<T>, ys: seq<T>, f: T -> nat)
    requires multiset(xs) == multiset(ys)
    ensures SumOf(xs, f) == SumOf(ys, f)
  {
    if xs == [] {
      assert |ys| == |multiset(ys)| == 0;
    } else {
      var x := xs[0];
      assert x in multiset(xs);
      var j :| 0 <= j < |ys| && ys[j] == x;
      var rest := ys[..j] + ys[j+1..];
      RemoveAt(ys, j);
      assert xs == [x] + xs[1..];
      assert multiset(xs[1..]) == multiset(xs) - multiset{x};
      SumOfPermutation(xs[1..], rest, f);
      SumOfRemoveAt(ys, j, f);
    }
  }

  /** Removing the element at `j` removes one occurrence of it from the multiset. */
  lemma RemoveAt<T>(ys: seq<T>, j: nat)
    requires j < |ys|
    ensures multiset(ys[..j] + ys[j+1..]) == multiset(ys) - multiset{ys[j]}
  {
    assert ys == ys[..j] + [ys[j]] + ys[j+1..];
  }

  /** Removing the element at `j` removes its measure from the sum. */
  lemma SumOfRemoveAt<T>(ys: seq<T>, j: nat, f: T -> nat)
    requires j < |ys|
    ensures SumOf(ys, f) == f(ys[j]) + SumOf(ys[..j] + ys[j+1..], f)
  {
    var before, after := ys[..j], ys[j+1..];
    assert ys == before + ([ys[j]] + after);
    assert ([ys[j]] + after)[1..] == after;
    SumOfAppend(before, [ys[j]] + after, f);
    SumOfAppend(before, after, f);
  }

  /** If `f` is at least `k` wherever `p` holds, the sum is at least `k` times the count. */
  lemma {:induction false} SumOfAtLeastWeightedCount<T>(xs: seq<T>, f: T -> nat, p: T -> bool, k: nat)
    requires forall i :: 0 <= i < |xs| ==> p(xs[i]) ==> f(xs[i]) >= k
    ensures SumOf(xs, f) >= k * CountWhere(xs, p)
  {
    if xs != [] {
      SumOfAtLeastWeightedCount(xs[1..], f, p, k);
      ScaleStep(k, CountWhere(xs[1..], p), p(xs[0]));
    }
  }

  /** `k` times a count with one more possible hit, distributed. */
  lemma ScaleStep(k: nat, c: nat, hit: bool)
    ensures k * ((if hit then 1 else 0) + c) == (if hit then k else 0) + k * c
  {
  }

  /** Total number of occurrences, in `xs`, of the entries of `keys`. */
  function Occurrences<T(==)>(xs: seq<T>, keys: seq<T>): nat
  {
    if keys == [] then 0 else multiset(xs)[keys[0]] + Occurrences(xs, keys[1..])
  }

  /** No entry of `keys` appears twice. */
  predicate Distinct<T(==)>(keys: seq<T>)
  {
    forall i, j :: 0 <= i < j < |keys| ==> keys[i] != keys[j]
  }

  lemma {:induction false} OccurrencesCons<T>(x: T, xs: seq<T>, keys: seq<T>)
    requires Distinct(keys)
    ensures Occurrences([x] + xs, keys) == Occurrences(xs, keys) + (if x in keys then 1 else 0)
  {
    if keys != [] {
      assert multiset([x] + xs) == multiset{x} + multiset(xs);
      OccurrencesCons(x, xs, keys[1..]);
      assert x in keys <==> x == keys[0] || x in keys[1..] by {
        assert keys == [keys[0]] + keys[1..];
      }
      assert x == keys[0] ==> x !in keys[1..];
    }
  }

  /** Counting the elements of `xs` that are in a duplicate-free list `keys`
      is counting, key by key, how often each key occurs in `xs`. */
  lemma {:induction false} CountMembersIsOccurrences<T>(xs: seq<T>, keys: seq<T>, p: T -> bool)
    requires Distinct(keys)
    requires forall i :: 0 <= i < |xs| ==> (p(xs[i]) <==> xs[i] in keys)
    ensures CountWhere(xs, p) == Occurrences(xs, keys)
  {
    if xs == [] {
      OccurrencesOfNothing(keys);
    } else {
      assert xs == [xs[0]] + xs[1..];
      CountMembersIsOccurrences(xs[1..], keys, p);
      OccurrencesCons(xs[0], xs[1..], keys);
    }
  }

  lemma {:induction false} OccurrencesOfNothing<T>(keys: seq<T>)
    ensures Occurrences([], keys) == 0
  {
    if keys != [] {
      OccurrencesOfNothing(keys[1..]);
    }
  }
}
