/** Sums of multisets and of numbers over a sequence, and how they react to an update, a concatenation or a
    permutation of the sequence. */
module Sums {

  /** The sum of `f(x)` over all elements `x` of `xs`. */
  ghost function MSum<A, B>(xs: seq<A>, f: A -> multiset<B>): multiset<B> {
    if xs == [] then multiset{} else f(xs[0]) + MSum(xs[1..], f)
  }

  lemma {:induction false} MSumConcat<A, B>(xs: seq<A>, ys: seq<A>, f: A -> multiset<B>)
    ensures MSum(xs + ys, f) == MSum(xs, f) + MSum(ys, f)
  {
    if xs == [] {
      assert xs + ys == ys;
    } else {
      MSumConcat(xs[1..], ys, f);
      assert (xs + ys)[1..] == xs[1..] + ys;
    }
  }

  /** Appending one element. */
  lemma MSumAppend<A, B>(xs: seq<A>, x: A, f: A -> multiset<B>)
    ensures MSum(xs + [x], f) == MSum(xs, f) + f(x)
  {
    MSumConcat(xs, [x], f);
    assert MSum([x], f) == f(x) + MSum([], f);
  }

  lemma Swap<B>(a: multiset<B>, b: multiset<B>, c: multiset<B>)
    ensures a + (b + c) == b + (a + c)
  {
  }

  /** Taking one element out. */
  lemma {:induction false} MSumRemove<A, B>(xs: seq<A>, i: nat, f: A -> multiset<B>)
    requires i < |xs|
    ensures MSum(xs, f) == f(xs[i]) + MSum(xs[..i] + xs[i+1..], f)
  {
    var rest := xs[..i] + xs[i+1..];
    if i == 0 {
      assert rest == xs[1..];
    } else {
      MSumRemove(xs[1..], i - 1, f);
      assert rest[1..] == xs[1..][..i-1] + xs[1..][i..];
      Swap(f(xs[0]), f(xs[i]), MSum(rest[1..], f));
    }
  }

  /** Replacing one element. */
  lemma MSumUpdate<A, B>(xs: seq<A>, i: nat, x: A, f: A -> multiset<B>)
    requires i < |xs|
    ensures MSum(xs[i := x], f) + f(xs[i]) == MSum(xs, f) + f(x)
  {
    MSumRemove(xs, i, f);
    MSumRemove(xs[i := x], i, f);
    assert xs[i := x][..i] + xs[i := x][i+1..] == xs[..i] + xs[i+1..];
  }

  lemma RemoveFromMultiset<A>(xs: seq<A>, i: nat)
    requires i < |xs|
    ensures multiset(xs) == multiset{xs[i]} + multiset(xs[..i] + xs[i+1..])
  {
    assert xs == xs[..i] + [xs[i]] + xs[i+1..];
  }

  /** The head of a sequence occurs in every permutation of it; without it the rests are permutations too. */
  lemma PermutationHead<A>(xs: seq<A>, ys: seq<A>) returns (i: nat)
    requires multiset(xs) == multiset(ys) && xs != []
    ensures i < |ys| && ys[i] == xs[0] && multiset(xs[1..]) == multiset(ys[..i] + ys[i+1..])
  {
    assert xs[0] in multiset(ys);
    i :| 0 <= i < |ys| && ys[i] == xs[0];
    RemoveFromMultiset(ys, i);
    assert xs == [xs[0]] + xs[1..];
    assert multiset(xs[1..]) == multiset(xs) - multiset{xs[0]};
    assert multiset(ys[..i] + ys[i+1..]) == multiset(ys) - multiset{xs[0]};
  }

  /** A sum does not depend on the order of the elements. */
  lemma {:induction false} MSumPermutation<A, B>(xs: seq<A>, ys: seq<A>, f: A -> multiset<B>)
    requires multiset(xs) == multiset(ys)
    ensures MSum(xs, f) == MSum(ys, f)
  {
    if xs == [] {
      assert |multiset(ys)| == 0;
    } else {
      var i := PermutationHead(xs, ys);
      MSumPermutation(xs[1..], ys[..i] + ys[i+1..], f);
      MSumRemove(ys, i, f);
    }
  }

  /** An element of the sum comes from some summand. */
  lemma {:induction false} MSumWitness<A, B>(xs: seq<A>, f: A -> multiset<B>, b: B) returns (i: nat)
    requires b in MSum(xs, f)
    ensures i < |xs| && b in f(xs[i])
  {
    if b in f(xs[0]) {
      i := 0;
    } else {
      i := MSumWitness(xs[1..], f, b);
      i := i + 1;
    }
  }

  /** Every summand is part of the sum. */
  lemma MSumContains<A, B>(xs: seq<A>, i: nat, f: A -> multiset<B>)
    requires i < |xs|
    ensures f(xs[i]) <= MSum(xs, f)
  {
    MSumRemove(xs, i, f);
  }

  /** Sums of equal summands are equal. */
  lemma {:induction false} MSumPointwise<A, C, B>(xs: seq<A>, f: A -> multiset<B>, ys: seq<C>, g: C -> multiset<B>)
    requires |xs| == |ys|
    requires forall i :: 0 <= i < |xs| ==> f(xs[i]) == g(ys[i])
    ensures MSum(xs, f) == MSum(ys, g)
  {
    if xs != [] {
      MSumPointwise(xs[1..], f, ys[1..], g);
    }
  }

  /** The sum of `f(x)` over all elements `x` of `xs`. */
  ghost function NSum<A>(xs: seq<A>, f: A -> nat): nat {
    if xs == [] then 0 else f(xs[0]) + NSum(xs[1..], f)
  }

  lemma {:induction false} NSumUpdate<A>(xs: seq<A>, i: nat, x: A, f: A -> nat)
    requires i < |xs|
    ensures NSum(xs[i := x], f) + f(xs[i]) == NSum(xs, f) + f(x)
  {
    if i == 0 {
      assert xs[i := x][1..] == xs[1..];
    } else {
      NSumUpdate(xs[1..], i - 1, x, f);
      assert xs[i := x][1..] == xs[1..][i-1 := x];
    }
  }

  lemma {:induction false} NSumBounded<A>(xs: seq<A>, f: A -> nat, bound: nat)
    requires forall i :: 0 <= i < |xs| ==> f(xs[i]) <= bound
    ensures NSum(xs, f) <= bound * |xs|
  {
    if xs != [] {
      NSumBounded(xs[1..], f, bound);
      assert bound * |xs| == bound + bound * (|xs| - 1);
    }
  }

  lemma {:induction false} NSumAll<A>(xs: seq<A>, f: A -> nat, value: nat)
    requires forall i :: 0 <= i < |xs| ==> f(xs[i]) == value
    ensures NSum(xs, f) == value * |xs|
  {
    if xs != [] {
      NSumAll(xs[1..], f, value);
      assert value * |xs| == value + value * (|xs| - 1);
    }
  }

  lemma {:induction false} NSumAtLeast<A>(xs: seq<A>, i: nat, f: A -> nat)
    requires i < |xs|
    ensures NSum(xs, f) >= f(xs[i])
  {
    if i > 0 {
      NSumAtLeast(xs[1..], i - 1, f);
    }
  }

  /** Pointwise comparison of two sums. */
  lemma {:induction false} NSumMonotone<A>(xs: seq<A>, ys: seq<A>, f: A -> nat)
    requires |xs| == |ys|
    requires forall i :: 0 <= i < |xs| ==> f(xs[i]) <= f(ys[i])
    ensures NSum(xs, f) <= NSum(ys, f)
  {
    if xs != [] {
      NSumMonotone(xs[1..], ys[1..], f);
    }
  }

  /** A 0/1 sum that reaches the length of the sequence is 1 everywhere. */
  lemma {:induction false} NSumFull<A>(xs: seq<A>, f: A -> nat)
    requires forall i :: 0 <= i < |xs| ==> f(xs[i]) <= 1
    requires NSum(xs, f) >= |xs|
    ensures forall i :: 0 <= i < |xs| ==> f(xs[i]) == 1
  {
    if xs != [] {
      NSumBounded(xs[1..], f, 1);
      NSumFull(xs[1..], f);
      forall i | 0 <= i < |xs| ensures f(xs[i]) == 1 {
        if i > 0 {
          assert xs[i] == xs[1..][i-1];
        }
      }
    }
  }

  lemma {:induction false} NSumConcat<A>(xs: seq<A>, ys: seq<A>, f: A -> nat)
    ensures NSum(xs + ys, f) == NSum(xs, f) + NSum(ys, f)
  {
    if xs == [] {
      assert xs + ys == ys;
    } else {
      NSumConcat(xs[1..], ys, f);
      assert (xs + ys)[1..] == xs[1..] + ys;
    }
  }

  lemma {:induction false} NSumPermutation<A>(xs: seq<A>, ys: seq<A>, f: A -> nat)
    requires multiset(xs) == multiset(ys)
    ensures NSum(xs, f) == NSum(ys, f)
  {
    if xs == [] {
      assert |multiset(ys)| == 0;
    } else {
      var i := PermutationHead(xs, ys);
      NSumPermutation(xs[1..], ys[..i] + ys[i+1..], f);
      assert ys == ys[..i] + ([ys[i]] + ys[i+1..]);
      NSumConcat(ys[..i], [ys[i]] + ys[i+1..], f);
      NSumConcat([ys[i]], ys[i+1..], f);
      NSumConcat(ys[..i], ys[i+1..], f);
      assert NSum([ys[i]], f) == f(ys[i]) + NSum([], f);
    }
  }

  /** Regrouping of a sum of four multisets. */
  lemma Regroup<B>(a: multiset<B>, b: multiset<B>, c: multiset<B>, d: multiset<B>)
    ensures (a + b) + (c + d) == (a + c) + (b + d)
  {
  }

  lemma AddAssociative<B>(a: multiset<B>, b: multiset<B>, c: multiset<B>)
    ensures (a + b) + c == a + (b + c)
  {
  }

  lemma JoinLater<B>(a: multiset<B>, b: multiset<B>, c: multiset<B>)
    ensures (a + c) + b == (a + b) + c && a + (b + c) == (a + b) + c
  {
  }

  lemma Cancel<B>(a: multiset<B>, b: multiset<B>, c: multiset<B>)
    requires a + c == b + c
    ensures a == b
  {
    forall x ensures a[x] == b[x] {
      assert (a + c)[x] == (b + c)[x];
    }
  }

  lemma NSumLess<A>(xs: seq<A>, ys: seq<A>, i: nat, f: A -> nat)
    requires i < |xs| == |ys|
    requires forall j :: 0 <= j < |xs| ==> f(xs[j]) <= f(ys[j])
    requires f(xs[i]) < f(ys[i])
    ensures NSum(xs, f) < NSum(ys, f)
  {
    NSumUpdate(ys, i, xs[i], f);
    NSumMonotone(xs, ys[i := xs[i]], f);
  }

  lemma CancelLeft<B>(a: multiset<B>, b: multiset<B>, c: multiset<B>)
    requires c + a == c + b
    ensures a == b
  {
    forall x ensures a[x] == b[x] {
      assert (c + a)[x] == (c + b)[x];
    }
  }

  lemma Rotate<B>(a: multiset<B>, b: multiset<B>, c: multiset<B>)
    ensures c + (a + b) == (b + c) + a
  {
  }
}
