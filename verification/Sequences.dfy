/** Lists in which nothing occurs twice, lists that are permutations of each other, and picking from a set. */
module Sequences {

  ghost predicate Distinct<T>(xs: seq<T>) {
    forall i, j :: 0 <= i < j < |xs| ==> xs[i] != xs[j]
  }

  lemma {:induction false} DistinctCounts<T>(xs: seq<T>, x: T)
    requires Distinct(xs)
    ensures multiset(xs)[x] == if x in xs then 1 else 0
  {
    if xs != [] {
      assert xs == [xs[0]] + xs[1..];
      DistinctCounts(xs[1..], x);
    }
  }

  lemma {:induction false} CountsDistinct<T>(xs: seq<T>)
    requires forall x :: x in xs ==> multiset(xs)[x] == 1
    ensures Distinct(xs)
  {
    if xs != [] {
      assert xs == [xs[0]] + xs[1..];
      forall x | x in xs[1..] ensures multiset(xs[1..])[x] == 1 && x != xs[0] {
        assert multiset(xs) == multiset{xs[0]} + multiset(xs[1..]);
        assert x in xs && x in multiset(xs[1..]);
      }
      CountsDistinct(xs[1..]);
      forall i, j | 0 <= i < j < |xs| ensures xs[i] != xs[j] {
        assert xs[j] == xs[1..][j - 1] && xs[j] in xs[1..];
        assert i > 0 ==> xs[i] == xs[1..][i - 1];
      }
    }
  }

  /** Lists of the same distinct members are permutations of each other. */
  lemma SameMembersPermute<T>(xs: seq<T>, ys: seq<T>)
    requires Distinct(xs) && Distinct(ys)
    requires forall x :: x in xs <==> x in ys
    ensures multiset(xs) == multiset(ys)
  {
    forall x ensures multiset(xs)[x] == multiset(ys)[x] {
      DistinctCounts(xs, x);
      DistinctCounts(ys, x);
    }
  }

  lemma PermutedDistinct<T>(xs: seq<T>, ys: seq<T>)
    requires Distinct(xs) && multiset(xs) == multiset(ys)
    ensures Distinct(ys)
  {
    forall y | y in ys ensures multiset(ys)[y] == 1 {
      assert y in multiset(ys);
      DistinctCounts(xs, y);
    }
    CountsDistinct(ys);
  }

  lemma PermutedMembers<T>(xs: seq<T>, ys: seq<T>)
    requires multiset(xs) == multiset(ys)
    ensures |xs| == |ys|
    ensures forall x :: x in xs <==> x in ys
  {
    assert |multiset(xs)| == |multiset(ys)|;
    forall x ensures x in xs <==> x in ys {
      assert x in xs <==> x in multiset(xs);
      assert x in ys <==> x in multiset(ys);
    }
  }

  /** Any member of a set that has one. */
  method TakeOne<T>(s: set<T>) returns (x: T)
    requires s != {}
    ensures x in s
  {
    x :| x in s;
  }
}
