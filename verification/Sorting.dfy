/**
 The stable sorts of the repository. Every comparison it sorts with compares a
 few parts in turn, so a sort is given the parts of an element in that order.
 */
module Sorting {
  import opened Sequences
  import opened Text

  datatype Part = Word(text: string) | Number(n: int)

  predicate PartLess(a: Part, b: Part) {
    match (a, b)
    case (Word(s), Word(t)) => Less(s, t)
    case (Number(m), Number(n)) => m < n
    case (Number(_), Word(_)) => true
    case (Word(_), Number(_)) => false
  }

  /** The first part that differs decides. */
  predicate KeyLess(a: seq<Part>, b: seq<Part>) {
    b != [] && (a == [] || PartLess(a[0], b[0]) || (a[0] == b[0] && KeyLess(a[1..], b[1..])))
  }

  lemma PartOrder(a: Part, b: Part, c: Part)
    ensures !PartLess(a, a)
    ensures a == b || PartLess(a, b) || PartLess(b, a)
    ensures PartLess(a, b) && PartLess(b, c) ==> PartLess(a, c)
  {
    match (a, b) {
      case (Word(s), Word(t)) =>
        LessTotal(s, t);
        if c.Word? && Less(s, t) && Less(t, c.text) {
          LessTransitive(s, t, c.text);
        }
      case _ =>
    }
    if a.Word? {
      LessIrreflexive(a.text);
    }
  }

  lemma {:induction false} KeyIrreflexive(a: seq<Part>)
    ensures !KeyLess(a, a)
  {
    if a != [] {
      PartOrder(a[0], a[0], a[0]);
      KeyIrreflexive(a[1..]);
    }
  }

  lemma {:induction false} KeyTransitive(a: seq<Part>, b: seq<Part>, c: seq<Part>)
    requires KeyLess(a, b) && KeyLess(b, c)
    ensures KeyLess(a, c)
  {
    if a != [] {
      PartOrder(a[0], b[0], c[0]);
      if a[0] == b[0] == c[0] && !PartLess(a[0], b[0]) && !PartLess(b[0], c[0]) {
        KeyTransitive(a[1..], b[1..], c[1..]);
      }
    }
  }

  lemma {:induction false} KeyTotal(a: seq<Part>, b: seq<Part>)
    ensures a == b || KeyLess(a, b) || KeyLess(b, a)
  {
    if a != [] && b != [] {
      PartOrder(a[0], b[0], b[0]);
      if a[0] == b[0] {
        KeyTotal(a[1..], b[1..]);
        assert a == [a[0]] + a[1..] && b == [b[0]] + b[1..];
      }
    }
  }

  /** Puts `x` before the first element that is not smaller. */
  function Insert<T>(x: T, ys: seq<T>, key: T -> seq<Part>): (r: seq<T>)
    ensures |r| == |ys| + 1
  {
    if ys != [] && KeyLess(key(ys[0]), key(x)) then [ys[0]] + Insert(x, ys[1..], key) else [x] + ys
  }

  function StableSort<T>(xs: seq<T>, key: T -> seq<Part>): (r: seq<T>)
    ensures |r| == |xs|
  {
    if xs == [] then [] else Insert(xs[0], StableSort(xs[1..], key), key)
  }

  ghost predicate Sorted<T>(xs: seq<T>, key: T -> seq<Part>) {
    forall i, j :: 0 <= i < j < |xs| ==> !KeyLess(key(xs[j]), key(xs[i]))
  }

  lemma {:induction false} InsertPermutes<T>(x: T, ys: seq<T>, key: T -> seq<Part>)
    ensures multiset(Insert(x, ys, key)) == multiset{x} + multiset(ys)
  {
    if ys != [] && KeyLess(key(ys[0]), key(x)) {
      InsertPermutes(x, ys[1..], key);
      assert ys == [ys[0]] + ys[1..];
    }
  }

  lemma {:induction false} SortPermutes<T>(xs: seq<T>, key: T -> seq<Part>)
    ensures multiset(StableSort(xs, key)) == multiset(xs)
  {
    if xs != [] {
      SortPermutes(xs[1..], key);
      InsertPermutes(xs[0], StableSort(xs[1..], key), key);
      assert xs == [xs[0]] + xs[1..];
    }
  }

  lemma {:induction false} InsertSorted<T>(x: T, ys: seq<T>, key: T -> seq<Part>)
    requires Sorted(ys, key)
    ensures Sorted(Insert(x, ys, key), key)
  {
    if ys != [] {
      var rest := ys[1..];
      if KeyLess(key(ys[0]), key(x)) {
        InsertSorted(x, rest, key);
        var tail := Insert(x, rest, key);
        InsertPermutes(x, rest, key);
        forall j | 0 <= j < |tail| ensures !KeyLess(key(tail[j]), key(ys[0])) {
          assert tail[j] in multiset(tail);
          if tail[j] == x {
            if KeyLess(key(x), key(ys[0])) {
              KeyTransitive(key(x), key(ys[0]), key(x));
              KeyIrreflexive(key(x));
            }
          } else {
            assert tail[j] in multiset(rest);
          }
        }
      } else {
        forall j | 0 <= j < |ys| ensures !KeyLess(key(ys[j]), key(x)) {
          if KeyLess(key(ys[j]), key(x)) {
            KeyTotal(key(x), key(ys[0]));
            if KeyLess(key(x), key(ys[0])) {
              KeyTransitive(key(ys[j]), key(x), key(ys[0]));
            }
          }
        }
      }
    }
  }

  lemma {:induction false} SortSorted<T>(xs: seq<T>, key: T -> seq<Part>)
    ensures Sorted(StableSort(xs, key), key)
  {
    if xs != [] {
      SortSorted(xs[1..], key);
      InsertSorted(xs[0], StableSort(xs[1..], key), key);
    }
  }

  /** The elements whose key is `k`, in the order they come. */
  ghost function WithKey<T>(xs: seq<T>, key: T -> seq<Part>, k: seq<Part>): seq<T> {
    if xs == [] then [] else (if key(xs[0]) == k then [xs[0]] else []) + WithKey(xs[1..], key, k)
  }

  lemma {:induction false} InsertStable<T>(x: T, ys: seq<T>, key: T -> seq<Part>, k: seq<Part>)
    ensures WithKey(Insert(x, ys, key), key, k) == WithKey([x] + ys, key, k)
  {
    assert ([x] + ys)[1..] == ys;
    if ys != [] && KeyLess(key(ys[0]), key(x)) {
      InsertStable(x, ys[1..], key, k);
      KeyIrreflexive(key(x));
      assert ([x] + ys[1..])[1..] == ys[1..];
      assert ([ys[0]] + Insert(x, ys[1..], key))[1..] == Insert(x, ys[1..], key);
    }
  }

  /** Elements that compare equal keep the order they came in. */
  lemma {:induction false} SortStable<T>(xs: seq<T>, key: T -> seq<Part>, k: seq<Part>)
    ensures WithKey(StableSort(xs, key), key, k) == WithKey(xs, key, k)
  {
    if xs != [] {
      SortStable(xs[1..], key, k);
      InsertStable(xs[0], StableSort(xs[1..], key), key, k);
      assert ([xs[0]] + StableSort(xs[1..], key))[1..] == StableSort(xs[1..], key);
    }
  }

  /** No two different elements share a key. */
  ghost predicate KeysTellApart<T>(xs: seq<T>, key: T -> seq<Part>) {
    forall i, j :: 0 <= i < |xs| && 0 <= j < |xs| && key(xs[i]) == key(xs[j]) ==> xs[i] == xs[j]
  }

  lemma TailsPermute<T>(xs: seq<T>, ys: seq<T>)
    requires multiset(xs) == multiset(ys) && |xs| == |ys| > 0 && xs[0] == ys[0]
    ensures multiset(xs[1..]) == multiset(ys[1..])
  {
    assert xs == [xs[0]] + xs[1..] && ys == [ys[0]] + ys[1..];
    assert multiset(xs[1..]) == multiset(xs) - multiset{xs[0]};
    assert multiset(ys[1..]) == multiset(ys) - multiset{ys[0]};
  }

  lemma TailStays<T>(xs: seq<T>, key: T -> seq<Part>)
    requires xs != []
    ensures Sorted(xs, key) ==> Sorted(xs[1..], key)
    ensures KeysTellApart(xs, key) ==> KeysTellApart(xs[1..], key)
  {
    hide KeyLess;
  }

  lemma FirstsAgree<T>(xs: seq<T>, ys: seq<T>, key: T -> seq<Part>)
    requires Sorted(xs, key) && Sorted(ys, key)
    requires multiset(xs) == multiset(ys) && xs != []
    requires KeysTellApart(xs, key)
    ensures ys != [] && xs[0] == ys[0]
  {
    hide KeyLess;
    PermutedMembers(xs, ys);
    assert xs[0] in ys && ys[0] in xs;
    var i :| 0 <= i < |ys| && ys[i] == xs[0];
    var j :| 0 <= j < |xs| && xs[j] == ys[0];
    KeyTotal(key(xs[0]), key(ys[0]));
  }

  lemma {:induction false} SortedUnique<T>(xs: seq<T>, ys: seq<T>, key: T -> seq<Part>)
    requires Sorted(xs, key) && Sorted(ys, key)
    requires multiset(xs) == multiset(ys)
    requires KeysTellApart(xs, key)
    ensures xs == ys
  {
    hide KeyLess, Sorted, KeysTellApart;
    PermutedMembers(xs, ys);
    if xs != [] {
      FirstsAgree(xs, ys, key);
      TailsPermute(xs, ys);
      TailStays(xs, key);
      TailStays(ys, key);
      SortedUnique(xs[1..], ys[1..], key);
      assert xs == [xs[0]] + xs[1..] && ys == [ys[0]] + ys[1..];
    }
  }

  /** The order of the input does not matter where keys tell elements apart. */
  lemma SortForgetsOrder<T>(xs: seq<T>, ys: seq<T>, key: T -> seq<Part>)
    requires multiset(xs) == multiset(ys)
    requires KeysTellApart(xs, key)
    ensures StableSort(xs, key) == StableSort(ys, key)
  {
    SortSorted(xs, key);
    SortSorted(ys, key);
    SortPermutes(xs, key);
    SortPermutes(ys, key);
    var sorted := StableSort(xs, key);
    forall i, j | 0 <= i < |sorted| && 0 <= j < |sorted| && key(sorted[i]) == key(sorted[j])
      ensures sorted[i] == sorted[j]
    {
      assert sorted[i] in multiset(xs) && sorted[j] in multiset(xs);
      var a :| 0 <= a < |xs| && xs[a] == sorted[i];
      var b :| 0 <= b < |xs| && xs[b] == sorted[j];
    }
    SortedUnique(sorted, StableSort(ys, key), key);
  }

  /** A list that is in order already stays as it is. */
  lemma SortKeepsSorted<T>(xs: seq<T>, key: T -> seq<Part>)
    requires Sorted(xs, key) && KeysTellApart(xs, key)
    ensures StableSort(xs, key) == xs
  {
    SortSorted(xs, key);
    SortPermutes(xs, key);
    SortedUnique(xs, StableSort(xs, key), key);
  }

  /** Of two keys in order, the first parts in which they differ are in order. */
  lemma {:induction false} PartsInOrder(a: seq<Part>, b: seq<Part>, k: nat)
    requires !KeyLess(b, a) && k < |a| && k < |b| && a[..k] == b[..k]
    ensures !PartLess(b[k], a[k])
    decreases k
  {
    if k > 0 {
      assert a[0] == a[..k][0] == b[..k][0] == b[0];
      assert a[1..][..k - 1] == a[..k][1..] && b[1..][..k - 1] == b[..k][1..];
      PartsInOrder(a[1..], b[1..], k - 1);
    }
  }
}
